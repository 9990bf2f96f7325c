/** The optional value used where the controller may hold or receive a null reference. */
module Wrappers {

  /** `None` stands for a C# null reference, `Some(v)` for a present value. */
  datatype Option<+T> = None | Some(value: T)
}
