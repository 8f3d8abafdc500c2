/** The optional value used wherever the C# code compares a reference or an enum case
    against "nothing". */
module Wrappers {

  datatype Option<+T> = None | Some(value: T)
}
