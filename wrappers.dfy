/** The optional value that stands for the sentinels of the C code
    (a NULL pointer, NAN, or the character '\0' of an empty stack). */
module Wrappers {

  datatype Option<+T> = None | Some(value: T)
}
