/** The optional value used where the PHP code reads an undefined array
    index (which yields null with a notice) or skips a method. */
module Options {

  datatype Option<+T> = None | Some(value: T)

}
