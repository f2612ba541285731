/** The optional value used wherever the source returns `None` or reads a
    field that may be missing. */
module Maybe {

  datatype Option<+T> = None | Some(value: T)

}
