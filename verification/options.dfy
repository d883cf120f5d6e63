/** The optional value used for query results and form submissions. */
module Options {

  datatype Option<+T> = None | Some(value: T)
}
