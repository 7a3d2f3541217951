/** The optional value used for an empty cell and for a search that finds nothing. */
module Optional {

  datatype Option<+T> = None | Some(value: T)

}
