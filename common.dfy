/** Small helper datatypes shared by the catalog and the user modules. */
module Common {

  /** A nullable value: a foreign key declared with null=True, an optional text field. */
  datatype Option<+T> = None | Some(value: T)
}
