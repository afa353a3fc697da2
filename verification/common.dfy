/** Values shared by every module of the model. */
module Common {

  /** A value that may be missing: JavaScript's `undefined` / `null`, or an
      absent document returned by the database. */
  datatype Option<+T> = None | Some(value: T)
}
