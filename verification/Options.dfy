// The nullable columns and absent rows of the mirror's tables.
module Options {

  datatype Option<+T> = None | Some(value: T)
}
