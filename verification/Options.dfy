/** Optional values: Java's null and absent map entries. */
module Options {
  datatype Option<+T> = None | Some(value: T)
}
