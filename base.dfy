/** Optional values. A child element that an XML row does not have reads as None. */
module Base {

  datatype Option<+T> = None | Some(value: T)
}
