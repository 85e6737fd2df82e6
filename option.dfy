/** An optional value: a field that is unset, or an integer parse that failed. */
module Optional {

  datatype Option<T> = None | Some(value: T)

}
