/** An optional value: the model's replacement for nullable points and failed queries. */
module Optional {

  datatype Option<T> = None | Some(value: T)
}
