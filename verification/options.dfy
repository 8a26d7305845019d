/** An optional value, standing in for Python's `None` default arguments. */
module Options {

  datatype Option<+T> = None | Some(value: T)
}
