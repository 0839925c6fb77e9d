/** A nullable value: C# `null` is `None`. */
module Options {

  datatype Option<+T> = None | Some(value: T)
}
