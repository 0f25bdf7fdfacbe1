// The optional value used throughout the model: a lookup that may find
// nothing, a parse that may fail.

module Maybe {

  datatype Option<+T> = None | Some(value: T)
}
