/** The optional value shared by the renderer and the engine. */
module Wrappers {

  datatype Option<T> = None | Some(value: T)
}
