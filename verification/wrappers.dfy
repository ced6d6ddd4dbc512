/** The optional value the engine returns where the original returns a
    possibly-NULL `Move*`: `None` is the pass signal. */
module Wrappers {

  datatype Option<+T> = None | Some(value: T)
}
