/** The one datatype every other module shares. */
module Prelude {
  datatype Option<+T> = None | Some(value: T)
}
