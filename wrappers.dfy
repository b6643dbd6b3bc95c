/** The nullable slots of the app (`T | null`) as an Option value. */
module Wrappers {

  datatype Option<+T> = None | Some(value: T)
}
