/** The two result shapes used throughout the models. */
module Wrappers {

  datatype Option<+T> = None | Some(value: T)

  /** What a call that may be refused returns: the source raises an exception and leaves its state alone. */
  datatype Outcome<+T> = Done(value: T) | Refused
}
