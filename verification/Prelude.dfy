/** The option type every component uses for Go's nil pointers and absent values. */
module Prelude {
  datatype Option<+T> = None | Some(value: T)

  /** How the replacement of a file ends: without an effect, with one that is not reported, or well. */
  datatype Write = Untouched | Unreported | Landed
}
