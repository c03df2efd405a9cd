/** The front end's screen selector, the `mode` state of the root component. */
module Modes {

  /** `"search"`, `"play"` and `"stopwatch"`. */
  datatype Mode = Search | Play | Stopwatch
}
