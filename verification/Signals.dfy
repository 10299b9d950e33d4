/** Process signals. */
module Signals {
  datatype Signal = SIGINT | SIGTERM | SIGKILL

  /** The signals that the scripts install handlers for. */
  type Handled = s: Signal | s != SIGKILL witness SIGINT
}
