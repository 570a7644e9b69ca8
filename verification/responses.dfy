/** What a controller action leaves behind. */
module Responses {
  /** `Done` carries the state after a successful action; `Refused` a
      redirect with an error or a validation failure, with nothing written;
      `Crashed` a server error raised after the writes in `state` were
      already made. */
  datatype Outcome<+S, +E> = Done(state: S) | Refused(reason: E) | Crashed(state: S)
}
