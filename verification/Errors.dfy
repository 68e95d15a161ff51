/** The failures the modelled paths produce (src/error.rs). */
module Errors {
  datatype Error =
    | Timeout
    | Unreachable(message: string)
    | Tls(message: string)
    | Cancelled(message: string)
    | BodyTooLarge(limit: nat, seen: nat)
    | Internal(message: string)
}
