/** The exception taxonomy of the client (src/pal_rcon/errors.py plus the
    Python built-ins the engine raises or lets through), and the small
    result types the model uses instead of exceptions. */
module Errors {

  /** A byte is an unsigned integer below 256. */
  type byte = b: int | 0 <= b < 256

  /** The failures the protocol engine can surface to its caller. */
  datatype Error =
    | ConnectionError                     // not connected, or the channel failed
    | AuthenticationFailed                // the server answered with packet id -1
    | InvalidPacket                       // the two terminator bytes are not 00 00
    | IncompleteMessage(raw: seq<byte>)   // the message does not end in a newline
    | PalRconError                        // generic terminal error of the retry loops
    | ValueError                          // a player line without exactly three fields
    | IndexError                          // keyword of an empty token list

  /** Errors that make the clients reconnect (the `except (ConnectionError,
      AuthenticationFailedError)` clauses). */
  predicate IsConnectionLevel(e: Error) {
    e.ConnectionError? || e.AuthenticationFailed?
  }

  /** Errors that make `execute_command` retry locally (the
      `except (IncompleteMessageError, InvalidPacketError)` clauses). */
  predicate IsFraming(e: Error) {
    e.InvalidPacket? || e.IncompleteMessage?
  }

  datatype Option<+T> = None | Some(value: T)

  datatype Result<+T> = Ok(value: T) | Err(error: Error)

  /** Outcome of an operation that returns nothing on success. */
  datatype Status = Done | Failed(error: Error)
}
