/** Small shared datatypes: an optional value, the ways the message
    processor can stop with an uncaught Python exception, and the messages
    it sends. */
module Outcomes {

  datatype Option<+T> = None | Some(value: T)

  /** The uncaught exceptions of the modelled code paths. */
  datatype Fault =
    | UnknownUser             // get_user_by_id finds no contact for the sender
    | EmptyCommand            // text.split() is empty, so cmd[0] raises IndexError
    | BlankLine(line: nat)    // elements[0] on a blank line of a scanned file
    | MissingPassword(line: nat) // elements[1] on a one-token line whose token is the port
    | NoPort                  // names[1] on a remark with fewer than two tokens
    | NonNumericPort          // long(port) raises ValueError

  /** How the handling of one message ended. */
  datatype Outcome = Done | Crash(fault: Fault)

  /** One call into the chat client's send API: `send_text`, `send_img`,
      `send_file` or `send_emot`, with the target user or group id. */
  datatype Event =
    | Text(to: string, text: string)
    | Image(to: string, path: string)
    | File(to: string, path: string)
    | Emoticon(to: string, path: string)
}
