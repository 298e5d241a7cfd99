/** The ways a call into the nmcli wrapper can end, in place of Python exceptions. */
module Outcomes {

  datatype Option<+T> = None | Some(value: T)

  /** One variant per exception the wrapper lets escape. */
  datatype Failure =
    /** No prefix of the command path is registered: `ns.pop()` on an empty list. */
    | UnresolvedFields
    /** A multi-line output key without exactly one '.': the unpacking of `multikey.split('.')` fails. */
    | BadMultikey(key: string)
    /** nmcli exited with a non-zero code; the message embeds the code and the captured stderr. */
    | ProcessFailed(code: int, stderr: string)
    /** A normalised argument token that the command's allow-list does not contain. */
    | NotAllowed(token: Option<string>, command: string)
    /** A None token reached the command string: `' '.join` refuses a non-string. */
    | NoneInCommand(command: string)
    /** The object has no action of that name (attribute lookup fails). */
    | NoSuchAction(command: string)
    /** A Python 2 `long` reached `arg.lower()`: it is no `int` there, and it has no `lower`. */
    | NoLower(value: int)

  datatype Result<+T> = Ok(value: T) | Err(error: Failure)
}
