/**
 * The vocabulary the client shares with the server and with its callers: the
 * reply codes it checks (section 4.2 of RFC 959), one reply, and the errors the
 * client's operations return.
 */
module Protocol {
  import opened Wrappers

  const StatusCommandOK: int := 200
  const StatusServiceReadyForNewUser: int := 220
  const StatusEnteringPassiveMode: int := 227
  const StatusUserLoggedIn: int := 230
  const StatusNeedPassword: int := 331

  /** One reply read from the control connection: the status code and the text after it. */
  datatype Reply = Reply(code: int, msg: string)

  /**
   * Why an operation failed. The client wraps lower-level errors the way its
   * `fmt.Errorf(... %w ...)` calls do, so a failed USER write is
   * `SendFailed("USER", WriteFailed("USER alice"))`.
   */
  datatype Error =
    | CloseFailed                          // closing the previous control connection failed
    | DialFailed(addr: string)             // the control connection could not be dialed
    | NotReady(greeting: Option<Reply>)    // no greeting, or one whose code is not 220
    | WriteFailed(text: string)            // writing a command line failed
    | ReadFailed                           // reading a reply failed
    | SendFailed(verb: string, cause: Error)   // a step's command exchange failed
    | Rejected(verb: string, reply: Reply)     // a step got a code other than the one it needs
    | PasvSlicePanic(msg: string)          // the `(`..`)` slice is out of range: Go panics here
    | PasvMalformed(msg: string)           // the PASV group does not have six fields
    | PasvPortMalformed(msg: string)       // field five or six is not a decimal integer
    | DataDialFailed(addr: string)         // the data connection could not be dialed
    | TransferFailed                       // reading the data connection failed
}
