/** The messages on the socket, and what a listener's result must look like to the caller. */
module Protocol {
  import opened Varint
  import opened Wrappers
  import opened Framing
  import opened Replies

  datatype Request = Request(slot: nat, payload: seq<byte>)

  datatype ErrorType = Unspecified | ExecAbort | Timeout | Disconnect

  /** An error's text as it is, or wrapped in the notice that the client is reconnecting. */
  datatype Notice = Verbatim(text: string) | WillReconnect(text: string)

  /** A response's `oneof`; `Absent` is the encoding of nil. */
  datatype Body =
    | RespPointer(address: nat)
    | ConstantOk
    | RequestError(kind: ErrorType, notice: Notice)
    | ClosingError(reason: string)
    | Absent

  datatype Response = Response(slot: nat, body: Body)

  /** What a request's task computed; a failure answers several questions about itself. */
  datatype Computed =
    | Success(v: Value)
    | InternalError(text: string)
    | RedisError(refused: bool, dropped: bool, timedOut: bool, execAbort: bool, text: string)

  /** Plain values are passed by address: the listener leaks a box, the client takes it over. */
  predicate IsBoxed(result: Computed) {
    result.Success? && result.v != Okay && result.v != Nil
  }

  /** Results that shut the client down instead of settling one request. */
  predicate IsClosing(result: Computed) {
    result.InternalError? || (result.RedisError? && result.refused)
  }

  /** The text such a result shuts the client down with. */
  function ClosingText(result: Computed): string
    requires IsClosing(result)
  {
    result.text
  }

  /** `write_result`: the response for a task's result, `address` being its box if it has one. */
  function Respond(slot: nat, result: Computed, address: nat): Response {
    Response(slot,
             match result
             case Success(Okay) => ConstantOk
             case Success(Nil) => Absent
             case Success(_) => RespPointer(address)
             case InternalError(text) => ClosingError(text)
             case RedisError(refused, dropped, timedOut, execAbort, text) =>
               if refused then ClosingError(text)
               else if dropped then RequestError(Disconnect, WillReconnect(text))
               else if timedOut then RequestError(Timeout, Verbatim(text))
               else if execAbort then RequestError(ExecAbort, Verbatim(text))
               else RequestError(Unspecified, Verbatim(text)))
  }

  // -------------------------------------------------------- the caller's view

  datatype ErrorClass = PlainRequestError | ConnectionError | ExecAbortError | TimeoutError

  /** Why a client closed: an error that was reported to it, a reply to an unknown slot, a response
      it could not decode, the socket's end. */
  datatype Closing = Reported(text: string) | UnknownSlot(slot: nat) | Undecodable | SocketEnded

  datatype Settlement =
    | Returned(v: Value)
    | Raised(error: ErrorClass, notice: Notice)
    | ClosedWith(reason: Closing)

  /** Nothing settled earlier is settled differently later. */
  ghost predicate Extends(later: map<nat, Settlement>, earlier: map<nat, Settlement>) {
    forall f <- earlier :: f in later && later[f] == earlier[f]
  }

  lemma ExtendsFurther(last: map<nat, Settlement>, middle: map<nat, Settlement>, first: map<nat, Settlement>)
    requires Extends(last, middle) && Extends(middle, first)
    ensures Extends(last, first)
  {
  }

  function ClassOf(kind: ErrorType): ErrorClass {
    match kind
    case Disconnect => ConnectionError
    case ExecAbort => ExecAbortError
    case Timeout => TimeoutError
    case Unspecified => PlainRequestError
  }

  /** What the caller is owed for a result, whatever travelled in between. */
  function Owed(result: Computed): Settlement
    requires !IsClosing(result)
  {
    match result
    case Success(v) => Returned(v)
    case RedisError(_, true, _, _, text) => Raised(ConnectionError, WillReconnect(text))
    case RedisError(_, _, true, _, text) => Raised(TimeoutError, Verbatim(text))
    case RedisError(_, _, _, true, text) => Raised(ExecAbortError, Verbatim(text))
    case RedisError(_, _, _, _, text) => Raised(PlainRequestError, Verbatim(text))
  }
}
