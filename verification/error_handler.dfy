/** `backend/src/middlewares/error-handler.ts`: the last handler, turning an error into a response. */
module ErrorHandler {
  import opened Wrappers
  import opened Errors

  /**
   * What `next(err)` delivered: an error object with its `statusCode` property
   * (None when absent or null) and its `message`, or None for a null/undefined error.
   */
  datatype Thrown = Thrown(statusCode: Option<int>, message: string)

  /** The response: its status and the `message` field of the JSON body. */
  datatype Response = Response(status: int, message: string)

  /** The fixed text answered for every 500 ("an error occurred on the server"). */
  const GenericMessage: string := "На сервере произошла ошибка"

  /** `err.statusCode || 500`: an absent, null or zero status code falls back to 500. */
  function StatusOf(err: Option<Thrown>): (r: int)
    ensures err.Some? && err.value.statusCode.Some? && err.value.statusCode.value != 0 ==>
              r == err.value.statusCode.value
    ensures err.None? || err.value.statusCode.None? || err.value.statusCode == Some(0) ==> r == 500
  {
    match err
    case None => 500
    case Some(e) =>
      match e.statusCode
      case Some(code) => if code != 0 then code else 500
      case None => 500
  }

  /** The error handler: a 500 hides the error's text, any other status shows it unchanged. */
  function HandleError(err: Option<Thrown>): (r: Response)
    ensures r.status == StatusOf(err)
    ensures r.status == 500 ==> r.message == GenericMessage
    ensures r.status != 500 ==> err.Some? && r.message == err.value.message
  {
    var status := StatusOf(err);
    Response(status, if status == 500 then GenericMessage else err.value.message)
  }

  /** The error object an application error is thrown as. */
  function ToThrown(e: ErrorKind, message: string): Thrown
  {
    Thrown(StatusCode(e), message)
  }

  /**
   * Every application error reaches the client with its own status and message; an
   * unmapped one becomes a 500 whose text is hidden.
   */
  lemma ErrorKindResponse(e: ErrorKind, message: string)
    ensures e.Unmapped? ==> HandleError(Some(ToThrown(e, message))) == Response(500, GenericMessage)
    ensures !e.Unmapped? ==> HandleError(Some(ToThrown(e, message))) == Response(StatusCode(e).value, message)
  {
  }

  /** An error whose own status code is 500 is answered with the generic text all the same. */
  lemma ExplicitServerErrorHidesMessage(message: string)
    ensures HandleError(Some(Thrown(Some(500), message))).message == GenericMessage
  {
  }
}
