/**
 * `SharedViewModel`: the error-message field and the safe-call wrapper that
 * turns the outcome of a remote call into a Success/Error value.
 */
module ApiResponseHandler {
  import opened Common
  import opened Text

  /** What a remote call hands back to the screens: the payload, or a message with an optional API error code. */
  datatype ApiResponse<T> = Success(data: T) | Error(errorMessage: string, errorCode: Option<int>)

  /** The error body of an unsuccessful response as the JSON parser reads it. */
  datatype ErrorBody =
    | Status(errorCode: int, errorMessage: string)   // the `status` record of the API's error response
    | Unreadable(message: Option<string>)             // the parser threw, with this message

  /** An HTTP response: its success flag, its body (absent when empty) and its error body. */
  datatype Response<T> = Response(isSuccessful: bool, body: Option<T>, errorBody: ErrorBody)

  /** Used when the caught exception carries no message. */
  const NoMessageFallback: string := "Internet error occurred"

  /** The message of a response whose error body was read: `Error <code>: <message>`. */
  function StatusMessage(code: int, message: string): (m: string)
    ensures "Error " <= m && |m| == 8 + |IntText(code)| + |message|
    ensures m[6..6 + |IntText(code)|] == IntText(code)
    ensures m[6 + |IntText(code)|..] == ": " + message
  {
    var m := "Error " + IntText(code) + ": " + message;
    assert m[6..6 + |IntText(code)|] == IntText(code);
    assert m[6 + |IntText(code)|..] == ": " + message;
    m
  }

  class SharedViewModel {
    var errorMessage: Option<string>

    constructor ()
      ensures errorMessage == None
    {
      errorMessage := None;
    }

    /** `triggerError(message)`. */
    method TriggerError(message: string)
      modifies this
      ensures errorMessage == Some(message)
    {
      errorMessage := Some(message);
    }

    /** `clearError()`. */
    method ClearError()
      modifies this
      ensures errorMessage == None
    {
      errorMessage := None;
    }

    /**
     * `safeApiCall(call)`: never throws and reads no state. A successful
     * response with a body is a Success; an unsuccessful one whose error body
     * reads is an Error with the API's code; every exception (thrown by the
     * call, by `!!` on an empty body, or by the parser) is an Error without a
     * code, carrying the exception's message or the fallback text.
     */
    function SafeApiCall<T>(call: Call<Response<T>>): (r: ApiResponse<T>)
      ensures r.Success? <==> call.Returned? && call.value.isSuccessful && call.value.body.Some?
      ensures r.Success? ==> r.data == call.value.body.value
      ensures (r.Error? && r.errorCode.Some?) <==>
        call.Returned? && !call.value.isSuccessful && call.value.errorBody.Status?
      ensures r.Error? && r.errorCode.Some? ==>
        r.errorCode.value == call.value.errorBody.errorCode &&
        r.errorMessage == StatusMessage(call.value.errorBody.errorCode, call.value.errorBody.errorMessage)
      ensures call.Threw? ==> r == Error(call.message.GetOr(NoMessageFallback), None)
      ensures call.Returned? && call.value.isSuccessful && call.value.body.None? ==>
        r == Error(NoMessageFallback, None)
      ensures call.Returned? && !call.value.isSuccessful && call.value.errorBody.Unreadable? ==>
        r == Error(call.value.errorBody.message.GetOr(NoMessageFallback), None)
    {
      match call
      case Threw(m) => Error(m.GetOr(NoMessageFallback), None)
      case Returned(response) =>
        if response.isSuccessful then
          match response.body
          case Some(b) => Success(b)
          case None => Error(NoMessageFallback, None)   // `!!` throws a NullPointerException without message
        else
          match response.errorBody
          case Status(code, message) => Error(StatusMessage(code, message), Some(code))
          case Unreadable(m) => Error(m.GetOr(NoMessageFallback), None)
    }
  }
}
