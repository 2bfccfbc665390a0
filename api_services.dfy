/**
 * The response envelope shared by the API services
 * (`server/api-services/index.ts`): every answer is an object with a
 * `success` flag and optional `data`, `message` and `error` fields, built by
 * one helper for failures and one for successes.
 */
module ApiServices {
  import opened Wrappers

  /** `ApiResponse<T>`: a field the object literal does not set is `None`. */
  datatype ApiResponse<T> = ApiResponse(success: bool, data: Option<T>, message: Option<string>, error: Option<string>)

  /** What reached the error handler: an `Error` instance with its message, or any other thrown value. */
  datatype Thrown = ErrorInstance(message: string) | OtherValue

  /** The fixed text used when the thrown value is not an `Error` ("an unexpected error occurred"). */
  const DefaultErrorMessage: string := "حدث خطأ غير متوقع"

  /** `handleApiError`: a failed envelope carrying only the error text. */
  function HandleApiError<T>(thrown: Thrown): (r: ApiResponse<T>)
    ensures !r.success
    ensures r.data.None? && r.message.None?
    ensures thrown.ErrorInstance? ==> r.error == Some(thrown.message)
    ensures thrown.OtherValue? ==> r.error == Some(DefaultErrorMessage)
  {
    var message := if thrown.ErrorInstance? then thrown.message else DefaultErrorMessage;
    ApiResponse(false, None, None, Some(message))
  }

  /** `handleApiSuccess`: a successful envelope passing `data` and `message` through. */
  function HandleApiSuccess<T>(data: T, message: Option<string>): (r: ApiResponse<T>)
    ensures r.success && r.error.None?
    ensures r.data == Some(data) && r.message == message
  {
    ApiResponse(true, Some(data), message, None)
  }

  /** What a caller gets out of an envelope: the data of a success, the error text of a failure. */
  datatype Reading<T> = Data(value: Option<T>) | Failed(text: string)

  function Read<T>(r: ApiResponse<T>): Reading<T> {
    if r.success then Data(r.data)
    else Failed(if r.error.Some? then r.error.value else "")
  }

  /** The error text is the `Error`'s own message, and the default text for anything else. */
  lemma ErrorText<T>(thrown: Thrown)
    ensures Read(HandleApiError<T>(thrown))
      == Failed(if thrown.ErrorInstance? then thrown.message else DefaultErrorMessage)
  {
  }

  /** A success envelope gives back exactly the data and message it was built from. */
  lemma SuccessRoundTrip<T>(data: T, message: Option<string>)
    ensures Read(HandleApiSuccess(data, message)) == Data(Some(data))
    ensures HandleApiSuccess(data, message).message == message
  {
  }

  /** The two helpers never build the same envelope. */
  lemma EnvelopesApart<T>(data: T, message: Option<string>, thrown: Thrown)
    ensures HandleApiSuccess(data, message) != HandleApiError<T>(thrown)
  {
  }
}
