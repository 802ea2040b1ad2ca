/** The payload builders of utils/response.py: a success payload and an error
    payload, each a dictionary whose optional keys depend on the arguments. */
module Response {
  import opened Wrappers

  const HTTP_200_OK := 200
  const HTTP_400_BAD_REQUEST := 400

  /** A payload value: the `success` flag, a message, or the caller's data or error detail. */
  datatype Field<+D> = Flag(b: bool) | Text(s: string) | Item(d: D)

  datatype ApiResponse<D> = ApiResponse(payload: map<string, Field<D>>, status: int)

  /** `success_response(data, message, status_code)`; a missing `message` is
      `None`, which Python treats as false like the empty string. */
  function SuccessResponse<D>(data: Option<D> := None, message: Option<string> := None,
                              statusCode: int := HTTP_200_OK): (r: ApiResponse<D>)
    ensures "success" in r.payload && r.payload["success"] == Flag(true)
    ensures "data" in r.payload <==> data.Some?
    ensures data.Some? ==> r.payload["data"] == Item(data.value)
    ensures "message" in r.payload <==> message.Some? && message.value != ""
    ensures "message" in r.payload ==> r.payload["message"] == Text(message.value)
    ensures r.payload.Keys <= {"success", "data", "message"}
    ensures r.status == statusCode
  {
    var payload := map["success" := Flag(true)];
    var payload := if data.Some? then payload["data" := Item(data.value)] else payload;
    var payload := if message.Some? && message.value != "" then payload["message" := Text(message.value)] else payload;
    ApiResponse(payload, statusCode)
  }

  /** `error_response(message, errors, status_code)` */
  function ErrorResponse<E>(message: string, errors: Option<E> := None,
                            statusCode: int := HTTP_400_BAD_REQUEST): (r: ApiResponse<E>)
    ensures "success" in r.payload && r.payload["success"] == Flag(false)
    ensures "message" in r.payload && r.payload["message"] == Text(message)
    ensures "errors" in r.payload <==> errors.Some?
    ensures errors.Some? ==> r.payload["errors"] == Item(errors.value)
    ensures r.payload.Keys <= {"success", "message", "errors"}
    ensures r.status == statusCode
  {
    var payload := map["success" := Flag(false), "message" := Text(message)];
    var payload := if errors.Some? then payload["errors" := Item(errors.value)] else payload;
    ApiResponse(payload, statusCode)
  }

  /** The two payloads can never be confused: their `success` flags differ. */
  lemma SuccessAndErrorDiffer<D>(data: Option<D>, message: Option<string>, errorMessage: string,
                                 errors: Option<D>, s1: int, s2: int)
    ensures SuccessResponse(data, message, s1).payload["success"]
      != ErrorResponse(errorMessage, errors, s2).payload["success"]
  {
  }

  /** Called with defaults only, the success payload is `{"success": True}` with
      status 200 and the error payload carries its message with status 400; data
      that Python treats as false (an empty list) is still included. */
  lemma Defaults<D>(message: string)
    ensures SuccessResponse<D>().payload == map["success" := Flag(true)]
    ensures SuccessResponse<D>().status == 200
    ensures ErrorResponse<D>(message).payload == map["success" := Flag(false), "message" := Text(message)]
    ensures ErrorResponse<D>(message).status == 400
    ensures "data" in SuccessResponse<seq<int>>(Some([])).payload
    ensures "message" !in SuccessResponse<D>(None, Some("")).payload
  {
  }
}
