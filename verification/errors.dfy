/** `ActionError`, the error every action returns, its HTTP rendering, and the warp
    rejections the handlers produce. */
module Errors {
  import Json

  datatype ActionError = InternalError | NotFound | InsertError | InvalidForm | FetchError

  /** The variant's name: the value serde writes under the tag field. */
  function VariantName(e: ActionError): string {
    match e
    case InternalError => "InternalError"
    case NotFound => "NotFound"
    case InsertError => "InsertError"
    case InvalidForm => "InvalidForm"
    case FetchError => "FetchError"
  }

  /** The status `into_response` chooses: 404 exactly for `NotFound`, 422 exactly for
      `InvalidForm`, 500 for every other error. */
  function StatusCode(e: ActionError): (code: int)
    ensures code == 404 <==> e == NotFound
    ensures code == 422 <==> e == InvalidForm
    ensures code != 404 && code != 422 ==> code == 500
  {
    match e
    case NotFound => 404
    case InvalidForm => 422
    case _ => 500
  }

  datatype Response = Response(status: int, contentType: string, body: Json.Value)

  /** `ActionError::into_response`: a JSON body `{"error": <variant>}` with the mapped
      status. */
  function IntoResponse(e: ActionError): (r: Response)
    ensures r.status == StatusCode(e) && (r.status == 404 || r.status == 422 || r.status == 500)
    ensures r.contentType == "application/json"
    ensures r.body.Object? && r.body.fields.Keys == {"error"}
    ensures Json.Get(r.body, "error") == Json.Str(VariantName(e))
  {
    Response(StatusCode(e), "application/json", Json.Object(map["error" := Json.Str(VariantName(e))]))
  }

  /** Distinct errors render distinct bodies, so a client can tell them apart even where
      the status is shared (the three 500s). */
  lemma ResponseBodyDistinguishes(e1: ActionError, e2: ActionError)
    requires IntoResponse(e1).body == IntoResponse(e2).body
    ensures e1 == e2
  {
    var b1 := IntoResponse(e1).body;
    var b2 := IntoResponse(e2).body;
    assert Json.Get(b1, "error") == Json.Str(VariantName(e1));
    assert Json.Get(b2, "error") == Json.Str(VariantName(e2));
    assert VariantName(e1) == VariantName(e2);
  }

  /** What a warp filter rejects with: `warp::reject()` (the same as
      `warp::reject::not_found()`), `warp::reject::custom(e)`, and the custom
      "not authenticated" rejection of the inbox, which has no `ActionError` variant. */
  datatype Rejection = Reject | Custom(error: ActionError) | NotAuthenticated
}
