/** The response handling of the fetch wrappers in src/lib/api.ts. The
    request itself (URL, method, headers, `fetch`) is not modelled: a wrapper
    receives the response it got, or `None` when `fetch` rejected. */
module Api {
  import opened Wrappers
  import opened JsString
  import opened ApiTypes

  /** The `detail` property of an error body. `NoDetail` is every value that
      is absent, falsy or has no positive `length` (null, false, 0, an
      object, true, a number). */
  datatype Detail = NoDetail | DetailErrors(errors: seq<ValidationError>) | DetailText(text: string)

  /** An error body, classified by the shapes handleResponse looks at. */
  datatype ErrorBody =
    | BodyText(text: string)                             // a JSON string
    | BodyObject(detail: Detail, error: Option<string>)  // a JSON object or array
    | BodyPrimitive                                      // JSON null, a number or a boolean
    | BodyMalformed                                      // not JSON: `response.json()` rejects

  /** A received response. `payload` is the body read as the caller's
      type (`None` when it is not JSON); `errorBody` is the same body as
      handleResponse reads it when the status is not ok. */
  datatype Response<T> = Response(status: int, statusText: string, payload: Option<T>, errorBody: ErrorBody)

  /** `response.ok`. */
  predicate IsOk(status: int) {
    200 <= status <= 299
  }

  /** What can be thrown: an `Error` with a message, the `TypeError` of using
      `in` on a primitive or calling `map` on a string, and the
      `SyntaxError` of `response.json()` on a body that is not JSON. */
  datatype Failure = Error(message: string) | TypeError | SyntaxError

  /** A settled promise: the returned value (`None` is `null`) or the thrown failure. */
  datatype Outcome<T> = Returned(value: Option<T>) | Threw(failure: Failure)

  const StatusPrefix := "HTTP error! status: "

  /** `HTTP error! status: ${status}`: the prefix followed by the decimal status. */
  function StatusMessage(status: int): (m: string)
    ensures StartsWith(m, StatusPrefix)
    ensures ParseInt(m[|StatusPrefix|..]) == Some(status)
  {
    var m := StatusPrefix + IntToString(status);
    assert m[|StatusPrefix|..] == IntToString(status);
    ParseIntOfIntToString(status);
    m
  }

  function LocPartText(p: LocPart): string {
    match p
    case LocKey(k) => k
    case LocIndex(i) => IntToString(i)
  }

  /** `${d.loc.join('.')}: ${d.msg}` */
  function DetailLine(e: ValidationError): string {
    Join(seq(|e.loc|, i requires 0 <= i < |e.loc| => LocPartText(e.loc[i])), ".") + ": " + e.msg
  }

  function DetailLines(errors: seq<ValidationError>): seq<string> {
    seq(|errors|, i requires 0 <= i < |errors| => DetailLine(errors[i]))
  }

  /** The lines of all validation errors, in order, joined by "; ". */
  function DetailMessage(errors: seq<ValidationError>): string {
    Join(DetailLines(errors), "; ")
  }

  /** The message lists one line per validation error: splitting it at "; "
      gives the lines back, in order, when no line contains a ';'. */
  lemma {:induction false} DetailMessageLines(errors: seq<ValidationError>)
    requires |errors| > 0
    requires forall i :: 0 <= i < |errors| ==> Avoids(DetailLine(errors[i]), "; ")
    ensures Split(DetailMessage(errors), "; ") == DetailLines(errors)
  {
    SplitJoin(DetailLines(errors), "; ");
  }

  /** `errorData.detail && errorData.detail.length > 0`. */
  predicate HasDetail(d: Detail) {
    match d
    case NoDetail => false
    case DetailErrors(errors) => |errors| > 0
    case DetailText(text) => text != ""
  }

  /** The failure thrown for a response that is not ok. The checks run in
      this order: a string body is the message; a non-empty `detail` gives
      the joined validation lines; an `error` property gives its value;
      otherwise the status message. A body that is not JSON is read as
      `{error: statusText}`, or the status message when statusText is empty. */
  function ErrorFailure(status: int, statusText: string, body: ErrorBody): (f: Failure)
    ensures body.BodyText? ==> f == Error(body.text)
    ensures body.BodyObject? && body.detail.DetailErrors? && |body.detail.errors| > 0 ==>
              f == Error(DetailMessage(body.detail.errors))
    ensures body.BodyObject? && !HasDetail(body.detail) && body.error.Some? ==> f == Error(body.error.value)
    ensures body.BodyObject? && !HasDetail(body.detail) && body.error.None? ==> f == Error(StatusMessage(status))
    ensures body.BodyMalformed? ==> f == Error(if statusText != "" then statusText else StatusMessage(status))
    ensures f == TypeError <==> body.BodyPrimitive? || (body.BodyObject? && body.detail.DetailText? && HasDetail(body.detail))
    ensures f != SyntaxError
  {
    match body
    case BodyMalformed =>
      // errorData = { error: response.statusText || statusMessage }
      Error(if statusText != "" then statusText else StatusMessage(status))
    case BodyText(text) => Error(text)
    case BodyPrimitive => TypeError
    case BodyObject(detail, error) =>
      if HasDetail(detail) then
        match detail
        case DetailErrors(errors) => Error(DetailMessage(errors))
        case DetailText(_) => TypeError
      else if error.Some? then Error(error.value)
      else Error(StatusMessage(status))
  }

  /** `handleResponse`. */
  function HandleResponse<T>(r: Response<T>): (out: Outcome<T>)
  {
    if !IsOk(r.status) then Threw(ErrorFailure(r.status, r.statusText, r.errorBody))
    else if r.status == 204 then Returned(None)
    else if r.payload.Some? then Returned(r.payload)
    else Threw(SyntaxError)
  }

  /** A response that is not ok always throws; an ok one returns `null` for
      204 and the parsed body otherwise, or throws when the body is not JSON. */
  lemma {:induction false} HandleResponseRules<T>(r: Response<T>)
    ensures !IsOk(r.status) <==> HandleResponse(r).Threw? && HandleResponse(r).failure != SyntaxError
    ensures IsOk(r.status) && r.status == 204 ==> HandleResponse(r) == Returned(None)
    ensures IsOk(r.status) && r.status != 204 && r.payload.Some? ==> HandleResponse(r) == Returned(r.payload)
    ensures IsOk(r.status) && r.status != 204 && r.payload.None? ==> HandleResponse(r) == Threw(SyntaxError)
  {
  }

  /** `getFormData` as written: `return handleResponse(response)` inside the
      `try` is not awaited, so only a rejected `fetch` reaches the `catch`;
      a rejection of handleResponse escapes to the caller. */
  function GetFormDataAsWritten(fetched: Option<Response<FormDataResponse>>): (out: Outcome<FormDataResponse>)
    ensures out.Threw? <==> fetched.Some? && fetched.value.status != 404 && HandleResponse(fetched.value).Threw?
    ensures out.Returned? && out.value.Some? ==>
              fetched.Some? && IsOk(fetched.value.status) && out.value == fetched.value.payload
  {
    match fetched
    case None => Returned(None)
    case Some(r) => if r.status == 404 then Returned(None) else HandleResponse(r)
  }

  /** Any error status other than 404 makes the as-written getFormData reject
      instead of returning null. */
  lemma {:induction false} GetFormDataAsWrittenRejects(r: Response<FormDataResponse>)
    requires !IsOk(r.status) && r.status != 404
    ensures GetFormDataAsWritten(Some(r)).Threw?
  {
  }

  /** The concrete case: a 500 with an empty JSON object as body. */
  lemma {:induction false} GetFormDataAsWrittenRejectsServerError()
    ensures GetFormDataAsWritten(Some(Response(500, "Internal Server Error", None, BodyObject(NoDetail, None))))
            == Threw(Error(StatusMessage(500)))
  {
  }

  /** `getFormData` as its `catch` intends: null when `fetch` rejects, on
      404, and on any failure of handleResponse; the handled value otherwise. */
  function GetFormData(fetched: Option<Response<FormDataResponse>>): (data: Option<FormDataResponse>)
    ensures fetched.None? ==> data.None?
    ensures fetched.Some? && fetched.value.status == 404 ==> data.None?
    ensures fetched.Some? && HandleResponse(fetched.value).Threw? ==> data.None?
    ensures fetched.Some? && fetched.value.status != 404 && HandleResponse(fetched.value).Returned? ==>
              data == HandleResponse(fetched.value).value
    ensures data.Some? ==> fetched.Some? && IsOk(fetched.value.status) && data == fetched.value.payload
  {
    match GetFormDataAsWritten(fetched)
    case Returned(v) => v
    case Threw(_) => None
  }

  /** Wherever the as-written getFormData settles with a value, the corrected
      one returns the same value. */
  lemma {:induction false} GetFormDataAgrees(fetched: Option<Response<FormDataResponse>>)
    ensures GetFormDataAsWritten(fetched).Returned? ==> GetFormData(fetched) == GetFormDataAsWritten(fetched).value
    ensures GetFormDataAsWritten(fetched).Threw? ==> GetFormData(fetched).None?
  {
  }

  /** The object the chat panel hands to postChatMessage: a
      `ChatMessageCreate` that also carries the panel's `tempId`. */
  datatype TaggedMessage = TaggedMessage(message: string, isUserMessage: int, tempId: Option<string>)

  /** The body postChatMessage sends: `message` and `is_user_message` only. */
  function PostChatMessagePayload(m: TaggedMessage): (p: ChatMessageCreate)
    ensures p.message == m.message && p.isUserMessage == m.isUserMessage
  {
    ChatMessageCreate(m.message, m.isUserMessage)
  }

  /** The extra `tempId` never reaches the backend. */
  lemma {:induction false} PayloadDropsTempId(m: TaggedMessage, other: Option<string>)
    ensures PostChatMessagePayload(m) == PostChatMessagePayload(m.(tempId := other))
  {
  }
}
