/**
 * The checks `forward_request` applies to a posted JSON body before it plans a request.
 * The fresh id comes in as a parameter; a photo sent as base64 is stored under the
 * upload directory as `<id>.jpg`.
 */
module Forward {
  import opened Common
  import opened Json
  import opened Uuids
  import opened Requests

  /** The outcome of the handler: a rejection meant as a 400 answer, a raised exception (500), or a planned request. */
  datatype ForwardResult =
    | NoData
    | InvalidParams(rpcMethod: string)
    | UnknownMethod
    | InternalError
    | Accepted(requestMethod: RequestMethod, url: Option<string>, file: Option<string>)

  /** The status code each outcome is meant to be answered with. */
  function StatusCode(r: ForwardResult): int
  {
    match r
    case NoData => 400
    case InvalidParams(_) => 400
    case UnknownMethod => 400
    case InternalError => 500
    case Accepted(_, _, _) => 200
  }

  /**
   * What the handler hands back to the web framework: a `jsonr(...)` response, or the
   * bare `(body, status)` tuple that the falsy-body branch returns.
   */
  datatype Reply = Response(status: int) | BareTuple(status: int)

  /**
   * The status the client receives. A response is sent with its own status; a value
   * that is not a response is refused by the framework as an invalid response type,
   * which it answers with 500.
   */
  function Served(reply: Reply): int
  {
    match reply
    case Response(code) => code
    case BareTuple(_) => 500
  }

  /** The handler's return value as written: every branch is a response except the falsy-body one. */
  function ReplyAsWritten(r: ForwardResult): Reply
  {
    if r.NoData? then BareTuple(400) else Response(StatusCode(r))
  }

  /** The return value evidently intended: every answer, the falsy-body one included, wrapped by `jsonr`. */
  function ReplyChecked(r: ForwardResult): Reply
  {
    Response(StatusCode(r))
  }

  /** The stored file of a base64 photo, relative to the upload directory. */
  function UploadName(id: Uuid): string
    requires IsUuid(id)
  {
    Format(id) + ".jpg"
  }

  /** `data.get('params', [])`. */
  function Params(fields: map<string, Json>): Json
  {
    if "params" in fields then fields["params"] else JArray([])
  }

  /** The `post_photo` check: a list of exactly a string and a boolean. */
  predicate PhotoParamsValid(args: Json)
  {
    Truthy(args) && args.JArray? && |args.items| == 2 && args.items[0].JString? && args.items[1].JBool?
  }

  /** The `post_gif` check as written: a non-empty list whose first element is a string. */
  predicate GifParamsChecked(args: Json)
  {
    Truthy(args) && args.JArray? && args.items[0].JString?
  }

  /**
   * `forward_request` as written. A falsy body is rejected; a body that is not a dict
   * raises on `data.get`; `post_photo` with valid parameters plans a file upload when the
   * flag is true and a URL upload otherwise; `post_gif` plans a GIF upload, but after its
   * check `url, = args` raises when the list has more than one element.
   */
  function ValidateForward(data: Json, id: Uuid): (r: ForwardResult)
    requires IsUuid(id)
    ensures !Truthy(data) <==> r == NoData
    ensures Truthy(data) && !data.JObject? ==> r == InternalError
    ensures (Truthy(data) && data.JObject? && Get(data.fields, "method") != Some(JString("post_photo"))
             && Get(data.fields, "method") != Some(JString("post_gif"))) ==> r == UnknownMethod
    ensures r.Accepted? ==> data.JObject? && "method" in data.fields
    ensures r.Accepted? && r.requestMethod == PostPhotoFile ==> r.file == Some(UploadName(id)) && r.url.None?
    ensures r.Accepted? && r.requestMethod != PostPhotoFile ==> r.url.Some? && r.file.None?
  {
    if !Truthy(data) then NoData
    else if !data.JObject? then InternalError
    else
      var rpcMethod := Get(data.fields, "method");
      var args := Params(data.fields);
      if rpcMethod == Some(JString("post_photo")) then
        if !PhotoParamsValid(args) then InvalidParams("post_photo")
        else if args.items[1].b then Accepted(PostPhotoFile, None, Some(UploadName(id)))
        else Accepted(PostPhotoUrl, Some(args.items[0].s), None)
      else if rpcMethod == Some(JString("post_gif")) then
        if !GifParamsChecked(args) then InvalidParams("post_gif")
        else if |args.items| != 1 then InternalError
        else Accepted(PostGif, Some(args.items[0].s), None)
      else UnknownMethod
  }

  /** A `post_gif` body with two string parameters passes the check and then raises: a 500 instead of a 400. */
  lemma GifWithTwoParamsRaises(data: Json, id: Uuid)
    requires IsUuid(id)
    requires data == JObject(map["method" := JString("post_gif"), "params" := JArray([JString("a"), JString("b")])])
    ensures ValidateForward(data, id) == InternalError
    ensures StatusCode(ValidateForward(data, id)) == 500
  {
    assert Get(data.fields, "method") == Some(JString("post_gif"));
    assert Params(data.fields) == JArray([JString("a"), JString("b")]);
  }

  /** A falsy body is answered with a bare tuple, which the client receives as 500 rather than the 400 it names. */
  lemma FalsyBodyServes500(data: Json, id: Uuid)
    requires IsUuid(id)
    requires !Truthy(data)
    ensures ReplyAsWritten(ValidateForward(data, id)) == BareTuple(400)
    ensures Served(ReplyAsWritten(ValidateForward(data, id))) == 500
  {
  }

  /** The `post_gif` check the handler evidently intends: exactly one string parameter. */
  predicate GifParamsValid(args: Json)
  {
    Truthy(args) && args.JArray? && |args.items| == 1 && args.items[0].JString?
  }

  /** `forward_request` with the `post_gif` arity checked together with the other parameter checks. */
  function ValidateForwardChecked(data: Json, id: Uuid): (r: ForwardResult)
    requires IsUuid(id)
    ensures !Truthy(data) <==> r == NoData
    ensures r == InternalError <==> Truthy(data) && !data.JObject?
    ensures (Truthy(data) && data.JObject? && Get(data.fields, "method") != Some(JString("post_photo"))
             && Get(data.fields, "method") != Some(JString("post_gif"))) ==> r == UnknownMethod
    ensures r.Accepted? && r.requestMethod == PostPhotoFile ==> r.file == Some(UploadName(id)) && r.url.None?
    ensures r.Accepted? && r.requestMethod != PostPhotoFile ==> r.url.Some? && r.file.None?
  {
    if !Truthy(data) then NoData
    else if !data.JObject? then InternalError
    else
      var rpcMethod := Get(data.fields, "method");
      var args := Params(data.fields);
      if rpcMethod == Some(JString("post_photo")) then
        if !PhotoParamsValid(args) then InvalidParams("post_photo")
        else if args.items[1].b then Accepted(PostPhotoFile, None, Some(UploadName(id)))
        else Accepted(PostPhotoUrl, Some(args.items[0].s), None)
      else if rpcMethod == Some(JString("post_gif")) then
        if !GifParamsValid(args) then InvalidParams("post_gif")
        else Accepted(PostGif, Some(args.items[0].s), None)
      else UnknownMethod
  }

  /**
   * With the arity checked, a dict body never makes the handler raise, and the answer
   * agrees with the handler as written on every body the latter does not fail on.
   */
  lemma CheckedNeverRaisesOnDicts(data: Json, id: Uuid)
    requires IsUuid(id)
    ensures data.JObject? ==> !ValidateForwardChecked(data, id).InternalError?
    ensures !ValidateForward(data, id).InternalError? ==> ValidateForwardChecked(data, id) == ValidateForward(data, id)
    ensures ValidateForward(data, id).InternalError? && data.JObject? ==> ValidateForwardChecked(data, id) == InvalidParams("post_gif")
  {
  }

  /** A `post_photo` body is accepted exactly when its parameters are a string and a boolean, and the flag picks file or URL. */
  lemma PhotoAcceptedIff(data: Json, id: Uuid)
    requires IsUuid(id)
    requires data.JObject? && Get(data.fields, "method") == Some(JString("post_photo"))
    ensures var r := ValidateForwardChecked(data, id);
      && (r.Accepted? <==> PhotoParamsValid(Params(data.fields)))
      && (r.Accepted? ==> (r.requestMethod == PostPhotoFile <==> Params(data.fields).items[1] == JBool(true)))
      && (r.Accepted? && r.requestMethod == PostPhotoUrl ==> r.url == Some(Params(data.fields).items[0].s))
  {
    assert Truthy(data);
  }

  /** A `post_gif` body is accepted exactly when its parameters are one string, which becomes the URL. */
  lemma GifAcceptedIff(data: Json, id: Uuid)
    requires IsUuid(id)
    requires data.JObject? && Get(data.fields, "method") == Some(JString("post_gif"))
    ensures var r := ValidateForwardChecked(data, id);
      && (r.Accepted? <==> GifParamsValid(Params(data.fields)))
      && (r.Accepted? ==> r.requestMethod == PostGif && r.url == Some(Params(data.fields).items[0].s))
  {
    assert Truthy(data);
  }

  /**
   * With every answer wrapped as a response and the arity checked, the client receives
   * 400 exactly for a falsy body, bad parameters or an unknown method, 500 exactly for a
   * truthy body that is not a dict, and 200 exactly for a planned request.
   */
  lemma CheckedServedCodes(data: Json, id: Uuid)
    requires IsUuid(id)
    ensures var code := Served(ReplyChecked(ValidateForwardChecked(data, id)));
      && (!Truthy(data) ==> code == 400)
      && (code == 500 <==> Truthy(data) && !data.JObject?)
      && (code == 200 <==> ValidateForwardChecked(data, id).Accepted?)
      && (code == 400 <==> !ValidateForwardChecked(data, id).Accepted? && (!Truthy(data) || data.JObject?))
  {
  }
}
