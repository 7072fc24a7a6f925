/**
 * The upload server's planned requests: their method and status enumerations, the
 * JSON form written by `to_json()` (without the data URI) and read by `from_json`,
 * and how a JSON-RPC response decides a request's status.
 */
module Requests {
  import opened Common
  import opened Json
  import opened Uuids

  datatype RequestMethod = PostGif | PostPhotoUrl | PostPhotoFile

  datatype RequestStatus = Queued | Processing | Completed | Duplicate | Failed | Removed

  /** The enumeration values of `RequestMethod`. */
  function MethodValue(m: RequestMethod): string
  {
    match m
    case PostGif => "gif"
    case PostPhotoUrl => "photo.url"
    case PostPhotoFile => "photo.file"
  }

  /** `RequestMethod(value)`: the member whose value equals `value`, if any. */
  function MethodFromValue(value: Json): (r: Option<RequestMethod>)
    ensures r.Some? ==> value == JString(MethodValue(r.value))
  {
    if value == JString("gif") then Some(PostGif)
    else if value == JString("photo.url") then Some(PostPhotoUrl)
    else if value == JString("photo.file") then Some(PostPhotoFile)
    else None
  }

  /** Every method's value reads back as that method. */
  lemma MethodValueRoundTrip(m: RequestMethod)
    ensures MethodFromValue(JString(MethodValue(m))) == Some(m)
  {
  }

  /** The enumeration values of `RequestStatus`. */
  function StatusValue(s: RequestStatus): string
  {
    match s
    case Queued => "queued"
    case Processing => "processing"
    case Completed => "completed"
    case Duplicate => "duplicate"
    case Failed => "failed"
    case Removed => "removed"
  }

  /** The fields of a `PlannedRequest`. */
  datatype RequestFields = RequestFields(
    id: Uuid,
    requestMethod: RequestMethod,
    endpoint: string,
    url: Option<string>,
    file: Option<string>,
    retries: int,
    status: RequestStatus)

  /** `None` becomes JSON `null`. */
  function OptionalString(o: Option<string>): Json
  {
    match o
    case None => JNull
    case Some(s) => JString(s)
  }

  /** `to_json()` with `with_data_uri` left false: the file is always written as `null`. */
  function Encode(f: RequestFields): (j: Json)
    requires IsUuid(f.id)
    ensures j.JObject? && j.fields.Keys == {"id", "method", "endpoint", "url", "file", "retries", "status"}
    ensures j.fields["file"] == JNull
  {
    JObject(map[
      "id" := JString(Format(f.id)),
      "method" := JString(MethodValue(f.requestMethod)),
      "endpoint" := JString(f.endpoint),
      "url" := OptionalString(f.url),
      "file" := JNull,
      "retries" := JNumber(f.retries),
      "status" := JString(StatusValue(f.status))])
  }

  datatype DecodeError = NotAnObject | MissingKey(key: string) | BadId | BadMethod | IllTyped(key: string)

  /** `data.get(key)` for an optional string field: missing or `null` is `None`. */
  function OptionalField(fields: map<string, Json>, key: string): (r: Result<Option<string>, DecodeError>)
    ensures r == Ok(None) <==> key !in fields || fields[key] == JNull
    ensures r.Ok? && r.value.Some? <==> key in fields && fields[key].JString?
    ensures r.Ok? && r.value.Some? ==> fields[key] == JString(r.value.value)
    ensures r.Err? ==> r == Err(IllTyped(key))
  {
    match Get(fields, key)
    case None => Ok(None)
    case Some(JNull) => Ok(None)
    case Some(JString(s)) => Ok(Some(s))
    case Some(_) => Err(IllTyped(key))
  }

  /**
   * `from_json(data)`: `id`, `method` and `endpoint` are required, the id must parse and
   * the method must be one of the enumeration values; `url` and `file` may be absent and
   * `retries` defaults to 0. The status in the data is ignored: the request is queued.
   */
  function Decode(data: Json): (r: Result<RequestFields, DecodeError>)
    ensures r.Ok? ==> data.JObject? && IsUuid(r.value.id) && r.value.status == Queued
    ensures r.Ok? ==> "id" in data.fields && data.fields["id"].JString? && Parse(data.fields["id"].s) == Some(r.value.id)
    ensures r.Ok? ==> "method" in data.fields && data.fields["method"] == JString(MethodValue(r.value.requestMethod))
    ensures r.Ok? ==> "endpoint" in data.fields && data.fields["endpoint"] == JString(r.value.endpoint)
    ensures r.Ok? ==> OptionalField(data.fields, "url") == Ok(r.value.url)
    ensures r.Ok? ==> OptionalField(data.fields, "file") == Ok(r.value.file)
    ensures r.Ok? ==> "retries" !in data.fields ==> r.value.retries == 0
    ensures r.Ok? ==> "retries" in data.fields ==> data.fields["retries"] == JNumber(r.value.retries)
    ensures !data.JObject? ==> r == Err(NotAnObject)
    ensures data.JObject? && "id" !in data.fields ==> r == Err(MissingKey("id"))
  {
    if !data.JObject? then Err(NotAnObject)
    else
      var fields := data.fields;
      if "id" !in fields then Err(MissingKey("id"))
      else if !fields["id"].JString? || Parse(fields["id"].s).None? then Err(BadId)
      else if "method" !in fields then Err(MissingKey("method"))
      else if MethodFromValue(fields["method"]).None? then Err(BadMethod)
      else if "endpoint" !in fields then Err(MissingKey("endpoint"))
      else if !fields["endpoint"].JString? then Err(IllTyped("endpoint"))
      else match (OptionalField(fields, "url"), OptionalField(fields, "file"))
        case (Err(e), _) => Err(e)
        case (_, Err(e)) => Err(e)
        case (Ok(url), Ok(file)) =>
          var retries := Get(fields, "retries");
          if retries.Some? && !retries.value.JNumber? then Err(IllTyped("retries"))
          else Ok(RequestFields(
            Parse(fields["id"].s).value,
            MethodFromValue(fields["method"]).value,
            fields["endpoint"].s,
            url,
            file,
            if retries.Some? then retries.value.n else 0,
            Queued))
  }

  /**
   * Every well-typed dict decodes: an id that parses, a listed method, a string
   * endpoint, `url` and `file` absent, `null` or strings, and `retries` absent or a number.
   */
  lemma DecodeWellTyped(data: Json)
    requires data.JObject?
    requires "id" in data.fields && data.fields["id"].JString? && Parse(data.fields["id"].s).Some?
    requires "method" in data.fields && MethodFromValue(data.fields["method"]).Some?
    requires "endpoint" in data.fields && data.fields["endpoint"].JString?
    requires "url" !in data.fields || data.fields["url"].JNull? || data.fields["url"].JString?
    requires "file" !in data.fields || data.fields["file"].JNull? || data.fields["file"].JString?
    requires "retries" !in data.fields || data.fields["retries"].JNumber?
    ensures Decode(data).Ok?
  {
    assert OptionalField(data.fields, "url").Ok?;
    assert OptionalField(data.fields, "file").Ok?;
  }

  /**
   * `from_json(to_json())` keeps the id, method, endpoint, url and retries, but the file
   * comes back as `None` and the status as queued.
   */
  lemma RoundTrip(f: RequestFields)
    requires IsUuid(f.id)
    ensures Decode(Encode(f)) == Ok(f.(file := None, status := Queued))
  {
    var fields := Encode(f).fields;
    ParseFormat(f.id);
    MethodValueRoundTrip(f.requestMethod);
    assert fields["url"] == OptionalString(f.url);
    assert OptionalField(fields, "url") == Ok(f.url);
    assert OptionalField(fields, "file") == Ok(None);
  }

  /**
   * `match response['result']`: `case True` is an identity test, so only the JSON value
   * `true` completes a request; the string `duplicate` marks it a duplicate; any other
   * value, the number 1 included, fails it.
   */
  function StatusFor(result: Json): (s: RequestStatus)
    ensures s == Completed <==> result == JBool(true)
    ensures s == Duplicate <==> result == JString("duplicate")
    ensures s == Failed <==> result != JBool(true) && result != JString("duplicate")
  {
    match result
    case JBool(true) => Completed
    case JString(text) => if text == "duplicate" then Duplicate else Failed
    case _ => Failed
  }

  /**
   * `response['result']` for a response that may be missing (the request or `r.json()`
   * raised): only a dict with that key yields a value; anything else raises.
   */
  function ResultOf(response: Option<Json>): (r: Option<Json>)
    ensures r.Some? <==> response.Some? && response.value.JObject? && "result" in response.value.fields
    ensures r.Some? ==> r.value == response.value.fields["result"]
  {
    match response
    case Some(JObject(fields)) => Get(fields, "result")
    case _ => None
  }
}
