/**
 * The upload server's task bookkeeping: `PlannedRequest` objects whose status and retry
 * count change as they are handled, and the `AppQueue` holding the pending deque and
 * the list of processed requests.
 */
module TaskQueue {
  import opened Common
  import opened Seqs
  import opened Json
  import opened Uuids
  import opened Requests
  import opened Forward

  /** How many processed requests `cleanup_old` keeps. */
  const ProcessedLimit: nat := 21

  class PlannedRequest {
    const id: Uuid
    const requestMethod: RequestMethod
    const endpoint: string
    const url: Option<string>
    const file: Option<string>
    var retries: int
    var status: RequestStatus

    function Fields(): RequestFields
      reads this
    {
      RequestFields(id, requestMethod, endpoint, url, file, retries, status)
    }

    constructor(fields: RequestFields)
      requires IsUuid(fields.id)
      ensures Fields() == fields
    {
      id := fields.id;
      requestMethod := fields.requestMethod;
      endpoint := fields.endpoint;
      url := fields.url;
      file := fields.file;
      retries := fields.retries;
      status := fields.status;
    }

    /** `to_json()`. */
    function ToJson(): (j: Json)
      requires IsUuid(id)
      reads this
      ensures Decode(j) == Ok(Fields().(file := None, status := Queued))
    {
      RoundTrip(Fields());
      Encode(Fields())
    }

    /**
     * `handle()` once the JSON-RPC call has been answered with `response` (`None` when the
     * call or `r.json()` raised). The status becomes processing; when `response['result']`
     * can be read, the status follows it and the request goes to the front of the
     * processed list; otherwise the retry count goes up and the request is put back on the
     * pending queue, still marked as processing.
     */
    method Handle(queue: AppQueue, response: Option<Json>)
      modifies this, queue
      ensures var result := ResultOf(response);
        && (result.Some? ==>
              status == StatusFor(result.value) && retries == old(retries)
              && queue.processed == [this] + old(queue.processed) && queue.pending == old(queue.pending))
        && (result.None? ==>
              status == Processing && retries == old(retries) + 1
              && queue.pending == old(queue.pending) + [this] && queue.processed == old(queue.processed))
    {
      status := Processing;
      var result := ResultOf(response);
      if result.Some? {
        status := StatusFor(result.value);
        queue.processed := [this] + queue.processed;
      } else {
        retries := retries + 1;
        queue.Put(this);
      }
    }
  }

  /** `PlannedRequest.from_json(data)`: a new request, or the error `from_json` raises. */
  method FromJson(data: Json) returns (r: Result<PlannedRequest, DecodeError>)
    ensures r.Err? <==> Decode(data).Err?
    ensures r.Err? ==> r.error == Decode(data).error
    ensures r.Ok? ==> fresh(r.value) && r.value.Fields() == Decode(data).value
  {
    var decoded := Decode(data);
    if decoded.Err? {
      return Err(decoded.error);
    }
    var request := new PlannedRequest(decoded.value);
    return Ok(request);
  }

  /** The index of the first request in `s` carrying `id`. */
  function FirstWithId(s: seq<PlannedRequest>, id: Uuid): (r: Option<nat>)
    ensures r.None? <==> forall i :: 0 <= i < |s| ==> s[i].id != id
    ensures r.Some? ==> r.value < |s| && s[r.value].id == id
    ensures r.Some? ==> forall j :: 0 <= j < r.value ==> s[j].id != id
  {
    if s == [] then None
    else if s[0].id == id then Some(0)
    else match FirstWithId(s[1..], id)
      case None => None
      case Some(i) => Some(i + 1)
  }

  /** A search that has passed `i` entries without the id and finds it at `i` stops there. */
  lemma FirstWithIdAt(s: seq<PlannedRequest>, id: Uuid, i: nat)
    requires i < |s| && s[i].id == id
    requires forall j :: 0 <= j < i ==> s[j].id != id
    ensures FirstWithId(s, id) == Some(i)
  {
  }

  /** `processed[:21]`. */
  function KeepNewest(s: seq<PlannedRequest>): (r: seq<PlannedRequest>)
    ensures |r| == if |s| <= ProcessedLimit then |s| else ProcessedLimit
    ensures r == s[..|r|]
  {
    if |s| <= ProcessedLimit then s else s[..ProcessedLimit]
  }

  /** Truncating twice is truncating once. */
  lemma KeepNewestIdempotent(s: seq<PlannedRequest>)
    ensures KeepNewest(KeepNewest(s)) == KeepNewest(s)
  {
  }

  /** The statuses `clear_tasks` keeps. */
  predicate Finished(t: PlannedRequest)
    reads t
  {
    t.status == Completed || t.status == Duplicate
  }

  /** `[task for task in processed if task.status in (COMPLETED, DUPLICATE)]`. */
  function KeptTasks(s: seq<PlannedRequest>): (r: seq<PlannedRequest>)
    reads s
    ensures |r| <= |s|
    ensures forall i :: 0 <= i < |r| ==> Finished(r[i])
  {
    if s == [] then [] else (if Finished(s[0]) then [s[0]] else []) + KeptTasks(s[1..])
  }

  /** Filtering a list extended by one request filters that request on its own. */
  lemma {:induction false} KeptTasksSnoc(s: seq<PlannedRequest>, t: PlannedRequest)
    ensures KeptTasks(s + [t]) == KeptTasks(s) + (if Finished(t) then [t] else [])
  {
    if s == [] {
      assert s + [t] == [t];
    } else {
      assert (s + [t])[1..] == s[1..] + [t];
      KeptTasksSnoc(s[1..], t);
    }
  }

  /** A request survives `clear_tasks` exactly when it was processed and is completed or a duplicate. */
  lemma {:induction false} KeptTasksMembership(s: seq<PlannedRequest>, t: PlannedRequest)
    ensures t in KeptTasks(s) <==> t in s && Finished(t)
  {
    if s != [] {
      KeptTasksMembership(s[1..], t);
      assert s == [s[0]] + s[1..];
    }
  }

  /** The survivors keep their relative order. */
  lemma {:induction false} KeptTasksInOrder(s: seq<PlannedRequest>)
    ensures IsSubsequence(KeptTasks(s), s)
  {
    if s != [] {
      KeptTasksInOrder(s[1..]);
      var rest := KeptTasks(s[1..]);
      if Finished(s[0]) {
        assert KeptTasks(s) == [s[0]] + rest;
        assert ([s[0]] + rest)[1..] == rest;
      } else {
        assert KeptTasks(s) == rest;
      }
    }
  }

  /** Clearing twice is clearing once. */
  lemma {:induction false} KeptTasksIdempotent(s: seq<PlannedRequest>)
    ensures KeptTasks(KeptTasks(s)) == KeptTasks(s)
  {
    if s != [] {
      KeptTasksIdempotent(s[1..]);
      var rest := KeptTasks(s[1..]);
      if Finished(s[0]) {
        assert KeptTasks(s) == [s[0]] + rest;
        assert ([s[0]] + rest)[0] == s[0];
        assert ([s[0]] + rest)[1..] == rest;
        assert KeptTasks([s[0]] + rest) == [s[0]] + KeptTasks(rest);
      } else {
        assert KeptTasks(s) == rest;
      }
    }
  }

  /**
   * `handle()` with a readable result leaves the request at the front of the processed
   * list with the status `StatusFor` gives; `clear_tasks` then keeps it exactly when the
   * answer was `true` or `"duplicate"`.
   */
  lemma HandledSurvivesClear(t: PlannedRequest, processed: seq<PlannedRequest>, result: Json)
    requires t.status == StatusFor(result)
    ensures t in KeptTasks([t] + processed) <==> result == JBool(true) || result == JString("duplicate")
  {
    KeptTasksMembership([t] + processed, t);
  }

  /** The same, run through `Handle` and `ClearTasks` on a queue. */
  method HandleThenClear(queue: AppQueue, t: PlannedRequest, result: Json)
    modifies queue, t
    ensures t in queue.processed <==> result == JBool(true) || result == JString("duplicate")
  {
    t.Handle(queue, Some(JObject(map["result" := result])));
    HandledSurvivesClear(t, old(queue.processed), result);
    queue.ClearTasks();
  }

  /** What `remove_by_id` does to the two lists, and the request it returns. */
  datatype Outcome = Outcome(removed: Option<PlannedRequest>, pending: seq<PlannedRequest>, processed: seq<PlannedRequest>)

  /**
   * `remove_by_id` once the id has parsed: the first pending request with the id is
   * removed unless it is being processed, in which case nothing is; with no pending
   * match, the first processed request with the id is removed.
   */
  function Removal(pending: seq<PlannedRequest>, processed: seq<PlannedRequest>, id: Uuid): (r: Outcome)
    reads pending
    ensures r.removed.None? ==> r.pending == pending && r.processed == processed
    ensures r.removed.Some? ==> r.removed.value.id == id
    ensures r.removed.Some? ==>
      multiset(r.pending) + multiset(r.processed) + multiset{r.removed.value} == multiset(pending) + multiset(processed)
  {
    match FirstWithId(pending, id)
    case Some(i) =>
      if pending[i].status == Processing then Outcome(None, pending, processed)
      else
        RemoveAtInverse(pending, i);
        Outcome(Some(pending[i]), RemoveAt(pending, i), processed)
    case None =>
      match FirstWithId(processed, id)
      case Some(i) =>
        RemoveAtInverse(processed, i);
        Outcome(Some(processed[i]), pending, RemoveAt(processed, i))
      case None => Outcome(None, pending, processed)
  }

  /** A request with the id is removed unless a pending one with the id is being processed. */
  lemma RemovalFinds(pending: seq<PlannedRequest>, processed: seq<PlannedRequest>, id: Uuid)
    ensures (forall t :: t in pending + processed ==> t.id != id) ==> Removal(pending, processed, id).removed.None?
    ensures (exists t :: t in pending + processed && t.id == id)
            && (forall t :: t in pending && t.id == id ==> t.status != Processing)
            ==> Removal(pending, processed, id).removed.Some?
    ensures Removal(pending, processed, id).removed.None? && (exists t :: t in pending + processed && t.id == id)
            ==> exists t :: t in pending && t.id == id && t.status == Processing
  {
    var inPending := FirstWithId(pending, id);
    var inProcessed := FirstWithId(processed, id);
    if inPending.Some? {
      assert pending[inPending.value] in pending + processed;
    } else if inProcessed.Some? {
      assert processed[inProcessed.value] in pending + processed;
    } else {
      forall t | t in pending + processed
        ensures t.id != id
      {
        if t in pending {
          var k :| 0 <= k < |pending| && pending[k] == t;
        } else {
          var k :| 0 <= k < |processed| && processed[k] == t;
        }
      }
    }
  }

  class AppQueue {
    var pending: seq<PlannedRequest>
    var processed: seq<PlannedRequest>

    constructor()
      ensures pending == [] && processed == []
    {
      pending := [];
      processed := [];
    }

    /** `queue.put(request)`: the deque grows at its back. */
    method Put(request: PlannedRequest)
      modifies this
      ensures pending == old(pending) + [request] && processed == old(processed)
    {
      pending := pending + [request];
    }

    /** `queue.get()` on a non-empty queue: the front of the deque. */
    method Get() returns (request: PlannedRequest)
      requires |pending| > 0
      modifies this
      ensures request == old(pending[0]) && pending == old(pending[1..]) && processed == old(processed)
    {
      request := pending[0];
      pending := pending[1..];
    }

    /**
     * `remove_by_id(text)`: the text must parse as a UUID; then the lists change as
     * `Removal` says and the request it names is returned.
     */
    method RemoveById(idText: string) returns (r: Result<Option<PlannedRequest>, DecodeError>)
      modifies this
      ensures Parse(idText).None? ==> r == Err(BadId) && pending == old(pending) && processed == old(processed)
      ensures Parse(idText).Some? ==>
        var outcome := old(Removal(pending, processed, Parse(idText).value));
        r == Ok(outcome.removed) && pending == outcome.pending && processed == outcome.processed
    {
      var parsed := Parse(idText);
      if parsed.None? {
        return Err(BadId);
      }
      var id := parsed.value;
      var i := 0;
      while i < |pending|
        invariant 0 <= i <= |pending|
        invariant forall j :: 0 <= j < i ==> pending[j].id != id
      {
        if pending[i].id == id {
          FirstWithIdAt(pending, id, i);
          if pending[i].status == Processing {
            return Ok(None);
          }
          var task := pending[i];
          pending := RemoveAt(pending, i);
          return Ok(Some(task));
        }
        i := i + 1;
      }
      i := 0;
      while i < |processed|
        invariant 0 <= i <= |processed|
        invariant forall j :: 0 <= j < i ==> processed[j].id != id
      {
        if processed[i].id == id {
          FirstWithIdAt(processed, id, i);
          var task := processed[i];
          processed := RemoveAt(processed, i);
          return Ok(Some(task));
        }
        i := i + 1;
      }
      return Ok(None);
    }

    /** `cleanup_old()`. */
    method CleanupOld()
      modifies this
      ensures processed == KeepNewest(old(processed)) && pending == old(pending)
    {
      if |processed| > ProcessedLimit {
        processed := processed[..ProcessedLimit];
      }
    }

    /** The `clear_tasks` message: keep the completed and duplicate requests, in order. */
    method ClearTasks()
      modifies this
      ensures processed == KeptTasks(old(processed)) && pending == old(pending)
    {
      var tasks := processed;
      var kept: seq<PlannedRequest> := [];
      var i := 0;
      while i < |tasks|
        invariant 0 <= i <= |tasks|
        invariant pending == old(pending)
        invariant kept == KeptTasks(tasks[..i])
      {
        KeptTasksSnoc(tasks[..i], tasks[i]);
        assert tasks[..i + 1] == tasks[..i] + [tasks[i]];
        if tasks[i].status == Completed || tasks[i].status == Duplicate {
          kept := kept + [tasks[i]];
        }
        i := i + 1;
      }
      assert tasks[..|tasks|] == tasks;
      processed := kept;
    }

    /**
     * The `remove_task` message: remove the request as `remove_by_id` does and mark it
     * removed. No other request changes.
     */
    method RemoveTask(idText: string) returns (r: Result<Option<PlannedRequest>, DecodeError>)
      modifies this, pending, processed
      ensures Parse(idText).None? ==> r == Err(BadId) && pending == old(pending) && processed == old(processed)
      ensures Parse(idText).Some? ==>
        var outcome := old(Removal(pending, processed, Parse(idText).value));
        r == Ok(outcome.removed) && pending == outcome.pending && processed == outcome.processed
      ensures r.Ok? && r.value.Some? ==> r.value.value.status == Removed && r.value.value.retries == old(r.value.value.retries)
      ensures forall t :: t in old(pending) || t in old(processed) ==>
        (r.Ok? && r.value == Some(t)) || (t.status == old(t.status) && t.retries == old(t.retries))
    {
      r := RemoveById(idText);
      if r.Ok? && r.value.Some? {
        var task := r.value.value;
        task.status := Removed;
      }
    }

    /**
     * `forward_request` for a body and a fresh id: an accepted body plans a new queued
     * request with no retries, put at the back of the pending queue.
     */
    method ForwardRequest(data: Json, endpoint: string, id: Uuid) returns (answer: ForwardResult, planned: Option<PlannedRequest>)
      requires IsUuid(id)
      modifies this
      ensures answer == ValidateForwardChecked(data, id)
      ensures answer.Accepted? <==> planned.Some?
      ensures planned.Some? ==>
        fresh(planned.value) && pending == old(pending) + [planned.value]
        && planned.value.Fields() == RequestFields(id, answer.requestMethod, endpoint, answer.url, answer.file, 0, Queued)
      ensures planned.None? ==> pending == old(pending)
      ensures processed == old(processed)
    {
      answer := ValidateForwardChecked(data, id);
      planned := None;
      if answer.Accepted? {
        var request := new PlannedRequest(RequestFields(id, answer.requestMethod, endpoint, answer.url, answer.file, 0, Queued));
        Put(request);
        planned := Some(request);
      }
    }
  }

  /**
   * A request whose JSON-RPC call raised goes back on the pending queue still marked as
   * processing, so removing it by id afterwards finds it and refuses.
   */
  method RetriedRequestCannotBeRemoved(fields: RequestFields) returns (removed: Result<Option<PlannedRequest>, DecodeError>)
    requires IsUuid(fields.id)
    ensures removed == Ok(None)
  {
    var queue := new AppQueue();
    var request := new PlannedRequest(fields);
    request.Handle(queue, None);
    ParseFormat(request.id);
    removed := queue.RemoveById(Format(request.id));
  }
}
