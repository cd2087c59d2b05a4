/** The vector database client: log helpers, the classification of the
    store's responses, batch upserts with retry narrowing, and the request
    limiter that paces every request through a task queue.

    The remote store is an oracle: `Store` maps the endpoint, the retry
    round and the records sent to the JSON response the store answers. */
module VectorDb {
  import opened Base
  import opened Schemas
  import opened TaskQueues

  /** `_RECORD_LIMIT`: the largest batch sent in one request. */
  const RecordLimit: nat := 100

  /** The `retry_times` the slice sub-calls use. */
  const DefaultRetryTimes: int := 2

  /** The default `length` of `short_msg`. */
  const DefaultShortLength: int := 256

  // ---------------------------------------------------------------------
  // Log helpers

  /** The stop index of the Python slice `s[:stop]` on a sequence of
      length `n`: a negative stop counts from the end. */
  function SliceStop(stop: int, n: nat): (k: nat)
    ensures k <= n
    ensures stop >= 0 ==> k == Min(stop, n)
    ensures stop < 0 ==> k == Max(0, n + stop)
  {
    if stop >= 0 then Min(stop, n) else Max(0, n + stop)
  }

  /** `short_msg` applied to the serialised text `s` (the JSON encoding
      itself is not modelled). */
  function ShortMsg(s: string, length: int): (r: string)
    ensures |s| <= length ==> r == s
    ensures 0 <= length < |s| ==> r == s[..length] + "..."
    ensures |s| > length ==> |r| >= 3 && r[..|r| - 3] <= s && r[|r| - 3..] == "..."
    ensures length >= 0 ==> |r| <= length + 3
  {
    if |s| > length then s[..SliceStop(length, |s|)] + "..." else s
  }

  /** The part of a JSON response the client looks at. A key that is
      missing from the response is `None`. */
  datatype Response = Response(
    code: Option<int>,
    msg: Option<string>,
    duplicateIds: Option<seq<DocId>>,
    failedIds: Option<seq<DocId>>)

  /** `_error_log`: nothing to report on success, otherwise the response's
      `msg` (which may itself be absent). */
  function ErrorLog(res: Response): (m: Option<string>)
    ensures res.code == Some(CodeOf(Success)) ==> m == None
    ensures res.code != Some(CodeOf(Success)) ==> m == res.msg
  {
    if res.code == Some(CodeOf(Success)) then None else res.msg
  }

  // ---------------------------------------------------------------------
  // Classification of one request

  datatype Endpoint = Create | Update

  /** The store's answer for an endpoint, a retry round and the records
      sent. */
  type Store = (Endpoint, nat, seq<Record>) -> Response

  /** The exceptions that end an upsert. */
  datatype Fatal =
    | MissingCode                       // `json_res["code"]` raises `KeyError`
    | StoreError(msg: Option<string>)   // `Exception("Vector Database error: ...")`

  /** The records whose id is not among `ids`, in their original order. */
  function Without(rs: seq<Record>, ids: seq<DocId>): (r: seq<Record>)
    ensures |r| <= |rs|
    ensures forall x :: x in r <==> x in rs && x.docId !in ids
  {
    if rs == [] then []
    else
      var rest := Without(rs[..|rs| - 1], ids);
      var last := rs[|rs| - 1];
      assert forall x :: x in rs <==> x in rs[..|rs| - 1] || x == last;
      if last.docId in ids then rest else rest + [last]
  }

  /** `_try_update_record`: one request to the update endpoint. There is
      no empty-input check and the code is read with `get`. */
  function TryUpdate(store: Store, round: nat, records: seq<Record>): (r: Result<seq<DocId>, Fatal>)
    ensures var res := store(Update, round, records);
      && (r.Ok? <==> res.code == Some(2000) || res.duplicateIds.Some? || res.failedIds.Some?)
      && (res.code == Some(2000) ==> r == Ok([]))
      && (res.code != Some(2000) && res.duplicateIds.Some? ==> r == Ok(res.duplicateIds.value))
      && (res.code != Some(2000) && res.duplicateIds.None? && res.failedIds.Some? ==>
            r == Ok(res.failedIds.value))
      && (r.Err? ==> r.error == StoreError(res.msg))
  {
    var res := store(Update, round, records);
    if res.code == Some(CodeOf(Success)) then Ok([])
    else if res.duplicateIds.Some? then Ok(res.duplicateIds.value)
    else if res.failedIds.Some? then Ok(res.failedIds.value)
    else Err(StoreError(ErrorLog(res)))
  }

  /** `_try_add_records`: one request to the create endpoint, skipped for
      no records. On `duplicate_ids` the records that are NOT listed as
      duplicates are sent to the update endpoint and its failures are
      returned; on `failed_ids` those are returned. */
  function TryAdd(store: Store, round: nat, records: seq<Record>): (r: Result<seq<DocId>, Fatal>)
    ensures records == [] ==> r == Ok([])
    ensures var res := store(Create, round, records);
      && (records != [] && res.code.None? ==> r == Err(MissingCode))
      && (records != [] && res.code == Some(2000) ==> r == Ok([]))
      && (records != [] && res.code.Some? && res.code != Some(2000) && res.duplicateIds.Some? ==>
            r == TryUpdate(store, round, Without(records, res.duplicateIds.value)))
      && (records != [] && res.code.Some? && res.code != Some(2000) && res.duplicateIds.None? ==>
            (r.Ok? <==> res.failedIds.Some?)
            && (r.Ok? ==> r == Ok(res.failedIds.value))
            && (r.Err? ==> r == Err(StoreError(res.msg))))
  {
    if records == [] then Ok([])
    else
      var res := store(Create, round, records);
      if res.code.None? then Err(MissingCode)
      else if res.code == Some(CodeOf(Success)) then Ok([])
      else if res.duplicateIds.Some? then TryUpdate(store, round, Without(records, res.duplicateIds.value))
      else if res.failedIds.Some? then Ok(res.failedIds.value)
      else Err(StoreError(ErrorLog(res)))
  }

  /** The records a create round hands on to the update endpoint never
      include a record the store reported as a duplicate: duplicates are
      not updated, the other records are. */
  lemma DuplicatesAreNotUpdated(records: seq<Record>, dups: seq<DocId>)
    ensures forall x :: x in Without(records, dups) ==> x.docId !in dups
    ensures forall x :: x in records && x.docId !in dups ==> x in Without(records, dups)
  {
  }

  function Attempt(ep: Endpoint, store: Store, round: nat, records: seq<Record>): Result<seq<DocId>, Fatal> {
    match ep
    case Create => TryAdd(store, round, records)
    case Update => TryUpdate(store, round, records)
  }

  // ---------------------------------------------------------------------
  // Retry narrowing

  /** The state of the retry loop: attempts made, the non-empty failure
      reports received (in order), and the records still to send. */
  datatype Narrowing = Narrowing(attempts: nat, reports: seq<seq<DocId>>, working: seq<Record>)

  /** `range(retry_times + 1)`: no attempt at all when that is not positive. */
  function Budget(retryTimes: int): (b: nat)
    ensures retryTimes >= 0 ==> b == retryTimes + 1
    ensures retryTimes < 0 ==> b == 0
  {
    Max(0, retryTimes + 1)
  }

  /** All reported ids, in the order they were reported. */
  function Flatten(reports: seq<seq<DocId>>): (ids: seq<DocId>)
    ensures forall id :: id in ids <==> exists k :: 0 <= k < |reports| && id in reports[k]
  {
    if reports == [] then []
    else
      var init := reports[..|reports| - 1];
      var rest := Flatten(init);
      assert forall k :: 0 <= k < |init| ==> init[k] == reports[k];
      rest + reports[|reports| - 1]
  }

  /** The remaining rounds of the retry loop from state `n`: an exception
      ends everything, an empty report ends the loop, otherwise the
      reported ids are removed from the working set. */
  function Narrow(ep: Endpoint, store: Store, budget: nat, n: Narrowing): Result<Narrowing, Fatal>
    requires n.attempts <= budget
    decreases budget - n.attempts
  {
    if n.attempts == budget then Ok(n)
    else match Attempt(ep, store, n.attempts, n.working)
      case Err(e) => Err(e)
      case Ok(f) =>
        if f == [] then Ok(n.(attempts := n.attempts + 1))
        else Narrow(ep, store, budget, Narrowing(n.attempts + 1, n.reports + [f], Without(n.working, f)))
  }

  /** `[item.doc_id not in failed_ids for item in records]`. */
  function Flags(records: seq<Record>, failed: seq<DocId>): (flags: seq<bool>)
    ensures |flags| == |records|
    ensures forall i :: 0 <= i < |records| ==> (flags[i] <==> records[i].docId !in failed)
  {
    seq(|records|, i requires 0 <= i < |records| => records[i].docId !in failed)
  }

  lemma {:induction false} WithoutWithout(rs: seq<Record>, a: seq<DocId>, b: seq<DocId>)
    ensures Without(Without(rs, a), b) == Without(rs, a + b)
    decreases |rs|
  {
    if rs != [] {
      var init := rs[..|rs| - 1];
      WithoutWithout(init, a, b);
      var last := rs[|rs| - 1];
      if last.docId !in a {
        var w := Without(init, a);
        assert (w + [last])[..|w + [last]| - 1] == w;
      }
    }
  }

  /** What the retry loop guarantees from a well-formed state: it makes at
      most `budget` attempts, stops early only on an empty report, never
      forgets a report, and the working set is always the original
      records minus every id reported so far. */
  lemma {:induction false} NarrowFacts(ep: Endpoint, store: Store, budget: nat, records: seq<Record>, n: Narrowing)
    requires n.attempts <= budget && n.attempts == |n.reports|
    requires Tracks(records, n)
    ensures var r := Narrow(ep, store, budget, n);
      r.Ok? ==> Tracks(records, r.value) && Stopped(ep, store, budget, r.value) && Extends(r.value, n)
    decreases budget - n.attempts
  {
    if n.attempts < budget {
      var a := Attempt(ep, store, n.attempts, n.working);
      if a.Ok? && a.value != [] {
        var f := a.value;
        var m := Narrowing(n.attempts + 1, n.reports + [f], Without(n.working, f));
        assert Extends(m, n) by {
          assert (n.reports + [f])[..|n.reports|] == n.reports;
        }
        assert Tracks(records, m) by {
          WithoutWithout(records, Flatten(n.reports), f);
        }
        NarrowFacts(ep, store, budget, records, m);
        var r := Narrow(ep, store, budget, m);
        if r.Ok? {
          ExtendsTrans(r.value, m, n);
        }
      }
    }
  }

  /** Every report is non-empty and the working set is the original
      records minus every id reported so far. */
  ghost predicate Tracks(records: seq<Record>, n: Narrowing) {
    && (forall k :: 0 <= k < |n.reports| ==> n.reports[k] != [])
    && n.working == Without(records, Flatten(n.reports))
  }

  /** The loop ended within its budget, early only on an empty report. */
  ghost predicate Stopped(ep: Endpoint, store: Store, budget: nat, n: Narrowing) {
    && n.attempts <= budget
    && (n.attempts == |n.reports|
        || (n.attempts == |n.reports| + 1 && Attempt(ep, store, |n.reports|, n.working) == Ok([])))
    && (n.attempts < budget ==> n.attempts == |n.reports| + 1)
  }

  /** `m`'s reports start with all of `n`'s. */
  ghost predicate Extends(m: Narrowing, n: Narrowing) {
    |n.reports| <= |m.reports| && m.reports[..|n.reports|] == n.reports
  }

  lemma ExtendsTrans(a: Narrowing, b: Narrowing, c: Narrowing)
    requires Extends(a, b) && Extends(b, c)
    ensures Extends(a, c)
  {
    assert a.reports[..|c.reports|] == a.reports[..|b.reports|][..|c.reports|];
  }

  // ---------------------------------------------------------------------
  // Upserts

  /** One batch of at most 100 records: `add_records` answers an empty
      list at once; otherwise the retry loop runs and each record is
      flagged by whether its id was ever reported failed. */
  function Single(ep: Endpoint, store: Store, records: seq<Record>, retryTimes: int): Result<seq<bool>, Fatal> {
    if ep == Create && records == [] then Ok([])
    else match Narrow(ep, store, Budget(retryTimes), Narrowing(0, [], records))
      case Err(e) => Err(e)
      case Ok(n) => Ok(Flags(records, Flatten(n.reports)))
  }

  /** The slices `[idx, idx+100)`, `[idx+100, idx+200)`, ... each upserted
      with the default retry count, results joined in slice order; the
      first failing slice's exception propagates. */
  function Sliced(ep: Endpoint, store: Store, records: seq<Record>, idx: nat): Result<seq<bool>, Fatal>
  {
    Chunked(SliceUpsert(ep, store), records, idx, RecordLimit)
  }

  /** One slice's upsert, as the slicing loop issues it. */
  function SliceUpsert(ep: Endpoint, store: Store): seq<Record> -> Result<seq<bool>, Fatal> {
    rs => Single(ep, store, rs, DefaultRetryTimes)
  }

  /** `add_records` (Create) and `update_record` (Update). */
  function Upsert(ep: Endpoint, store: Store, records: seq<Record>, retryTimes: int): Result<seq<bool>, Fatal> {
    if |records| > RecordLimit then Sliced(ep, store, records, 0)
    else Single(ep, store, records, retryTimes)
  }

  lemma SingleLength(ep: Endpoint, store: Store, records: seq<Record>, retryTimes: int)
    ensures Single(ep, store, records, retryTimes).Ok? ==> |Single(ep, store, records, retryTimes).value| == |records|
  {
  }

  lemma {:induction false} SlicedLength(ep: Endpoint, store: Store, records: seq<Record>, idx: nat)
    ensures var r := Sliced(ep, store, records, idx);
      r.Ok? ==> |r.value| == |records| - Min(idx, |records|)
    decreases |records| - idx
  {
    if idx < |records| {
      SlicedLength(ep, store, records, idx + RecordLimit);
      SingleLength(ep, store, records[idx..Min(idx + RecordLimit, |records|)], DefaultRetryTimes);
    }
  }

  /** One flag per input record, in input order. */
  lemma UpsertLength(ep: Endpoint, store: Store, records: seq<Record>, retryTimes: int)
    ensures Upsert(ep, store, records, retryTimes).Ok? ==>
      |Upsert(ep, store, records, retryTimes).value| == |records|
  {
    if |records| > RecordLimit {
      SlicedLength(ep, store, records, 0);
    } else {
      SingleLength(ep, store, records, retryTimes);
    }
  }

  /** Above 100 records the caller's retry count plays no part. */
  lemma LargeIgnoresRetryTimes(ep: Endpoint, store: Store, records: seq<Record>, t1: int, t2: int)
    requires |records| > RecordLimit
    ensures Upsert(ep, store, records, t1) == Upsert(ep, store, records, DefaultRetryTimes)
    ensures Upsert(ep, store, records, t1) == Upsert(ep, store, records, t2)
  {
  }

  /** `add_records([])` answers `[]` whatever the store would say, while
      `update_record([])` still sends a request and fails when the store
      answers an error. */
  lemma EmptyInput(store: Store, retryTimes: int)
    ensures Upsert(Create, store, [], retryTimes) == Ok([])
    ensures retryTimes >= 0 && store(Update, 0, []) == Response(Some(3140), None, None, None) ==>
      Upsert(Update, store, [], retryTimes) == Err(StoreError(None))
  {
  }

  /** With a non-positive budget no request is made and every record is
      flagged as added. */
  lemma NoBudgetFlagsAll(ep: Endpoint, store: Store, records: seq<Record>, retryTimes: int)
    requires retryTimes < 0 && |records| <= RecordLimit
    ensures var r := Upsert(ep, store, records, retryTimes);
      r.Ok? && forall i :: 0 <= i < |r.value| ==> r.value[i]
  {
  }

  /** The flags of one batch: the record at `i` is flagged false exactly
      when its id appears in one of the failure reports of the retry loop,
      which made at most `retry_times + 1` attempts and stopped early only
      on an empty report. */
  lemma {:induction false} SingleFlags(ep: Endpoint, store: Store, records: seq<Record>, retryTimes: int)
    requires !(ep == Create && records == [])
    requires Single(ep, store, records, retryTimes).Ok?
    ensures var n := Narrow(ep, store, Budget(retryTimes), Narrowing(0, [], records)).value;
      && n.attempts <= Budget(retryTimes)
      && (n.attempts < Budget(retryTimes) ==>
            n.attempts == |n.reports| + 1
            && Attempt(ep, store, |n.reports|, n.working) == Ok([]))
      && n.working == Without(records, Flatten(n.reports))
      && forall i :: 0 <= i < |records| ==>
           (!Single(ep, store, records, retryTimes).value[i]
            <==> (exists k :: 0 <= k < |n.reports| && records[i].docId in n.reports[k]))
  {
    var n0 := Narrowing(0, [], records);
    assert Without(records, []) == records by {
      WithoutNothing(records);
    }
    NarrowFacts(ep, store, Budget(retryTimes), records, n0);
  }

  /** A slice's upsert yields one flag per record of the slice. */
  lemma SliceUpsertLength(ep: Endpoint, store: Store)
    ensures forall ys :: SliceUpsert(ep, store)(ys).Ok? ==> |SliceUpsert(ep, store)(ys).value| == |ys|
  {
    forall ys | SliceUpsert(ep, store)(ys).Ok?
      ensures |SliceUpsert(ep, store)(ys).value| == |ys|
    {
      SingleLength(ep, store, ys, DefaultRetryTimes);
    }
  }

  /** Slices of 100 start at multiples of 100 past `idx`. */
  lemma {:induction false} SliceStartIs(idx: nat, i: nat)
    requires idx <= i
    ensures ChunkStart(idx, i, RecordLimit) == idx + ((i - idx) / RecordLimit) * RecordLimit
    decreases i - idx
  {
    if i >= idx + RecordLimit {
      SliceStartIs(idx + RecordLimit, i);
    }
  }

  /** Flag `i` of the joined slices is the flag of `records[i]` within
      its own slice, upserted with the default retry count. */
  lemma SlicedAt(ep: Endpoint, store: Store, records: seq<Record>, i: nat)
    requires i < |records|
    requires Sliced(ep, store, records, 0).Ok?
    ensures var s := ChunkStart(0, i, RecordLimit);
      var r := SliceUpsert(ep, store)(records[s..Min(s + RecordLimit, |records|)]);
      && r.Ok? && |r.value| == Min(s + RecordLimit, |records|) - s
      && |Sliced(ep, store, records, 0).value| > i
      && Sliced(ep, store, records, 0).value[i] == r.value[i - s]
  {
    SliceUpsertLength(ep, store);
    ChunkedAt(SliceUpsert(ep, store), records, 0, RecordLimit, i);
  }

  /** Above 100 records, flag `i` of the upsert is the flag of `records[i]`
      within its own slice `records[s..s + 100]`, `s = (i // 100) * 100`,
      upserted with the default retry count. */
  lemma UpsertSliceFlag(ep: Endpoint, store: Store, records: seq<Record>, retryTimes: int, i: nat)
    requires |records| > RecordLimit && i < |records|
    requires Upsert(ep, store, records, retryTimes).Ok?
    ensures var s := ChunkStart(0, i, RecordLimit);
      var slice := records[s..Min(s + RecordLimit, |records|)];
      var r := Single(ep, store, slice, DefaultRetryTimes);
      && s == (i / RecordLimit) * RecordLimit && slice[i - s] == records[i]
      && r.Ok? && |r.value| == |slice|
      && |Upsert(ep, store, records, retryTimes).value| == |records|
      && Upsert(ep, store, records, retryTimes).value[i] == r.value[i - s]
  {
    assert Upsert(ep, store, records, retryTimes) == Sliced(ep, store, records, 0);
    SlicedAt(ep, store, records, i);
    SliceStartIs(0, i);
    var s := ChunkStart(0, i, RecordLimit);
    var slice := records[s..Min(s + RecordLimit, |records|)];
    assert SliceUpsert(ep, store)(slice) == Single(ep, store, slice, DefaultRetryTimes);
    UpsertLength(ep, store, records, retryTimes);
  }

  /** Above 100 records, record `i` is flagged false exactly when its id
      was reported failed in a round of the retry loop of its own slice,
      run with the default retry count (`SingleFlags` says how that loop
      stops). */
  lemma UpsertSlicedFlags(ep: Endpoint, store: Store, records: seq<Record>, retryTimes: int, i: nat)
    requires |records| > RecordLimit && i < |records|
    requires Upsert(ep, store, records, retryTimes).Ok?
    ensures var s := ChunkStart(0, i, RecordLimit);
      var slice := records[s..Min(s + RecordLimit, |records|)];
      var r := Narrow(ep, store, Budget(DefaultRetryTimes), Narrowing(0, [], slice));
      && r.Ok? && |Upsert(ep, store, records, retryTimes).value| == |records|
      && var reports := r.value.reports;
      (!Upsert(ep, store, records, retryTimes).value[i]
       <==> (exists k :: 0 <= k < |reports| && records[i].docId in reports[k]))
  {
    UpsertSliceFlag(ep, store, records, retryTimes, i);
    var s := ChunkStart(0, i, RecordLimit);
    var slice := records[s..Min(s + RecordLimit, |records|)];
    SingleFlags(ep, store, slice, DefaultRetryTimes);
  }

  lemma {:induction false} WithoutNothing(rs: seq<Record>)
    ensures Without(rs, []) == rs
    decreases |rs|
  {
    if rs != [] {
      WithoutNothing(rs[..|rs| - 1]);
      assert rs == rs[..|rs| - 1] + [rs[|rs| - 1]];
    }
  }

  /** The retry loop of `add_records`/`update_record` for one batch. */
  method RetryLoop(ep: Endpoint, store: Store, records: seq<Record>, retryTimes: int)
    returns (r: Result<seq<bool>, Fatal>)
    requires !(ep == Create && records == [])
    ensures r == Single(ep, store, records, retryTimes)
  {
    var budget := Budget(retryTimes);
    var failedIds: seq<DocId> := [];
    var reqRecords := records;
    ghost var n := Narrowing(0, [], records);
    var i := 0;
    while i < budget
      invariant n.attempts == i == |n.reports| <= budget
      invariant n.working == reqRecords && failedIds == Flatten(n.reports)
      invariant Narrow(ep, store, budget, Narrowing(0, [], records)) == Narrow(ep, store, budget, n)
    {
      var attempt := Attempt(ep, store, i, reqRecords);
      if attempt.Err? {
        return Err(attempt.error);
      }
      var failed := attempt.value;
      if failed == [] {
        n := n.(attempts := i + 1);
        break;
      }
      failedIds := failedIds + failed;
      reqRecords := Without(reqRecords, failed);
      n := Narrowing(i + 1, n.reports + [failed], reqRecords);
      assert (n.reports)[..|n.reports| - 1] == n.reports[..i];
      i := i + 1;
    }
    r := Ok(Flags(records, failedIds));
  }

  /** `add_records` and `update_record`: more than 100 records are split
      into slices of 100, each upserted (concurrently in the source) with
      the default retry count and the results concatenated in slice order;
      otherwise the batch runs through the retry loop. */
  method UpsertRecords(ep: Endpoint, store: Store, records: seq<Record>, retryTimes: int)
    returns (r: Result<seq<bool>, Fatal>)
    ensures r == Upsert(ep, store, records, retryTimes)
    ensures r.Ok? ==> |r.value| == |records|
    decreases |records|
  {
    UpsertLength(ep, store, records, retryTimes);
    if |records| > RecordLimit {
      var idx := 0;
      var results: seq<bool> := [];
      ThenUnit(Sliced(ep, store, records, 0));
      while idx < |records|
        invariant Sliced(ep, store, records, 0) == Then(Ok(results), Sliced(ep, store, records, idx))
        decreases |records| - idx
      {
        var slice := records[idx..Min(idx + RecordLimit, |records|)];
        var sub := UpsertRecords(ep, store, slice, DefaultRetryTimes);
        if sub.Err? {
          return Err(sub.error);
        }
        ThenStep(results, sub.value, Sliced(ep, store, records, idx + RecordLimit));
        results := results + sub.value;
        idx := idx + RecordLimit;
      }
      ThenEnd<bool, Fatal>(results);
      return Ok(results);
    }
    if ep == Create && records == [] {
      return Ok([]);
    }
    r := RetryLoop(ep, store, records, retryTimes);
  }

  method AddRecords(store: Store, records: seq<Record>, retryTimes: int) returns (r: Result<seq<bool>, Fatal>)
    ensures r == Upsert(Create, store, records, retryTimes)
    ensures r.Ok? ==> |r.value| == |records|
  {
    r := UpsertRecords(Create, store, records, retryTimes);
  }

  method UpdateRecord(store: Store, records: seq<Record>, retryTimes: int) returns (r: Result<seq<bool>, Fatal>)
    ensures r == Upsert(Update, store, records, retryTimes)
    ensures r.Ok? ==> |r.value| == |records|
  {
    r := UpsertRecords(Update, store, records, retryTimes);
  }

  // ---------------------------------------------------------------------
  // Request limiter

  /** `_RequestLimiter`: one shared, unbounded task queue through which
      every request to the store is paced. */
  class RequestLimiter<W, V> {
    const taskQueue: TaskQueue<W, V>

    constructor(interval: real)
      ensures fresh(taskQueue) && taskQueue.Valid() && taskQueue.Idle()
      ensures taskQueue.maxSize == -1 && !taskQueue.running
    {
      taskQueue := new TaskQueue(interval, -1);
    }

    /** `_schedule_task`: starts the queue's consumer only if it is not
      running yet, then enqueues the request; the unbounded queue never
      refuses it. */
    method ScheduleTask(work: W) returns (f: FutureId)
      requires taskQueue.Valid() && taskQueue.maxSize <= 0
      modifies taskQueue
      ensures taskQueue.Valid() && taskQueue.running
      ensures taskQueue.consumers == if old(taskQueue.running) then old(taskQueue.consumers) else 1
      ensures f == old(|taskQueue.futures|)
      ensures taskQueue.queue == old(taskQueue.queue) + [Job(work, f)]
      ensures taskQueue.futures == old(taskQueue.futures) + [Pending]
      ensures taskQueue.spawned == old(taskQueue.spawned)
      ensures taskQueue.runningTaskNum == old(taskQueue.runningTaskNum)
    {
      if !taskQueue.running {
        taskQueue.Schedule();
      }
      var r := taskQueue.AddTask(work);
      f := r.value;
    }
  }
}
