/** The batched task group: a list of coroutines run concurrently, either
    all at once or in consecutive batches, with results collected in
    submission order. Each coroutine is represented by the outcome it will
    have when awaited; which order the tasks finish in does not change the
    joined result, so only the in-order join is modelled. */
module TaskGroups {
  import opened Base

  // ---------------------------------------------------------------------
  // Joining outcomes in submission order

  /** Awaiting the outcomes one after the other, as `_schedule_tasks`
      does: the first exception propagates. */
  function JoinAll<V>(os: seq<Outcome<V>>): Result<seq<V>, Exc> {
    if os == [] then Ok([])
    else match os[0]
      case Raised(e) => Err(e)
      case Returned(v) => Then(Ok([v]), JoinAll(os[1..]))
  }

  /** Awaiting the outcomes one after the other, as
      `_schedule_tasks_noexcept` does: an `Exception` is stored in its slot,
      only a `CancelledError` propagates. */
  function JoinAllNoexcept<V>(os: seq<Outcome<V>>): Result<seq<Outcome<V>>, Exc> {
    if os == [] then Ok([])
    else if os[0] == Raised(Exc.Cancelled) then Err(Exc.Cancelled)
    else Then(Ok([os[0]]), JoinAllNoexcept(os[1..]))
  }

  ghost predicate AllReturned<V>(os: seq<Outcome<V>>) {
    forall i :: 0 <= i < |os| ==> os[i].Returned?
  }

  /** The index of the first outcome that raised. */
  function FirstRaised<V>(os: seq<Outcome<V>>): (i: nat)
    requires !AllReturned(os)
    ensures i < |os| && os[i].Raised?
    ensures forall j :: 0 <= j < i ==> os[j].Returned?
  {
    if os[0].Raised? then 0
    else
      assert !AllReturned(os[1..]) by {
        var k :| 0 <= k < |os| && os[k].Raised?;
        assert os[1..][k - 1] == os[k];
      }
      1 + FirstRaised(os[1..])
  }

  /** `get` joins to the values in submission order when nothing raised,
      and otherwise to the first exception in submission order. */
  lemma {:induction false} JoinAllSpec<V>(os: seq<Outcome<V>>)
    ensures AllReturned(os) ==>
      (JoinAll(os).Ok?
       && |JoinAll(os).value| == |os|
       && forall i :: 0 <= i < |os| ==> JoinAll(os).value[i] == os[i].value)
    ensures !AllReturned(os) ==> JoinAll(os) == Err(os[FirstRaised(os)].exc)
    decreases |os|
  {
    if os != [] {
      JoinAllSpec(os[1..]);
      if os[0].Returned? && AllReturned(os) {
        assert AllReturned(os[1..]) by {
          forall i | 0 <= i < |os| - 1 ensures os[1..][i].Returned? {
            assert os[1..][i] == os[i + 1];
          }
        }
      }
    }
  }

  /** `get_noexcept` never loses a slot: without a `CancelledError` the
      result is the list of outcomes itself, one per submitted coroutine. */
  lemma {:induction false} JoinAllNoexceptSpec<V>(os: seq<Outcome<V>>)
    ensures Raised(Exc.Cancelled) !in os ==> JoinAllNoexcept(os) == Ok(os)
    ensures Raised(Exc.Cancelled) in os ==> JoinAllNoexcept(os) == Err(Exc.Cancelled)
    decreases |os|
  {
    if os != [] {
      JoinAllNoexceptSpec(os[1..]);
      assert os == [os[0]] + os[1..];
    }
  }

  lemma {:induction false} JoinAllAppend<V>(a: seq<Outcome<V>>, b: seq<Outcome<V>>)
    ensures JoinAll(a + b) == Then(JoinAll(a), JoinAll(b))
    decreases |a|
  {
    if a == [] {
      assert a + b == b;
      ThenUnit(JoinAll(b));
    } else {
      assert (a + b)[0] == a[0] && (a + b)[1..] == a[1..] + b;
      JoinAllAppend(a[1..], b);
      if a[0].Returned? {
        ThenAssoc(Ok([a[0].value]), JoinAll(a[1..]), JoinAll(b));
      }
    }
  }

  lemma {:induction false} JoinAllNoexceptAppend<V>(a: seq<Outcome<V>>, b: seq<Outcome<V>>)
    ensures JoinAllNoexcept(a + b) == Then(JoinAllNoexcept(a), JoinAllNoexcept(b))
    decreases |a|
  {
    if a == [] {
      assert a + b == b;
      ThenUnit(JoinAllNoexcept(b));
    } else {
      assert (a + b)[0] == a[0] && (a + b)[1..] == a[1..] + b;
      JoinAllNoexceptAppend(a[1..], b);
      ThenAssoc(Ok([a[0]]), JoinAllNoexcept(a[1..]), JoinAllNoexcept(b));
    }
  }

  // ---------------------------------------------------------------------
  // Batching

  /** Running consecutive slices `[k*b, k*b+b)` one after the other and
      concatenating their joins. */
  function Batched<V>(os: seq<Outcome<V>>, b: nat): Result<seq<V>, Exc>
    requires b >= 1
    decreases |os|
  {
    if os == [] then Ok([])
    else
      var n := Min(b, |os|);
      Then(JoinAll(os[..n]), Batched(os[n..], b))
  }

  /** Batching changes neither the values nor which exception propagates. */
  lemma {:induction false} BatchedIsJoinAll<V>(os: seq<Outcome<V>>, b: nat)
    requires b >= 1
    ensures Batched(os, b) == JoinAll(os)
    decreases |os|
  {
    if os != [] {
      var n := Min(b, |os|);
      BatchedIsJoinAll(os[n..], b);
      assert os == os[..n] + os[n..];
      JoinAllAppend(os[..n], os[n..]);
    }
  }

  class TaskGroup<V> {
    /** `-1` means unbounded. */
    var batchSize: int
    /** `_coro_group`, in submission order. */
    var coros: seq<Outcome<V>>

    /** Keeps the given coroutines in order; `None` gives an empty group. */
    constructor(coros: Option<seq<Outcome<V>>>, batchSize: int)
      ensures this.batchSize == batchSize
      ensures this.coros == if coros.Some? then coros.value else []
    {
      this.batchSize := batchSize;
      this.coros := [];
      new;
      if coros.Some? {
        var given := coros.value;
        for i := 0 to |given|
          invariant this.coros == given[..i]
          invariant this.batchSize == batchSize
        {
          this.coros := this.coros + [given[i]];
        }
        assert given[..|given|] == given;
      }
    }

    /** Adds a coroutine at the end of the group. */
    method Append(coro: Outcome<V>)
      modifies this
      ensures coros == old(coros) + [coro]
      ensures batchSize == old(batchSize)
    {
      coros := coros + [coro];
    }

    /** `_schedule_tasks`: awaits the tasks in order, collecting values; the
        first exception propagates. */
    method ScheduleTasks(tasks: seq<Outcome<V>>) returns (r: Result<seq<V>, Exc>)
      ensures r == JoinAll(tasks)
    {
      var res: seq<V> := [];
      ThenUnit(JoinAll(tasks));
      assert tasks[0..] == tasks;
      for i := 0 to |tasks|
        invariant JoinAll(tasks) == Then(Ok(res), JoinAll(tasks[i..]))
      {
        assert tasks[i..][1..] == tasks[i + 1..];
        match tasks[i]
        case Raised(e) =>
          return Err(e);
        case Returned(v) =>
          ThenStep(res, [v], JoinAll(tasks[i + 1..]));
          res := res + [v];
      }
      assert tasks[|tasks|..] == [];
      ThenEnd<V, Exc>(res);
      r := Ok(res);
    }

    /** `_schedule_tasks_noexcept`: awaits the tasks in order; an
        `Exception` is stored in its slot. */
    method ScheduleTasksNoexcept(tasks: seq<Outcome<V>>) returns (r: Result<seq<Outcome<V>>, Exc>)
      ensures r == JoinAllNoexcept(tasks)
    {
      var res: seq<Outcome<V>> := [];
      ThenUnit(JoinAllNoexcept(tasks));
      assert tasks[0..] == tasks;
      for i := 0 to |tasks|
        invariant JoinAllNoexcept(tasks) == Then(Ok(res), JoinAllNoexcept(tasks[i..]))
      {
        assert tasks[i..][1..] == tasks[i + 1..];
        if tasks[i] == Raised(Exc.Cancelled) {
          return Err(Exc.Cancelled);
        }
        ThenStep(res, [tasks[i]], JoinAllNoexcept(tasks[i + 1..]));
        res := res + [tasks[i]];
      }
      assert tasks[|tasks|..] == [];
      ThenEnd<Outcome<V>, Exc>(res);
      r := Ok(res);
    }

    /** `get`. Unbounded: every task is created up front. With batch size
        b >= 1: consecutive slices of at most b tasks, each joined before
        the next slice is created. The result is the in-order join; on an
        exception the slice holding the first failing task is the last one
        created. Any other batch size never advances the loop, so the
        group must then be empty. */
    method Get() returns (r: Result<seq<V>, Exc>, ghost created: nat, ghost peak: nat)
      requires batchSize == -1 || batchSize >= 1 || coros == []
      ensures r == JoinAll(coros)
      ensures created <= |coros| && peak <= created
      ensures r.Ok? ==> created == |coros|
      ensures batchSize >= 1 ==> peak <= batchSize
      ensures batchSize >= 1 && r.Err? ==>
        (!AllReturned(coros) && created - batchSize <= FirstRaised(coros) < created)
    {
      if batchSize == -1 {
        r := ScheduleTasks(coros);
        created, peak := |coros|, |coros|;
        return;
      }
      var res: seq<V> := [];
      var current := 0;
      created, peak := 0, 0;
      ThenUnit(JoinAll(coros));
      assert coros[0..] == coros;
      while current < |coros|
        invariant 0 <= current && created == Min(current, |coros|) && peak <= created
        invariant current > 0 ==> batchSize >= 1
        invariant batchSize >= 1 ==> peak <= batchSize
        invariant AllReturned(coros[..created])
        invariant JoinAll(coros) == Then(Ok(res), JoinAll(coros[created..]))
        decreases |coros| - current
      {
        var hi := Min(current + batchSize, |coros|);
        var slice := coros[current..hi];
        var batch := ScheduleTasks(slice);
        SliceSplit(coros, current, hi);
        created := hi;
        peak := Max(peak, |slice|);
        if batch.Err? {
          FirstRaisedInSlice(coros, current, hi);
          return Err(batch.error), created, peak;
        }
        JoinAllSpec(slice);
        AllReturnedExtend(coros, current, hi);
        ThenStep(res, batch.value, JoinAll(coros[hi..]));
        res := res + batch.value;
        current := current + batchSize;
      }
      assert coros[created..] == [];
      ThenEnd<V, Exc>(res);
      r := Ok(res);
    }

    /** `get_noexcept`: the same scheduling as `get`, with each
        `Exception` kept in its slot. */
    method GetNoexcept() returns (r: Result<seq<Outcome<V>>, Exc>)
      requires batchSize == -1 || batchSize >= 1 || coros == []
      ensures r == JoinAllNoexcept(coros)
      ensures Raised(Exc.Cancelled) !in coros ==> r == Ok(coros)
    {
      JoinAllNoexceptSpec(coros);
      if batchSize == -1 {
        r := ScheduleTasksNoexcept(coros);
        return;
      }
      var res: seq<Outcome<V>> := [];
      var current := 0;
      ghost var created := 0;
      ThenUnit(JoinAllNoexcept(coros));
      assert coros[0..] == coros;
      while current < |coros|
        invariant 0 <= current && created == Min(current, |coros|)
        invariant current > 0 ==> batchSize >= 1
        invariant JoinAllNoexcept(coros) == Then(Ok(res), JoinAllNoexcept(coros[created..]))
        decreases |coros| - current
      {
        var hi := Min(current + batchSize, |coros|);
        var batch := ScheduleTasksNoexcept(coros[current..hi]);
        SliceSplitNoexcept(coros, current, hi);
        if batch.Err? {
          return Err(batch.error);
        }
        ThenStep(res, batch.value, JoinAllNoexcept(coros[hi..]));
        res := res + batch.value;
        current := current + batchSize;
        created := hi;
      }
      assert coros[created..] == [];
      ThenEnd<Outcome<V>, Exc>(res);
      r := Ok(res);
    }
  }

  /** Joining from `lo` is joining the slice `[lo, hi)` and then the rest. */
  lemma SliceSplit<V>(os: seq<Outcome<V>>, lo: nat, hi: nat)
    requires lo <= hi <= |os|
    ensures JoinAll(os[lo..]) == Then(JoinAll(os[lo..hi]), JoinAll(os[hi..]))
  {
    assert os[lo..] == os[lo..hi] + os[hi..];
    JoinAllAppend(os[lo..hi], os[hi..]);
  }

  lemma SliceSplitNoexcept<V>(os: seq<Outcome<V>>, lo: nat, hi: nat)
    requires lo <= hi <= |os|
    ensures JoinAllNoexcept(os[lo..]) == Then(JoinAllNoexcept(os[lo..hi]), JoinAllNoexcept(os[hi..]))
  {
    assert os[lo..] == os[lo..hi] + os[hi..];
    JoinAllNoexceptAppend(os[lo..hi], os[hi..]);
  }

  lemma AllReturnedExtend<V>(os: seq<Outcome<V>>, lo: nat, hi: nat)
    requires lo <= hi <= |os|
    requires AllReturned(os[..lo]) && AllReturned(os[lo..hi])
    ensures AllReturned(os[..hi])
  {
    forall j | 0 <= j < hi ensures os[..hi][j].Returned? {
      if j >= lo { assert os[j] == os[lo..hi][j - lo]; }
      else { assert os[j] == os[..lo][j]; }
    }
  }

  /** When every outcome before `lo` returned and the join of `[lo, hi)`
      fails, the first failure of the whole sequence lies in that slice and
      its exception is the slice's. */
  lemma FirstRaisedInSlice<V>(os: seq<Outcome<V>>, lo: nat, hi: nat)
    requires lo <= hi <= |os|
    requires AllReturned(os[..lo]) && JoinAll(os[lo..hi]).Err?
    ensures !AllReturned(os)
    ensures lo <= FirstRaised(os) < hi
    ensures JoinAll(os[lo..hi]) == Err(os[FirstRaised(os)].exc)
  {
    var slice := os[lo..hi];
    JoinAllErr(slice);
    var k := FirstRaised(slice);
    FirstRaisedShift(os, lo, hi, k);
    assert os[lo + k] == slice[k];
  }

  /** A failed join is the exception of the first outcome that raised. */
  lemma JoinAllErr<V>(os: seq<Outcome<V>>)
    requires JoinAll(os).Err?
    ensures !AllReturned(os) && JoinAll(os) == Err(os[FirstRaised(os)].exc)
  {
    JoinAllSpec(os);
  }

  lemma FirstRaisedShift<V>(os: seq<Outcome<V>>, lo: nat, hi: nat, k: nat)
    requires lo <= hi <= |os| && AllReturned(os[..lo])
    requires k < hi - lo && os[lo..hi][k].Raised?
    requires forall j :: 0 <= j < k ==> os[lo..hi][j].Returned?
    ensures !AllReturned(os) && FirstRaised(os) == lo + k
  {
    forall j | 0 <= j < lo + k ensures os[j].Returned? {
      if j >= lo {
        assert os[j] == os[lo..hi][j - lo];
      } else {
        assert os[j] == os[..lo][j];
      }
    }
    FirstRaisedUnique(os, lo + k);
  }

  /** The first raised outcome is the only index before which every
      outcome returned and at which one raised. */
  lemma FirstRaisedUnique<V>(os: seq<Outcome<V>>, i: nat)
    requires i < |os| && os[i].Raised?
    requires forall j :: 0 <= j < i ==> os[j].Returned?
    ensures !AllReturned(os) && FirstRaised(os) == i
  {
    var f := FirstRaised(os);
  }
}
