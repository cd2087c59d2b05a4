/** The request task supervisor middleware. A registry maps each live
    request id to the tasks supervised on its behalf; the current request
    id is a context variable. Every http request is registered under a
    fresh id, its input stream is teed to a disconnect watcher and to the
    application, and when the watcher wins the race the request's tasks
    are cancelled. The race itself is not modelled: which of the two
    tasks is done, and in which order `done` is iterated, are inputs. */
module TaskSupervisor {
  import opened Base

  type RequestId = string

  /** A supervised asyncio task; cancelling it is recorded, not performed. */
  type TaskRef = nat

  /** `KeyError` raised by the registry lookup in `cancel_tasks`. */
  datatype KeyError = KeyError(key: RequestId)

  /** An ASGI message; only its `type` matters here. */
  datatype Message = Message(kind: string)

  predicate IsDisconnect(m: Message) { m.kind == "http.disconnect" }

  /** The two consumers of the teed input stream. */
  datatype Consumer = Origin | Wrapper
  {
    function Other(): Consumer { if Origin? then Wrapper else Origin }
  }

  /** The two tasks the middleware races: the disconnect watcher and the
      application. */
  datatype Racer = Watcher | App

  /** What a request that does not raise ends with. */
  datatype Served = PassedThrough | Served(cancelFlag: bool, cancelledRacers: seq<Racer>)

  // ---------------------------------------------------------------------
  // The input tee
  // ---------------------------------------------------------------------

  /** `_ReceiveWrapper`: every message pulled from the underlying
      `receive` goes onto both queues; each consumer pulls a new message
      only when its own queue is empty. */
  class ReceiveWrapper {
    /** The messages the underlying `receive` yields, in order. Past the
        end it would wait forever; the model reports that as `None`. */
    const source: seq<Message>
    /** How many messages have been pulled from `source`. */
    var pulled: nat
    /** `origin_list`, read by the disconnect watcher. */
    var originQueue: seq<Message>
    /** `wrapper_list`, read by the application. */
    var wrapperQueue: seq<Message>
    /** What each consumer has taken so far. */
    ghost var originTaken: seq<Message>
    ghost var wrapperTaken: seq<Message>

    function QueueOf(c: Consumer): seq<Message>
      reads this
    {
      if c == Origin then originQueue else wrapperQueue
    }

    ghost function TakenBy(c: Consumer): seq<Message>
      reads this
    {
      if c == Origin then originTaken else wrapperTaken
    }

    /** For each consumer, taken-so-far followed by its own queue is
        everything received, in source order. */
    ghost predicate Valid()
      reads this
    {
      && pulled <= |source|
      && originTaken + originQueue == source[..pulled]
      && wrapperTaken + wrapperQueue == source[..pulled]
    }

    constructor(source: seq<Message>)
      ensures Valid()
      ensures this.source == source && pulled == 0
      ensures originQueue == [] && wrapperQueue == [] && originTaken == [] && wrapperTaken == []
    {
      this.source := source;
      pulled := 0;
      originQueue := [];
      wrapperQueue := [];
      originTaken := [];
      wrapperTaken := [];
    }

    /** `_receive`: pulls the next message and puts it on both queues. */
    method Receive()
      requires Valid() && pulled < |source|
      modifies this
      ensures Valid()
      ensures pulled == old(pulled) + 1
      ensures originQueue == old(originQueue) + [source[old(pulled)]]
      ensures wrapperQueue == old(wrapperQueue) + [source[old(pulled)]]
      ensures originTaken == old(originTaken) && wrapperTaken == old(wrapperTaken)
    {
      var m := source[pulled];
      assert source[..pulled + 1] == source[..pulled] + [m];
      pulled := pulled + 1;
      originQueue := originQueue + [m];
      wrapperQueue := wrapperQueue + [m];
    }

    /** `rcv_origin` (consumer `Origin`) and `rcv_wrapper` (consumer
        `Wrapper`): pull from the source only if the consumer's own queue
        is empty, then take the head of that queue. Each consumer thus
        reads the whole source in order, from where it stopped, whatever
        the other consumer does. */
    method Rcv(c: Consumer) returns (m: Option<Message>)
      requires Valid()
      modifies this
      ensures Valid()
      ensures m.None? <==> |old(TakenBy(c))| == |source|
      ensures m.Some? ==> m.value == source[|old(TakenBy(c))|] && TakenBy(c) == old(TakenBy(c)) + [m.value]
      ensures m.None? ==> TakenBy(c) == old(TakenBy(c)) && pulled == old(pulled)
      ensures m.Some? ==> pulled == if old(QueueOf(c)) == [] then old(pulled) + 1 else old(pulled)
      ensures TakenBy(c.Other()) == old(TakenBy(c.Other()))
      ensures QueueOf(c.Other()) == old(QueueOf(c.Other())) + source[old(pulled)..pulled]
    {
      assert |TakenBy(c)| + |QueueOf(c)| == pulled by {
        assert |(TakenBy(c) + QueueOf(c))| == |source[..pulled]|;
      }
      if QueueOf(c) == [] {
        if pulled == |source| {
          assert source[pulled..pulled] == [];
          return None;
        }
        Receive();
        assert source[old(pulled)..pulled] == [source[old(pulled)]];
      } else {
        assert source[old(pulled)..pulled] == [];
      }
      assert QueueOf(c.Other()) == old(QueueOf(c.Other())) + source[old(pulled)..pulled];
      assert source[..pulled][|TakenBy(c)|] == QueueOf(c)[0] by {
        assert (TakenBy(c) + QueueOf(c))[|TakenBy(c)|] == QueueOf(c)[0];
      }
      var head := Take(c);
      m := Some(head);
    }

    /** The `pop(0)` of `rcv_origin` or `rcv_wrapper`: takes the head of
        the consumer's own queue, leaving the other consumer alone. */
    method Take(c: Consumer) returns (m: Message)
      requires Valid() && QueueOf(c) != []
      modifies this
      ensures Valid()
      ensures m == old(QueueOf(c))[0]
      ensures TakenBy(c) == old(TakenBy(c)) + [m] && QueueOf(c) == old(QueueOf(c))[1..]
      ensures pulled == old(pulled)
      ensures TakenBy(c.Other()) == old(TakenBy(c.Other())) && QueueOf(c.Other()) == old(QueueOf(c.Other()))
    {
      if c == Origin {
        m := originQueue[0];
        originQueue := originQueue[1..];
        originTaken := originTaken + [m];
        assert originTaken + originQueue == old(originTaken) + old(originQueue);
      } else {
        m := wrapperQueue[0];
        wrapperQueue := wrapperQueue[1..];
        wrapperTaken := wrapperTaken + [m];
        assert wrapperTaken + wrapperQueue == old(wrapperTaken) + old(wrapperQueue);
      }
    }
  }

  // ---------------------------------------------------------------------
  // The disconnect watcher
  // ---------------------------------------------------------------------

  /** Index of the first disconnect message, if any. */
  function FirstDisconnect(msgs: seq<Message>): (r: Option<nat>)
    ensures r.Some? ==> r.value < |msgs| && IsDisconnect(msgs[r.value])
    ensures r.Some? ==> forall k :: 0 <= k < r.value ==> !IsDisconnect(msgs[k])
    ensures r.None? <==> forall k :: 0 <= k < |msgs| ==> !IsDisconnect(msgs[k])
  {
    if msgs == [] then None
    else if IsDisconnect(msgs[0]) then Some(0)
    else match FirstDisconnect(msgs[1..])
      case None => None
      case Some(i) => Some(i + 1)
  }

  /** `handle_disconnect` reading through the tee's `Origin` consumer:
      it takes messages until the first `http.disconnect` and returns
      True; every other message is ignored. If the source ends first,
      the watcher would wait forever; the model then returns False with
      everything taken. What the application has taken is left alone. */
  method HandleDisconnect(w: ReceiveWrapper) returns (r: bool)
    requires w.Valid()
    modifies w
    ensures w.Valid()
    ensures var rest := w.source[|old(w.originTaken)|..];
      && (r <==> FirstDisconnect(rest).Some?)
      && (r ==> w.originTaken == old(w.originTaken) + rest[..FirstDisconnect(rest).value + 1])
      && (!r ==> w.originTaken == w.source)
    ensures w.wrapperTaken == old(w.wrapperTaken)
  {
    ghost var start := |w.originTaken|;
    assert |w.originTaken| <= |w.source| by {
      assert |w.originTaken + w.originQueue| == |w.source[..w.pulled]|;
    }
    ghost var rest := w.source[start..];
    ghost var seen: seq<Message> := [];
    while true
      invariant w.Valid()
      invariant |w.originTaken| <= |w.source|
      invariant w.originTaken == old(w.originTaken) + seen
      invariant seen == rest[..|seen|]
      invariant forall k :: 0 <= k < |seen| ==> !IsDisconnect(seen[k])
      invariant w.wrapperTaken == old(w.wrapperTaken)
      decreases |w.source| - |w.originTaken|
    {
      var m := w.Rcv(Origin);
      if m.None? {
        assert seen == rest;
        return false;
      }
      seen := seen + [m.value];
      assert seen == rest[..|seen|];
      if IsDisconnect(m.value) {
        assert FirstDisconnect(rest) == Some(|seen| - 1) by {
          FirstDisconnectAt(rest, |seen| - 1);
        }
        return true;
      }
    }
  }

  /** The first disconnect is at `i` when `msgs[i]` is one and none
      comes before it. */
  lemma {:induction false} FirstDisconnectAt(msgs: seq<Message>, i: nat)
    requires i < |msgs| && IsDisconnect(msgs[i])
    requires forall k :: 0 <= k < i ==> !IsDisconnect(msgs[k])
    ensures FirstDisconnect(msgs) == Some(i)
  {
    if i > 0 {
      FirstDisconnectAt(msgs[1..], i - 1);
    }
  }

  // ---------------------------------------------------------------------
  // The cancel decision
  // ---------------------------------------------------------------------

  /** One iteration of the loop over `done`: the application task sets the
      flag to False; the watcher sets it to True unless it is already
      False. */
  function FlagStep(flag: Option<bool>, t: Racer): Option<bool> {
    var f := if t == App then Some(false) else flag;
    if t == Watcher && f != Some(false) then Some(true) else f
  }

  /** The flag after the loop has visited `done` in order. */
  function FoldFlag(done: seq<Racer>): Option<bool> {
    if done == [] then None else FlagStep(FoldFlag(done[..|done| - 1]), done[|done| - 1])
  }

  /** Whatever order `done` is visited in, the flag ends False when the
      application is done, True when only the watcher is, None when
      neither is. */
  lemma {:induction false} FoldFlagSpec(done: seq<Racer>)
    ensures FoldFlag(done) == if App in done then Some(false) else if Watcher in done then Some(true) else None
  {
    if done != [] {
      var init := done[..|done| - 1];
      FoldFlagSpec(init);
      assert done == init + [done[|done| - 1]];
    }
  }

  /** The exception `await task` re-raises for a done racer. The
      application wrapper swallows `CancelledError`. */
  function Raises(t: Racer, appExc: Option<Exc>, watcherExc: Option<Exc>): (r: Option<Exc>)
    ensures t == App && appExc == Some(Exc.Cancelled) ==> r == None
    ensures t == Watcher ==> r == watcherExc
  {
    if t == App then (if appExc == Some(Exc.Cancelled) then None else appExc) else watcherExc
  }

  /** The racers not done, in the order they were created. */
  function Pending(done: seq<Racer>): (p: seq<Racer>)
    ensures Watcher in p <==> Watcher !in done
    ensures App in p <==> App !in done
  {
    (if Watcher in done then [] else [Watcher]) + (if App in done then [] else [App])
  }

  // ---------------------------------------------------------------------
  // The registry and the middleware
  // ---------------------------------------------------------------------

  class Supervisor {
    /** `_REQUEST_TASK`. */
    var registry: map<RequestId, seq<TaskRef>>
    /** `_REQUEST_ID`. */
    var current: Option<RequestId>
    /** Every `task.cancel()` issued on a supervised task, in order. */
    var cancelLog: seq<TaskRef>

    constructor()
      ensures registry == map[] && current == None && cancelLog == []
    {
      registry := map[];
      current := None;
      cancelLog := [];
    }

    /** `supervise_tasks`: extends the current request's list only if its
        id is registered; otherwise nothing changes. */
    method SuperviseTasks(tasks: seq<TaskRef>)
      modifies this
      ensures current.Some? && current.value in old(registry) ==>
        registry == old(registry)[current.value := old(registry)[current.value] + tasks]
      ensures !(current.Some? && current.value in old(registry)) ==> registry == old(registry)
      ensures current == old(current) && cancelLog == old(cancelLog)
    {
      if current.Some? && current.value in registry {
        registry := registry[current.value := registry[current.value] + tasks];
      }
    }

    /** `cancel_tasks`: False, with nothing changed, when no request id
        is current; otherwise every task registered for it is cancelled in
        list order, the entry is removed and the result is True. The entry
        must exist: a missing one raises `KeyError`, so a second call for
        the same request raises. */
    method CancelTasks() returns (r: Result<bool, KeyError>)
      modifies this
      ensures current == old(current)
      ensures current.None? ==> r == Ok(false)
      ensures current.Some? && current.value !in old(registry) ==> r == Err(KeyError(current.value))
      ensures current.Some? && current.value in old(registry) ==>
        (r == Ok(true)
         && registry == old(registry) - {current.value}
         && cancelLog == old(cancelLog) + old(registry)[current.value])
      ensures !(current.Some? && current.value in old(registry)) ==>
        registry == old(registry) && cancelLog == old(cancelLog)
    {
      if current.None? {
        return Ok(false);
      }
      var id := current.value;
      if id !in registry {
        return Err(KeyError(id));
      }
      var target := registry[id];
      for k := 0 to |target|
        invariant cancelLog == old(cancelLog) + target[..k]
        invariant registry == old(registry) && current == old(current)
      {
        cancelLog := cancelLog + [target[k]];
        assert target[..k + 1] == target[..k] + [target[k]];
      }
      assert target[..|target|] == target;
      registry := registry - {id};
      r := Ok(true);
    }

    /** `SuperviseTaskMiddleware.__call__`. A non-http scope goes straight
        to the application. An http request gets the id "req_id_" + uuid,
        registered with an empty list and made current; the application
        supervises `appTasks` while it runs. When the race is over, `done`
        is visited in the given order: the cancel flag is updated and
        each done task is awaited, so the first one that raised (a
        `CancelledError` of the application excepted) propagates, leaving
        the id current and the entry in place. Otherwise the request's
        tasks are cancelled when the flag is True, the pending racer is
        cancelled, and the current id is reset. Only `cancel_tasks`
        removes an entry: a request that completes normally keeps it. */
    method Call(scopeType: string, uuid: string, appTasks: seq<TaskRef>, done: seq<Racer>,
                appExc: Option<Exc>, watcherExc: Option<Exc>)
      returns (r: Result<Served, Exc>)
      requires 1 <= |done| <= 2 && (|done| == 2 ==> done[0] != done[1])
      modifies this
      ensures scopeType != "http" ==>
        (r == (if appExc.Some? then Err(appExc.value) else Ok(PassedThrough))
         && registry == old(registry) && current == old(current) && cancelLog == old(cancelLog))
      ensures scopeType == "http" ==>
        var id := "req_id_" + uuid;
        && (r.Err? <==> exists k :: 0 <= k < |done| && Raises(done[k], appExc, watcherExc).Some?)
        && (r.Err? ==> exists k :: (0 <= k < |done| && Raises(done[k], appExc, watcherExc) == Some(r.error)
                                    && forall j :: 0 <= j < k ==> Raises(done[j], appExc, watcherExc).None?))
        && (r.Err? ==> current == Some(id) && registry == old(registry)[id := appTasks]
                       && cancelLog == old(cancelLog))
        && (r.Ok? ==> r.value.Served? && current == old(current)
                      && (r.value.cancelFlag <==> Watcher in done && App !in done)
                      && r.value.cancelledRacers == Pending(done))
        && (r.Ok? && r.value.cancelFlag ==>
              registry == old(registry) - {id} && cancelLog == old(cancelLog) + appTasks)
        && (r.Ok? && !r.value.cancelFlag ==>
              registry == old(registry)[id := appTasks] && cancelLog == old(cancelLog))
    {
      if scopeType != "http" {
        return if appExc.Some? then Err(appExc.value) else Ok(PassedThrough);
      }
      var id := "req_id_" + uuid;
      var token := current;
      current := Some(id);
      registry := registry[id := []];
      SuperviseTasks(appTasks);
      assert [] + appTasks == appTasks;
      assert registry == old(registry)[id := appTasks];

      var flag: Option<bool> := None;
      for k := 0 to |done|
        invariant flag == FoldFlag(done[..k])
        invariant forall j :: 0 <= j < k ==> Raises(done[j], appExc, watcherExc).None?
        invariant current == Some(id) && registry == old(registry)[id := appTasks]
        invariant cancelLog == old(cancelLog)
      {
        assert done[..k + 1][..k] == done[..k];
        flag := FlagStep(flag, done[k]);
        var exc := Raises(done[k], appExc, watcherExc);
        if exc.Some? {
          return Err(exc.value);
        }
      }
      assert done[..|done|] == done;
      FoldFlagSpec(done);
      var cancel := flag == Some(true);
      if cancel {
        var _ := CancelTasks();
      }
      current := token;
      r := Ok(Served(cancel, Pending(done)));
    }
  }
}
