/** The test dependency tree of the test suite. Test functions register
    themselves, with the functions they depend on, under their identity
    `id(func)`. `build` walks every registered task towards its
    dependencies and builds one node per function: a dependency's node
    gets the dependent's node as a son, `degree` counts visits, and the
    dependency-free tasks become the ancestors. `execute` runs each
    ancestor's chain in preorder over the sons. */
module TestTree {
  import opened Base

  /** `id(func)`: the identity a test function is registered under. */
  type FuncId = nat

  /** A test function: its identity and its `__name__`. */
  datatype TestFunc = TestFunc(id: FuncId, name: string)

  /** `_TestTask`; dependencies are kept by identity. */
  datatype TestTask = TestTask(tag: string, func: TestFunc, dependencies: seq<FuncId>)

  /** `_TestNode`; a son is referred to by the identity of its function. */
  datatype Node = Node(name: string, func: TestFunc, sons: seq<FuncId>, degree: nat, executed: bool)

  /** `KeyError` from looking up an unregistered dependency. */
  datatype KeyError = KeyError(key: FuncId)

  type Tasks = map<FuncId, TestTask>

  function Ids(fs: seq<TestFunc>): (ids: seq<FuncId>)
    ensures |ids| == |fs| && forall i :: 0 <= i < |fs| ==> ids[i] == fs[i].id
  {
    if fs == [] then [] else [fs[0].id] + Ids(fs[1..])
  }

  /** Every task is registered under its own function's identity. */
  ghost predicate WellKeyed(tasks: Tasks) {
    forall k :: k in tasks ==> tasks[k].func.id == k
  }

  /** `rank` orders the registered tasks so that every registered
      dependency ranks below its dependent, all below `bound`: the
      dependency graph has no cycle. */
  ghost predicate Acyclic(tasks: Tasks, rank: map<FuncId, nat>, bound: nat) {
    && (forall k :: k in tasks ==> k in rank && rank[k] < bound)
    && (forall k, d :: k in tasks && d in tasks[k].dependencies && d in tasks ==> rank[d] < rank[k])
  }

  // ---------------------------------------------------------------------
  // Registration
  // ---------------------------------------------------------------------

  /** `_ALL_TASK`: a dictionary, so its keys keep their first insertion
      order. */
  class Registry {
    var order: seq<FuncId>
    var tasks: Tasks

    ghost predicate Valid()
      reads this
    {
      && NoDup(order)
      && (forall k :: k in order <==> k in tasks)
      && WellKeyed(tasks)
    }

    constructor()
      ensures Valid() && order == [] && tasks == map[]
    {
      order := [];
      tasks := map[];
    }

    /** `test_task(tag, dependencies=...)` applied to `func`: registers
        the task under the function's identity, replacing an earlier
        registration of the same function in place, and returns the
        function unchanged. A missing dependency list is the empty one. */
    method Register(tag: string, dependencies: Option<seq<TestFunc>>, func: TestFunc) returns (f: TestFunc)
      requires Valid()
      modifies this
      ensures Valid()
      ensures f == func
      ensures tasks == old(tasks)[func.id := TestTask(tag, func, if dependencies.Some? then Ids(dependencies.value) else [])]
      ensures order == if func.id in old(tasks) then old(order) else old(order) + [func.id]
    {
      var deps := if dependencies.Some? then Ids(dependencies.value) else [];
      if func.id !in tasks {
        order := order + [func.id];
      }
      tasks := tasks[func.id := TestTask(tag, func, deps)];
      f := func;
    }
  }

  // ---------------------------------------------------------------------
  // The walk `build` performs
  // ---------------------------------------------------------------------

  /** One call `_dfs(tasks[key], son)`: the function visited and, when
      the call comes from a dependent, that dependent's function. */
  datatype Visit = Visit(key: FuncId, son: Option<FuncId>)

  /** The functions visited by a log of calls, in order. */
  function Keys(log: seq<Visit>): (ks: seq<FuncId>)
    ensures |ks| == |log| && forall i :: 0 <= i < |log| ==> ks[i] == log[i].key
  {
    if log == [] then [] else Keys(log[..|log| - 1]) + [log[|log| - 1].key]
  }

  /** The calls `_dfs(tasks[key], son)` makes, in call order: itself,
      then for each dependency in list order the calls of its walk from
      `key`. A dependency that is not registered fails the lookup. */
  ghost function Walk(tasks: Tasks, rank: map<FuncId, nat>, bound: nat, key: FuncId, son: Option<FuncId>): (r: Result<seq<Visit>, KeyError>)
    requires Acyclic(tasks, rank, bound) && key in tasks
    decreases rank[key], 1
    ensures r.Ok? ==> r.value != [] && r.value[0] == Visit(key, son)
    ensures r.Ok? ==> forall v :: v in r.value ==> v.key in tasks
    ensures r.Err? ==> r.error.key !in tasks
  {
    Then(Ok([Visit(key, son)]), WalkAll(tasks, rank, bound, tasks[key].dependencies, rank[key], Some(key)))
  }

  /** The walks of `keys` from `son`, one after the other; `low` bounds
      their ranks. Every key of `keys` is called from `son`. */
  ghost function WalkAll(tasks: Tasks, rank: map<FuncId, nat>, bound: nat, keys: seq<FuncId>, low: nat, son: Option<FuncId>): (r: Result<seq<Visit>, KeyError>)
    requires Acyclic(tasks, rank, bound)
    requires forall d :: d in keys && d in tasks ==> rank[d] < low
    decreases low, 0, |keys|
    ensures r.Ok? ==> forall v :: v in r.value ==> v.key in tasks
    ensures r.Ok? ==> forall k :: k in keys ==> k in tasks && Visit(k, son) in r.value
    ensures r.Err? ==> r.error.key !in tasks
  {
    if keys == [] then Ok([])
    else if keys[0] !in tasks then Err(KeyError(keys[0]))
    else Then(Walk(tasks, rank, bound, keys[0], son), WalkAll(tasks, rank, bound, keys[1..], low, son))
  }


  /** Position of the first occurrence of `x` in `s`. */
  function FirstIndex<T(==)>(s: seq<T>, x: T): (i: nat)
    requires x in s
    ensures i < |s| && s[i] == x && x !in s[..i]
  {
    if s[0] == x then 0 else 1 + FirstIndex(s[1..], x)
  }

  lemma {:induction false} FirstIndexAppend<T>(s: seq<T>, t: seq<T>, x: T)
    requires x in s
    ensures FirstIndex(s + t, x) == FirstIndex(s, x)
  {
    if s[0] != x {
      assert (s + t)[1..] == s[1..] + t;
      FirstIndexAppend(s[1..], t, x);
    }
  }

  lemma {:induction false} FirstIndexLast<T>(s: seq<T>, x: T)
    requires x !in s
    ensures FirstIndex(s + [x], x) == |s|
  {
    if s != [] {
      assert (s + [x])[1..] == s[1..] + [x];
      FirstIndexLast(s[1..], x);
    }
  }

  // ---------------------------------------------------------------------
  // What `build` keeps true
  // ---------------------------------------------------------------------

  /** A node built for `task` after `n` visits. */
  ghost predicate NodeOk(task: TestTask, node: Node, n: nat) {
    && node.func == task.func
    && node.name == task.tag + ": " + task.func.name
    && node.degree == n
    && !node.executed
    && NoDup(node.sons)
  }

  /** One node per function visited, with `degree` its number of visits. */
  ghost predicate NodesOk(tasks: Tasks, nodes: map<FuncId, Node>, visits: seq<FuncId>) {
    && (forall k :: k in nodes <==> k in visits)
    && (forall k :: k in nodes ==> k in tasks && NodeOk(tasks[k], nodes[k], Count(visits, k)))
  }

  /** A son of node `k` is a built node whose task depends on `k`. */
  ghost predicate SonsOk(tasks: Tasks, nodes: map<FuncId, Node>) {
    forall k, s :: k in nodes && s in nodes[k].sons ==> s in nodes && s in tasks && k in tasks[s].dependencies
  }

  /** The ancestors are the dependency-free functions visited, each
      once, in the order of their first visit. */
  ghost predicate AncestorsOk(tasks: Tasks, visits: seq<FuncId>, ancestors: seq<FuncId>) {
    && (forall k :: k in visits ==> k in tasks)
    && NoDup(ancestors)
    && (forall k :: k in ancestors <==> k in visits && tasks[k].dependencies == [])
    && (forall i, j :: 0 <= i < j < |ancestors| ==> FirstIndex(visits, ancestors[i]) < FirstIndex(visits, ancestors[j]))
  }

  /** `build`'s invariant over the values of `nodes`, the visits so far
      and `ancestors`. */
  ghost predicate TreeOk(tasks: Tasks, nodes: map<FuncId, Node>, visits: seq<FuncId>, ancestors: seq<FuncId>) {
    NodesOk(tasks, nodes, visits) && SonsOk(tasks, nodes) && AncestorsOk(tasks, visits, ancestors)
  }

  ghost predicate GrownFrom(before: map<FuncId, Node>, after: map<FuncId, Node>) {
    forall k :: k in before ==> k in after && before[k].sons <= after[k].sons
  }

  /** The node `_dfs` leaves for `key` after one more visit with `son`. */
  ghost function Revisited(tasks: Tasks, nodes: map<FuncId, Node>, key: FuncId, son: Option<FuncId>): Node
    requires key in tasks
  {
    var n := if key in nodes then nodes[key]
             else Node(tasks[key].tag + ": " + tasks[key].func.name, tasks[key].func, [], 0, false);
    n.(degree := n.degree + 1,
       sons := if son.Some? && son.value !in n.sons then n.sons + [son.value] else n.sons)
  }

  lemma RevisitedSons(tasks: Tasks, nodes: map<FuncId, Node>, key: FuncId, son: Option<FuncId>)
    requires SonsOk(tasks, nodes) && key in tasks
    requires son.Some? ==> son.value in nodes && son.value in tasks && key in tasks[son.value].dependencies
    ensures forall s :: s in Revisited(tasks, nodes, key, son).sons ==>
      s in nodes && s in tasks && key in tasks[s].dependencies
  {
    var sons0 := if key in nodes then nodes[key].sons else [];
    var sons := Revisited(tasks, nodes, key, son).sons;
    assert sons == sons0 || (son.Some? && sons == sons0 + [son.value]);
    forall s | s in sons
      ensures s in nodes && s in tasks && key in tasks[s].dependencies
    {
      if s in sons0 {
        assert key in nodes && s in nodes[key].sons;
      } else {
        assert s == son.value;
      }
    }
  }

  lemma NodesStep(tasks: Tasks, nodes: map<FuncId, Node>, visits: seq<FuncId>, key: FuncId, node: Node)
    requires NodesOk(tasks, nodes, visits) && key in tasks
    requires NodeOk(tasks[key], node, Count(visits, key) + 1)
    ensures NodesOk(tasks, nodes[key := node], visits + [key])
  {
    var visits' := visits + [key];
    assert visits'[..|visits'| - 1] == visits;
    forall k | k in nodes && k != key
      ensures Count(visits', k) == Count(visits, k)
    {
    }
  }

  lemma SonsStep(tasks: Tasks, nodes: map<FuncId, Node>, key: FuncId, node: Node)
    requires SonsOk(tasks, nodes)
    requires forall s :: s in node.sons ==> s in nodes && s in tasks && key in tasks[s].dependencies
    ensures SonsOk(tasks, nodes[key := node])
  {
  }

  lemma AncestorsKept(tasks: Tasks, visits: seq<FuncId>, ancestors: seq<FuncId>, key: FuncId)
    requires AncestorsOk(tasks, visits, ancestors) && key in tasks
    requires tasks[key].dependencies != [] || key in ancestors
    ensures AncestorsOk(tasks, visits + [key], ancestors)
  {
    forall k | k in ancestors
      ensures FirstIndex(visits + [key], k) == FirstIndex(visits, k)
    {
      FirstIndexAppend(visits, [key], k);
    }
  }

  lemma AncestorsGrow(tasks: Tasks, visits: seq<FuncId>, ancestors: seq<FuncId>, key: FuncId)
    requires AncestorsOk(tasks, visits, ancestors) && key in tasks
    requires tasks[key].dependencies == [] && key !in ancestors
    ensures AncestorsOk(tasks, visits + [key], ancestors + [key])
  {
    var visits', ancestors' := visits + [key], ancestors + [key];
    assert key !in visits;
    FirstIndexLast(visits, key);
    forall k | k in ancestors
      ensures FirstIndex(visits', k) == FirstIndex(visits, k) < |visits|
    {
      FirstIndexAppend(visits, [key], k);
    }
    forall i, j | 0 <= i < j < |ancestors'|
      ensures FirstIndex(visits', ancestors'[i]) < FirstIndex(visits', ancestors'[j])
    {
      assert ancestors'[i] in ancestors;
      if j < |ancestors| {
        assert ancestors'[j] in ancestors;
      }
    }
  }

  // ---------------------------------------------------------------------
  // `build`, as a specification
  // ---------------------------------------------------------------------

  /** The dictionaries `_dfs` mutates: `nodes` and `ancestors`. */
  datatype Building = Building(nodes: map<FuncId, Node>, ancestors: seq<FuncId>)

  /** The dictionaries after the body of `_dfs(tasks[key], son)` up to its
      recursion. */
  ghost function Revisit(tasks: Tasks, b: Building, key: FuncId, son: Option<FuncId>): Building {
    if key !in tasks then b
    else Building(b.nodes[key := Revisited(tasks, b.nodes, key, son)],
                  if tasks[key].dependencies == [] && key !in b.ancestors then b.ancestors + [key] else b.ancestors)
  }

  // ---------------------------------------------------------------------
  // Replaying a walk
  // ---------------------------------------------------------------------

  const Empty := Building(map[], [])

  /** The dictionaries after the calls of `log`, each run up to its
      recursion, one after the other. */
  ghost function Replay(tasks: Tasks, b: Building, log: seq<Visit>): Building {
    if log == [] then b
    else Revisit(tasks, Replay(tasks, b, log[..|log| - 1]), log[|log| - 1].key, log[|log| - 1].son)
  }

  lemma {:induction false} ReplayAppend(tasks: Tasks, b: Building, l1: seq<Visit>, l2: seq<Visit>)
    ensures Replay(tasks, b, l1 + l2) == Replay(tasks, Replay(tasks, b, l1), l2)
  {
    if l2 == [] {
      assert l1 + l2 == l1;
    } else {
      var init := l2[..|l2| - 1];
      assert (l1 + l2)[..|l1 + l2| - 1] == l1 + init;
      ReplayAppend(tasks, b, l1, init);
    }
  }

  lemma ReplayOne(tasks: Tasks, b: Building, v: Visit)
    ensures Replay(tasks, b, [v]) == Revisit(tasks, b, v.key, v.son)
  {
    assert [v][..0] == [];
  }

  lemma KeysAppend(a: seq<Visit>, b: seq<Visit>)
    ensures Keys(a + b) == Keys(a) + Keys(b)
  {
    var l, r := Keys(a + b), Keys(a) + Keys(b);
    forall i | 0 <= i < |l|
      ensures l[i] == r[i]
    {
      if i < |a| {
        assert l[i] == (a + b)[i].key == a[i].key;
      } else {
        assert l[i] == (a + b)[i].key == b[i - |a|].key;
      }
    }
  }

  /** The keys of the calls of `log`, as a set. */
  ghost function KeySet(log: seq<Visit>): (ks: set<FuncId>)
    ensures forall v :: v in log ==> v.key in ks
  {
    if log == [] then {} else {log[0].key} + KeySet(log[1..])
  }

  /** Each call of `log` made from a dependent comes after a visit of that
      dependent (one in `seen` or earlier in `log`) and goes to one of its
      dependencies. */
  ghost predicate SonsFrom(tasks: Tasks, seen: set<FuncId>, log: seq<Visit>)
    decreases |log|
  {
    log != [] ==>
      && (log[0].son.Some? ==>
            && log[0].son.value in seen
            && log[0].son.value in tasks
            && log[0].key in tasks[log[0].son.value].dependencies)
      && SonsFrom(tasks, seen + {log[0].key}, log[1..])
  }

  lemma {:induction false} SonsFromWiden(tasks: Tasks, seen: set<FuncId>, more: set<FuncId>, log: seq<Visit>)
    requires SonsFrom(tasks, seen, log) && seen <= more
    decreases |log|
    ensures SonsFrom(tasks, more, log)
  {
    if log != [] {
      SonsFromWiden(tasks, seen + {log[0].key}, more + {log[0].key}, log[1..]);
    }
  }

  lemma {:induction false} SonsFromConcat(tasks: Tasks, seen: set<FuncId>, l1: seq<Visit>, l2: seq<Visit>)
    requires SonsFrom(tasks, seen, l1)
    requires SonsFrom(tasks, seen + KeySet(l1), l2)
    decreases |l1|
    ensures SonsFrom(tasks, seen, l1 + l2)
  {
    if l1 == [] {
      assert seen + KeySet(l1) == seen;
      assert l1 + l2 == l2;
    } else {
      assert (l1 + l2)[0] == l1[0];
      assert (l1 + l2)[1..] == l1[1..] + l2;
      assert (seen + {l1[0].key}) + KeySet(l1[1..]) == seen + KeySet(l1);
      SonsFromConcat(tasks, seen + {l1[0].key}, l1[1..], l2);
    }
  }

  /** The calls of a walk are made from dependents visited before them
      (or, for the first, from `son`), towards their dependencies. */
  lemma {:induction false} WalkSonsFrom(tasks: Tasks, rank: map<FuncId, nat>, bound: nat, seen: set<FuncId>,
                                        key: FuncId, son: Option<FuncId>)
    requires Acyclic(tasks, rank, bound) && key in tasks
    requires son.Some? ==> son.value in seen && son.value in tasks && key in tasks[son.value].dependencies
    requires Walk(tasks, rank, bound, key, son).Ok?
    decreases rank[key], 1
    ensures SonsFrom(tasks, seen, Walk(tasks, rank, bound, key, son).value)
  {
    var log := Walk(tasks, rank, bound, key, son).value;
    var rest := WalkAll(tasks, rank, bound, tasks[key].dependencies, rank[key], Some(key)).value;
    assert log == [Visit(key, son)] + rest;
    assert log[1..] == rest;
    WalkAllSonsFrom(tasks, rank, bound, seen + {key}, tasks[key].dependencies, rank[key], Some(key));
  }

  lemma {:induction false} WalkAllSonsFrom(tasks: Tasks, rank: map<FuncId, nat>, bound: nat, seen: set<FuncId>,
                                           keys: seq<FuncId>, low: nat, son: Option<FuncId>)
    requires Acyclic(tasks, rank, bound)
    requires forall d :: d in keys && d in tasks ==> rank[d] < low
    requires son.Some? ==> son.value in seen && son.value in tasks && forall d :: d in keys ==> d in tasks[son.value].dependencies
    requires WalkAll(tasks, rank, bound, keys, low, son).Ok?
    decreases low, 0, |keys|
    ensures SonsFrom(tasks, seen, WalkAll(tasks, rank, bound, keys, low, son).value)
  {
    if keys != [] {
      var first := Walk(tasks, rank, bound, keys[0], son).value;
      var rest := WalkAll(tasks, rank, bound, keys[1..], low, son).value;
      WalkSonsFrom(tasks, rank, bound, seen, keys[0], son);
      WalkAllSonsFrom(tasks, rank, bound, seen, keys[1..], low, son);
      SonsFromWiden(tasks, seen, seen + KeySet(first), rest);
      SonsFromConcat(tasks, seen, first, rest);
    }
  }

  /** Every dependency edge out of `keys` is walked: `_dfs` is called on
      each dependency `d` of a key `k` with `k`'s node as the son. */
  lemma {:induction false} WalkAllEdges(tasks: Tasks, rank: map<FuncId, nat>, bound: nat,
                                        keys: seq<FuncId>, low: nat, son: Option<FuncId>)
    requires Acyclic(tasks, rank, bound)
    requires forall d :: d in keys && d in tasks ==> rank[d] < low
    requires WalkAll(tasks, rank, bound, keys, low, son).Ok?
    ensures forall k, d :: k in keys && k in tasks && d in tasks[k].dependencies ==>
      Visit(d, Some(k)) in WalkAll(tasks, rank, bound, keys, low, son).value
  {
    if keys != [] {
      var k := keys[0];
      var first := Walk(tasks, rank, bound, k, son).value;
      var below := WalkAll(tasks, rank, bound, tasks[k].dependencies, rank[k], Some(k)).value;
      var rest := WalkAll(tasks, rank, bound, keys[1..], low, son).value;
      assert first == [Visit(k, son)] + below;
      assert WalkAll(tasks, rank, bound, keys, low, son).value == first + rest;
      WalkAllEdges(tasks, rank, bound, keys[1..], low, son);
    }
  }

  /** One more call keeps `build`'s invariant. */
  lemma RevisitOk(tasks: Tasks, b: Building, visits: seq<FuncId>, key: FuncId, son: Option<FuncId>)
    requires TreeOk(tasks, b.nodes, visits, b.ancestors) && key in tasks
    requires son.Some? ==> son.value in visits && son.value in tasks && key in tasks[son.value].dependencies
    ensures TreeOk(tasks, Revisit(tasks, b, key, son).nodes, visits + [key], Revisit(tasks, b, key, son).ancestors)
  {
    var node := Revisited(tasks, b.nodes, key, son);
    if key !in b.nodes {
      CountZero(visits, key);
    }
    assert NoDup(node.sons);
    NodesStep(tasks, b.nodes, visits, key, node);
    RevisitedSons(tasks, b.nodes, key, son);
    SonsStep(tasks, b.nodes, key, node);
    if tasks[key].dependencies == [] && key !in b.ancestors {
      AncestorsGrow(tasks, visits, b.ancestors, key);
    } else {
      AncestorsKept(tasks, visits, b.ancestors, key);
    }
  }

  /** Replaying a log whose calls come from earlier visits keeps
      `build`'s invariant. */
  lemma {:induction false} ReplayOk(tasks: Tasks, b: Building, visits: seq<FuncId>, seen: set<FuncId>, log: seq<Visit>)
    requires TreeOk(tasks, b.nodes, visits, b.ancestors)
    requires forall v :: v in log ==> v.key in tasks
    requires forall k :: k in seen ==> k in visits
    requires SonsFrom(tasks, seen, log)
    decreases |log|
    ensures TreeOk(tasks, Replay(tasks, b, log).nodes, visits + Keys(log), Replay(tasks, b, log).ancestors)
  {
    if log == [] {
      assert visits + Keys(log) == visits;
    } else {
      var v, rest := log[0], log[1..];
      assert log == [v] + rest;
      RevisitOk(tasks, b, visits, v.key, v.son);
      var b1 := Revisit(tasks, b, v.key, v.son);
      ReplayOk(tasks, b1, visits + [v.key], seen + {v.key}, rest);
      ReplayOne(tasks, b, v);
      ReplayAppend(tasks, b, [v], rest);
      KeysAppend([v], rest);
      assert Keys([v]) == [v.key];
      ConcatAssoc(visits, [v.key], Keys(rest));
    }
  }

  /** Every call made with a son leaves that son among the sons of the
      node it visited. */
  ghost predicate Records(nodes: map<FuncId, Node>, log: seq<Visit>) {
    forall i :: 0 <= i < |log| && log[i].son.Some? ==>
      log[i].key in nodes && log[i].son.value in nodes[log[i].key].sons
  }

  lemma RevisitGrows(tasks: Tasks, b: Building, key: FuncId, son: Option<FuncId>)
    requires key in tasks
    ensures GrownFrom(b.nodes, Revisit(tasks, b, key, son).nodes)
    ensures key in Revisit(tasks, b, key, son).nodes
    ensures son.Some? ==> son.value in Revisit(tasks, b, key, son).nodes[key].sons
  {
  }

  /** Sons are only ever added: replaying a log records the son of each
      of its calls. */
  lemma {:induction false} ReplayRecords(tasks: Tasks, b: Building, log: seq<Visit>)
    requires forall v :: v in log ==> v.key in tasks
    ensures GrownFrom(b.nodes, Replay(tasks, b, log).nodes)
    ensures Records(Replay(tasks, b, log).nodes, log)
  {
    if log != [] {
      var n := |log| - 1;
      var init := log[..n];
      ReplayRecords(tasks, b, init);
      var mid := Replay(tasks, b, init);
      var after := Replay(tasks, b, log);
      RevisitGrows(tasks, mid, log[n].key, log[n].son);
      forall i | 0 <= i < |log| && log[i].son.Some?
        ensures log[i].key in after.nodes && log[i].son.value in after.nodes[log[i].key].sons
      {
        if i < n {
          assert log[i] == init[i];
          assert log[i].key in mid.nodes && log[i].son.value in mid.nodes[log[i].key].sons;
        }
      }
    }
  }

  /** The walk of `key` goes on with its dependencies after its own call. */
  lemma WalkFirst(tasks: Tasks, rank: map<FuncId, nat>, bound: nat, key: FuncId, son: Option<FuncId>)
    requires Acyclic(tasks, rank, bound) && key in tasks
    ensures Walk(tasks, rank, bound, key, son)
      == Then(Ok([Visit(key, son)]), WalkAll(tasks, rank, bound, tasks[key].dependencies[0..], rank[key], Some(key)))
  {
    assert tasks[key].dependencies[0..] == tasks[key].dependencies;
  }

  /** Walking the `i`-th dependency of `key` after the calls `acc`. */
  lemma WalkNext(tasks: Tasks, rank: map<FuncId, nat>, bound: nat, key: FuncId, son: Option<FuncId>,
                 i: nat, acc: seq<Visit>) returns (sub: Result<seq<Visit>, KeyError>)
    requires Acyclic(tasks, rank, bound) && key in tasks && i < |tasks[key].dependencies|
    requires Walk(tasks, rank, bound, key, son)
      == Then(Ok(acc), WalkAll(tasks, rank, bound, tasks[key].dependencies[i..], rank[key], Some(key)))
    ensures var dep := tasks[key].dependencies[i];
      && (dep !in tasks ==> Walk(tasks, rank, bound, key, son) == Err(KeyError(dep)))
      && (dep in tasks ==> rank[dep] < rank[key] && sub == Walk(tasks, rank, bound, dep, Some(key)))
      && (dep in tasks && sub.Err? ==> Walk(tasks, rank, bound, key, son) == Err(sub.error))
      && (dep in tasks && sub.Ok? ==>
            Walk(tasks, rank, bound, key, son)
            == Then(Ok(acc + sub.value), WalkAll(tasks, rank, bound, tasks[key].dependencies[i + 1..], rank[key], Some(key))))
  {
    var deps := tasks[key].dependencies;
    assert deps[i..][1..] == deps[i + 1..];
    if deps[i] in tasks {
      sub := Walk(tasks, rank, bound, deps[i], Some(key));
      ThenAssoc(Ok(acc), sub, WalkAll(tasks, rank, bound, deps[i + 1..], rank[key], Some(key)));
    } else {
      sub := Ok([]);
    }
  }

  /** After the last dependency the walk is complete. */
  lemma WalkLast(tasks: Tasks, rank: map<FuncId, nat>, bound: nat, key: FuncId, son: Option<FuncId>, acc: seq<Visit>)
    requires Acyclic(tasks, rank, bound) && key in tasks
    requires Walk(tasks, rank, bound, key, son)
      == Then(Ok(acc), WalkAll(tasks, rank, bound, tasks[key].dependencies[|tasks[key].dependencies|..], rank[key], Some(key)))
    ensures Walk(tasks, rank, bound, key, son) == Ok(acc)
  {
    assert tasks[key].dependencies[|tasks[key].dependencies|..] == [];
    ThenEnd<Visit, KeyError>(acc);
  }

  /** The walk of `keys`, from its first key. */
  lemma WalkAllStart(tasks: Tasks, rank: map<FuncId, nat>, bound: nat, keys: seq<FuncId>, low: nat, son: Option<FuncId>)
    requires Acyclic(tasks, rank, bound)
    requires forall d :: d in keys && d in tasks ==> rank[d] < low
    ensures WalkAll(tasks, rank, bound, keys, low, son) == Then(Ok([]), WalkAll(tasks, rank, bound, keys[0..], low, son))
  {
    assert keys[0..] == keys;
    ThenUnit(WalkAll(tasks, rank, bound, keys, low, son));
  }

  /** Walking the `i`-th of `keys`, a registered one, after the calls `acc`. */
  lemma WalkAllNext(tasks: Tasks, rank: map<FuncId, nat>, bound: nat, keys: seq<FuncId>, low: nat, son: Option<FuncId>,
                    i: nat, acc: seq<Visit>) returns (sub: Result<seq<Visit>, KeyError>)
    requires Acyclic(tasks, rank, bound) && i < |keys| && keys[i] in tasks
    requires forall d :: d in keys && d in tasks ==> rank[d] < low
    requires WalkAll(tasks, rank, bound, keys, low, son)
      == Then(Ok(acc), WalkAll(tasks, rank, bound, keys[i..], low, son))
    ensures sub == Walk(tasks, rank, bound, keys[i], son)
    ensures sub.Err? ==> WalkAll(tasks, rank, bound, keys, low, son) == Err(sub.error)
    ensures sub.Ok? ==> (WalkAll(tasks, rank, bound, keys, low, son)
                         == Then(Ok(acc + sub.value), WalkAll(tasks, rank, bound, keys[i + 1..], low, son)))
  {
    assert keys[i..][1..] == keys[i + 1..];
    assert keys[i..][0] == keys[i];
    sub := Walk(tasks, rank, bound, keys[i], son);
    ThenAssoc(Ok(acc), sub, WalkAll(tasks, rank, bound, keys[i + 1..], low, son));
  }

  // ---------------------------------------------------------------------
  // `build`
  // ---------------------------------------------------------------------

  /** The closure of `build`: the registered tasks and the dictionaries
      `nodes` and `ancestors` that `_dfs` mutates. */
  class Builder {
    const tasks: Tasks
    var nodes: map<FuncId, Node>
    var ancestors: seq<FuncId>

    ghost function State(): Building
      reads this
    {
      Building(nodes, ancestors)
    }

    constructor(tasks: Tasks)
      ensures this.tasks == tasks && State() == Empty
    {
      this.tasks := tasks;
      nodes := map[];
      ancestors := [];
    }

    /** `_dfs(tasks[key], son)`: counts the visit on the (possibly new)
        node, records `son`, records a dependency-free task as an
        ancestor, then walks the dependencies from this node. It fails
        with the walk's lookup error, and otherwise leaves the
        dictionaries as the replay of the walk's calls. */
    method Dfs(ghost rank: map<FuncId, nat>, ghost bound: nat, key: FuncId, son: Option<FuncId>)
      returns (error: Option<KeyError>)
      requires Acyclic(tasks, rank, bound) && key in tasks
      modifies this
      decreases rank[key]
      ensures error.None? <==> Walk(tasks, rank, bound, key, son).Ok?
      ensures error.Some? ==> Walk(tasks, rank, bound, key, son) == Err(error.value)
      ensures error.None? ==> State() == Replay(tasks, old(State()), Walk(tasks, rank, bound, key, son).value)
    {
      var node := if key in nodes then nodes[key]
                  else Node(tasks[key].tag + ": " + tasks[key].func.name, tasks[key].func, [], 0, false);
      node := node.(degree := node.degree + 1);
      if son.Some? && son.value !in node.sons {
        node := node.(sons := node.sons + [son.value]);
      }
      nodes := nodes[key := node];
      if tasks[key].dependencies == [] && key !in ancestors {
        ancestors := ancestors + [key];
      }
      ReplayOne(tasks, old(State()), Visit(key, son));
      var deps := tasks[key].dependencies;
      ghost var acc := [Visit(key, son)];
      WalkFirst(tasks, rank, bound, key, son);
      for i := 0 to |deps|
        invariant Walk(tasks, rank, bound, key, son)
          == Then(Ok(acc), WalkAll(tasks, rank, bound, deps[i..], rank[key], Some(key)))
        invariant State() == Replay(tasks, old(State()), acc)
      {
        var dep := deps[i];
        ghost var sub := WalkNext(tasks, rank, bound, key, son, i, acc);
        if dep !in tasks {
          return Some(KeyError(dep));
        }
        var e := Dfs(rank, bound, dep, Some(key));
        if e.Some? {
          return e;
        }
        ReplayAppend(tasks, old(State()), acc, sub.value);
        acc := acc + sub.value;
      }
      WalkLast(tasks, rank, bound, key, son, acc);
      error := None;
    }
  }

  /** `TestTree.build(all_test)`: calls `_dfs` on every registered task
      in registration order. It fails with the first unregistered
      dependency met, and otherwise returns the tree of the replay of the
      walks' calls. Cyclic dependencies would recurse without end, so a
      ranking that orders them is required. */
  method Build(reg: Registry, ghost rank: map<FuncId, nat>, ghost bound: nat) returns (r: Result<Tree, KeyError>)
    requires reg.Valid() && Acyclic(reg.tasks, rank, bound)
    ensures r.Err? <==> WalkAll(reg.tasks, rank, bound, reg.order, bound, None).Err?
    ensures r.Err? ==> WalkAll(reg.tasks, rank, bound, reg.order, bound, None) == Err(r.error)
    ensures r.Ok? ==> fresh(r.value) && r.value.calls == []
    ensures r.Ok? ==> (Building(r.value.nodes, r.value.ancestors)
                       == Replay(reg.tasks, Empty, WalkAll(reg.tasks, rank, bound, reg.order, bound, None).value))
  {
    var builder := new Builder(reg.tasks);
    var order := reg.order;
    ghost var done: seq<Visit> := [];
    WalkAllStart(reg.tasks, rank, bound, order, bound, None);
    for i := 0 to |order|
      invariant WalkAll(reg.tasks, rank, bound, order, bound, None)
        == Then(Ok(done), WalkAll(reg.tasks, rank, bound, order[i..], bound, None))
      invariant builder.tasks == reg.tasks && builder.State() == Replay(reg.tasks, Empty, done)
    {
      var key := order[i];
      ghost var sub := WalkAllNext(reg.tasks, rank, bound, order, bound, None, i, done);
      var e := builder.Dfs(rank, bound, key, None);
      if e.Some? {
        return Err(e.value);
      }
      ReplayAppend(reg.tasks, Empty, done, sub.value);
      done := done + sub.value;
    }
    assert order[|order|..] == [];
    ThenEnd<Visit, KeyError>(done);
    var tree := new Tree(builder.nodes, builder.ancestors);
    r := Ok(tree);
  }

  /** What `build` promises beyond its invariant: one node per
      registered function, each visited at least once; the sons of `d`
      are exactly the registered functions depending on `d`; the
      ancestors are exactly the dependency-free functions. */
  ghost predicate Complete(tasks: Tasks, nodes: map<FuncId, Node>, ancestors: seq<FuncId>) {
    && (forall k :: k in nodes <==> k in tasks)
    && (forall k :: k in nodes ==> nodes[k].degree >= 1)
    && (forall k :: k in ancestors <==> k in tasks && tasks[k].dependencies == [])
    && (forall d, t :: d in nodes && t in tasks ==> (t in nodes[d].sons <==> d in tasks[t].dependencies))
  }

  /** The invariant, once every registered function was visited and every
      dependency edge recorded, gives the complete tree. */
  lemma TreeComplete(tasks: Tasks, nodes: map<FuncId, Node>, visits: seq<FuncId>, ancestors: seq<FuncId>)
    requires TreeOk(tasks, nodes, visits, ancestors)
    requires forall k :: k in tasks ==> k in visits
    requires forall d, t :: t in tasks && d in tasks[t].dependencies && d in nodes ==> t in nodes[d].sons
    ensures Complete(tasks, nodes, ancestors)
  {
    forall k | k in nodes
      ensures nodes[k].degree >= 1
    {
      CountZero(visits, k);
    }
  }

  /** The recorded sons include every dependency edge walked. */
  lemma EdgesRecorded(tasks: Tasks, nodes: map<FuncId, Node>, log: seq<Visit>)
    requires Records(nodes, log)
    requires forall t, d :: t in tasks && d in tasks[t].dependencies ==> Visit(d, Some(t)) in log
    ensures forall d, t :: t in tasks && d in tasks[t].dependencies ==> d in nodes && t in nodes[d].sons
  {
    forall d, t | t in tasks && d in tasks[t].dependencies
      ensures d in nodes && t in nodes[d].sons
    {
      var i :| 0 <= i < |log| && log[i] == Visit(d, Some(t));
    }
  }

  /** The walk of the registered functions in registration order visits
      each of them. */
  lemma WalkVisitsAll(tasks: Tasks, rank: map<FuncId, nat>, bound: nat, order: seq<FuncId>)
    requires Acyclic(tasks, rank, bound) && (forall k :: k in order <==> k in tasks)
    requires WalkAll(tasks, rank, bound, order, bound, None).Ok?
    ensures forall k :: k in tasks ==> k in Keys(WalkAll(tasks, rank, bound, order, bound, None).value)
  {
    var log := WalkAll(tasks, rank, bound, order, bound, None).value;
    forall k | k in tasks
      ensures k in Keys(log)
    {
      var i :| 0 <= i < |log| && log[i] == Visit(k, None);
      assert Keys(log)[i] == k;
    }
  }

  /** What `build` returns when no lookup fails: its invariant over all
      the calls made, and the complete tree. */
  lemma BuildFacts(tasks: Tasks, rank: map<FuncId, nat>, bound: nat, order: seq<FuncId>)
    requires Acyclic(tasks, rank, bound) && (forall k :: k in order <==> k in tasks)
    requires WalkAll(tasks, rank, bound, order, bound, None).Ok?
    ensures var log := WalkAll(tasks, rank, bound, order, bound, None).value;
      var built := Replay(tasks, Empty, log);
      TreeOk(tasks, built.nodes, Keys(log), built.ancestors) && Complete(tasks, built.nodes, built.ancestors)
  {
    var log := WalkAll(tasks, rank, bound, order, bound, None).value;
    var built := Replay(tasks, Empty, log);
    WalkAllSonsFrom(tasks, rank, bound, {}, order, bound, None);
    ReplayOk(tasks, Empty, [], {}, log);
    assert [] + Keys(log) == Keys(log);
    ReplayRecords(tasks, Empty, log);
    WalkAllEdges(tasks, rank, bound, order, bound, None);
    EdgesRecorded(tasks, built.nodes, log);
    WalkVisitsAll(tasks, rank, bound, order);
    TreeComplete(tasks, built.nodes, Keys(log), built.ancestors);
  }

  // ---------------------------------------------------------------------
  // The tree
  // ---------------------------------------------------------------------

  /** `sons` lists the sons of every node. */
  ghost predicate HasSons(nodes: map<FuncId, Node>, sons: map<FuncId, seq<FuncId>>) {
    && (forall k :: k in nodes <==> k in sons)
    && (forall k :: k in nodes ==> nodes[k].sons == sons[k])
  }

  /** The sons of every node. */
  ghost function SonsOf(nodes: map<FuncId, Node>): (sons: map<FuncId, seq<FuncId>>)
    ensures HasSons(nodes, sons)
  {
    map k | k in nodes :: nodes[k].sons
  }

  /** Every son ranks above its node, all below `bound`: following sons
      ends. */
  ghost predicate SonsRanked(sons: map<FuncId, seq<FuncId>>, rank: map<FuncId, nat>, bound: nat) {
    && (forall k :: k in sons ==> k in rank && rank[k] < bound)
    && (forall k, j :: k in sons && 0 <= j < |sons[k]| ==> sons[k][j] in sons && rank[k] < rank[sons[k][j]])
  }

  /** The built sons follow the dependency ranking upwards, so running
      them ends. */
  lemma BuiltRanked(tasks: Tasks, rank: map<FuncId, nat>, bound: nat, nodes: map<FuncId, Node>)
    requires Acyclic(tasks, rank, bound) && SonsOk(tasks, nodes)
    requires forall k :: k in nodes ==> k in tasks
    ensures SonsRanked(SonsOf(nodes), rank, bound)
  {
    var sons := SonsOf(nodes);
    forall k, j | k in sons && 0 <= j < |sons[k]|
      ensures sons[k][j] in sons && rank[k] < rank[sons[k][j]]
    {
      assert sons[k][j] in nodes[k].sons;
    }
  }

  /** The calls a run makes and whether it ended without an exception. */
  datatype Trace = Trace(calls: seq<FuncId>, ok: bool)

  /** Running `b` after `a`, unless `a` raised. */
  function Followed(a: Trace, b: Trace): (t: Trace)
    ensures a.ok ==> t.calls == a.calls + b.calls && t.ok == b.ok
    ensures !a.ok ==> t == a
  {
    if a.ok then Trace(a.calls + b.calls, b.ok) else a
  }

  lemma FollowedAssoc(a: Trace, b: Trace, c: Trace)
    ensures Followed(Followed(a, b), c) == Followed(a, Followed(b, c))
  {
    if a.ok && b.ok {
      assert a.calls + b.calls + c.calls == a.calls + (b.calls + c.calls);
    }
  }

  /** `_execute(nodes[key])` when the functions in `fails` raise: call
      the function; if it raised, stop; otherwise run the sons in list
      order, stopping at the first that raised. */
  ghost function Chain(sons: map<FuncId, seq<FuncId>>, rank: map<FuncId, nat>, bound: nat, fails: set<FuncId>, key: FuncId): Trace
    requires SonsRanked(sons, rank, bound) && key in sons
    decreases bound - rank[key], 1
  {
    if key in fails then Trace([key], false)
    else Followed(Trace([key], true), ChainAll(sons, rank, bound, fails, sons[key], rank[key]))
  }

  ghost function ChainAll(sons: map<FuncId, seq<FuncId>>, rank: map<FuncId, nat>, bound: nat, fails: set<FuncId>,
                          keys: seq<FuncId>, low: nat): Trace
    requires SonsRanked(sons, rank, bound) && low <= bound
    requires forall j :: 0 <= j < |keys| ==> keys[j] in sons && low < rank[keys[j]]
    decreases bound - low, 0, |keys|
  {
    if keys == [] then Trace([], true)
    else Followed(Chain(sons, rank, bound, fails, keys[0]), ChainAll(sons, rank, bound, fails, keys[1..], low))
  }

  /** A run stops exactly at its first call that raised: every call
      before the last succeeded, and the run failed iff its last call
      raised. */
  ghost predicate StopsAtFailure(t: Trace, fails: set<FuncId>) {
    && (forall i :: 0 <= i < |t.calls| - 1 ==> t.calls[i] !in fails)
    && (t.ok <==> t.calls == [] || t.calls[|t.calls| - 1] !in fails)
  }

  lemma FollowedStops(a: Trace, b: Trace, fails: set<FuncId>)
    requires StopsAtFailure(a, fails) && StopsAtFailure(b, fails)
    ensures StopsAtFailure(Followed(a, b), fails)
  {
    if a.ok {
      var c := a.calls + b.calls;
      forall i | 0 <= i < |c| - 1
        ensures c[i] !in fails
      {
        if i < |a.calls| {
          assert c[i] == a.calls[i];
        } else {
          assert c[i] == b.calls[i - |a.calls|];
        }
      }
      if b.calls == [] {
        assert c == a.calls;
      }
    }
  }

  /** `_execute` raises iff it called a function that raises, and then
      that call was its last. */
  lemma {:induction false} ChainStops(sons: map<FuncId, seq<FuncId>>, rank: map<FuncId, nat>, bound: nat,
                                      fails: set<FuncId>, key: FuncId)
    requires SonsRanked(sons, rank, bound) && key in sons
    decreases bound - rank[key], 1
    ensures StopsAtFailure(Chain(sons, rank, bound, fails, key), fails)
    ensures Chain(sons, rank, bound, fails, key).calls != [] && Chain(sons, rank, bound, fails, key).calls[0] == key
  {
    if key !in fails {
      ChainAllStops(sons, rank, bound, fails, sons[key], rank[key]);
      FollowedStops(Trace([key], true), ChainAll(sons, rank, bound, fails, sons[key], rank[key]), fails);
    }
  }

  lemma {:induction false} ChainAllStops(sons: map<FuncId, seq<FuncId>>, rank: map<FuncId, nat>, bound: nat,
                                         fails: set<FuncId>, keys: seq<FuncId>, low: nat)
    requires SonsRanked(sons, rank, bound) && low <= bound
    requires forall j :: 0 <= j < |keys| ==> keys[j] in sons && low < rank[keys[j]]
    decreases bound - low, 0, |keys|
    ensures StopsAtFailure(ChainAll(sons, rank, bound, fails, keys, low), fails)
  {
    if keys != [] {
      ChainStops(sons, rank, bound, fails, keys[0]);
      ChainAllStops(sons, rank, bound, fails, keys[1..], low);
      FollowedStops(Chain(sons, rank, bound, fails, keys[0]), ChainAll(sons, rank, bound, fails, keys[1..], low), fails);
    }
  }

  /** `executed` is never consulted: a function reached along two paths
      runs twice. For 0 with sons 1 and 2, both with son 3, the chain of
      0 calls 0, 1, 3, 2, 3. */
  lemma SharedSonRunsTwice()
    ensures var sons := map[0 := [1, 2], 1 := [3], 2 := [3], 3 := []];
      var rank := map[0 := 0, 1 := 1, 2 := 1, 3 := 2];
      SonsRanked(sons, rank, 3) && Chain(sons, rank, 3, {}, 0) == Trace([0, 1, 3, 2, 3], true)
  {
    var sons: map<FuncId, seq<FuncId>> := map[0 := [1, 2], 1 := [3], 2 := [3], 3 := []];
    var rank: map<FuncId, nat> := map[0 := 0, 1 := 1, 2 := 1, 3 := 2];
    assert SonsRanked(sons, rank, 3);
    var c3 := Chain(sons, rank, 3, {}, 3);
    assert ChainAll(sons, rank, 3, {}, [], 2) == Trace([], true);
    assert c3 == Trace([3], true);
    assert ChainAll(sons, rank, 3, {}, [3], 1) == Trace([3], true) by {
      assert [3][1..] == [];
      assert ChainAll(sons, rank, 3, {}, [], 1) == Trace([], true);
    }
    assert Chain(sons, rank, 3, {}, 1) == Trace([1, 3], true);
    assert Chain(sons, rank, 3, {}, 2) == Trace([2, 3], true);
    assert ChainAll(sons, rank, 3, {}, [2], 0) == Trace([2, 3], true) by {
      assert [2][1..] == [];
      assert ChainAll(sons, rank, 3, {}, [], 0) == Trace([], true);
    }
    assert ChainAll(sons, rank, 3, {}, [1, 2], 0) == Trace([1, 3, 2, 3], true) by {
      assert [1, 2][1..] == [2];
    }
  }

  /** The calls of the chains of `keys`, run one after the other. */
  ghost function Chains(sons: map<FuncId, seq<FuncId>>, rank: map<FuncId, nat>, bound: nat, fails: set<FuncId>,
                        keys: seq<FuncId>): seq<FuncId>
    requires SonsRanked(sons, rank, bound) && forall i :: 0 <= i < |keys| ==> keys[i] in sons
  {
    if keys == [] then []
    else Chains(sons, rank, bound, fails, keys[..|keys| - 1]) + Chain(sons, rank, bound, fails, keys[|keys| - 1]).calls
  }

  /** `after` is `before` once the calls in `called` ran, those in
      `fails` raising: a node is marked executed once a call of its
      function returned, and nothing else changes. */
  ghost predicate Marked(before: map<FuncId, Node>, after: map<FuncId, Node>, called: seq<FuncId>, fails: set<FuncId>) {
    && (forall k :: k in after <==> k in before)
    && (forall k :: k in before ==>
          after[k] == before[k].(executed := before[k].executed || (k in called && k !in fails)))
  }

  lemma MarkedNone(nodes: map<FuncId, Node>, called: seq<FuncId>, fails: set<FuncId>)
    requires forall k :: k in called ==> k in fails
    ensures Marked(nodes, nodes, called, fails)
  {
  }

  lemma MarkedTrans(a: map<FuncId, Node>, b: map<FuncId, Node>, c: map<FuncId, Node>,
                    ca: seq<FuncId>, cb: seq<FuncId>, fails: set<FuncId>)
    requires Marked(a, b, ca, fails) && Marked(b, c, cb, fails)
    ensures Marked(a, c, ca + cb, fails)
  {
  }

  lemma MarkedSons(before: map<FuncId, Node>, after: map<FuncId, Node>, called: seq<FuncId>, fails: set<FuncId>,
                   sons: map<FuncId, seq<FuncId>>)
    requires Marked(before, after, called, fails) && HasSons(before, sons)
    ensures HasSons(after, sons)
  {
  }

  /** A chain that does not raise at its root goes on with the sons. */
  lemma ChainFirst(sons: map<FuncId, seq<FuncId>>, rank: map<FuncId, nat>, bound: nat, fails: set<FuncId>, key: FuncId)
    requires SonsRanked(sons, rank, bound) && key in sons && key !in fails
    ensures Chain(sons, rank, bound, fails, key)
      == Followed(Trace([key], true), ChainAll(sons, rank, bound, fails, sons[key][0..], rank[key]))
  {
    assert sons[key][0..] == sons[key];
  }

  /** Running the `i`-th son after the calls `run` that returned. */
  lemma ChainNext(sons: map<FuncId, seq<FuncId>>, rank: map<FuncId, nat>, bound: nat, fails: set<FuncId>,
                  key: FuncId, i: nat, run: seq<FuncId>) returns (c: Trace)
    requires SonsRanked(sons, rank, bound) && key in sons && i < |sons[key]|
    requires Chain(sons, rank, bound, fails, key)
      == Followed(Trace(run, true), ChainAll(sons, rank, bound, fails, sons[key][i..], rank[key]))
    ensures sons[key][i] in sons && rank[key] < rank[sons[key][i]]
    ensures c == Chain(sons, rank, bound, fails, sons[key][i])
    ensures c.ok ==> (Chain(sons, rank, bound, fails, key)
                      == Followed(Trace(run + c.calls, true), ChainAll(sons, rank, bound, fails, sons[key][i + 1..], rank[key])))
    ensures !c.ok ==> Chain(sons, rank, bound, fails, key) == Trace(run + c.calls, false)
  {
    var ss := sons[key];
    assert ss[i..][1..] == ss[i + 1..];
    c := Chain(sons, rank, bound, fails, ss[i]);
    FollowedAssoc(Trace(run, true), c, ChainAll(sons, rank, bound, fails, ss[i + 1..], rank[key]));
  }

  /** After the last son the chain has returned. */
  lemma ChainLast(sons: map<FuncId, seq<FuncId>>, rank: map<FuncId, nat>, bound: nat, fails: set<FuncId>,
                  key: FuncId, run: seq<FuncId>)
    requires SonsRanked(sons, rank, bound) && key in sons
    requires Chain(sons, rank, bound, fails, key)
      == Followed(Trace(run, true), ChainAll(sons, rank, bound, fails, sons[key][|sons[key]|..], rank[key]))
    ensures Chain(sons, rank, bound, fails, key) == Trace(run, true)
  {
    assert sons[key][|sons[key]|..] == [];
    assert run + [] == run;
  }

  /** Whether the chain of each of `keys` passed. */
  ghost function Verdicts(sons: map<FuncId, seq<FuncId>>, rank: map<FuncId, nat>, bound: nat, fails: set<FuncId>,
                          keys: seq<FuncId>): (v: seq<bool>)
    requires SonsRanked(sons, rank, bound) && forall i :: 0 <= i < |keys| ==> keys[i] in sons
    ensures |v| == |keys|
  {
    if keys == [] then []
    else Verdicts(sons, rank, bound, fails, keys[..|keys| - 1]) + [Chain(sons, rank, bound, fails, keys[|keys| - 1]).ok]
  }

  /** The `i`-th verdict is whether the chain of the `i`-th key passed. */
  lemma {:induction false} VerdictsOk(sons: map<FuncId, seq<FuncId>>, rank: map<FuncId, nat>, bound: nat, fails: set<FuncId>,
                                      keys: seq<FuncId>)
    requires SonsRanked(sons, rank, bound) && forall i :: 0 <= i < |keys| ==> keys[i] in sons
    ensures forall i :: 0 <= i < |keys| ==> Verdicts(sons, rank, bound, fails, keys)[i] == Chain(sons, rank, bound, fails, keys[i]).ok
  {
    if keys != [] {
      var init := keys[..|keys| - 1];
      VerdictsOk(sons, rank, bound, fails, init);
      forall i | 0 <= i < |init|
        ensures init[i] == keys[i]
      {
      }
    }
  }

  /** The position of the first `false` of `passed`, if any. */
  function FirstFalse(passed: seq<bool>): (r: Option<nat>)
    ensures r.Some? <==> false in passed
    ensures r.Some? ==> r.value < |passed| && !passed[r.value] && forall j :: 0 <= j < r.value ==> passed[j]
  {
    if passed == [] then None
    else if !passed[0] then Some(0)
    else match FirstFalse(passed[1..]) {
      case None => None
      case Some(n) => Some(n + 1)
    }
  }

  lemma {:induction false} FirstFalseAppend(passed: seq<bool>, b: bool)
    ensures FirstFalse(passed + [b])
      == if FirstFalse(passed).Some? then FirstFalse(passed) else if b then None else Some(|passed|)
  {
    if passed != [] {
      assert (passed + [b])[1..] == passed[1..] + [b];
      FirstFalseAppend(passed[1..], b);
    } else {
      assert [] + [b] == [b];
      assert [b][1..] == [];
    }
  }

  lemma ChainsNext(sons: map<FuncId, seq<FuncId>>, rank: map<FuncId, nat>, bound: nat, fails: set<FuncId>,
                   keys: seq<FuncId>, i: nat)
    requires SonsRanked(sons, rank, bound) && i < |keys| && forall j :: 0 <= j < |keys| ==> keys[j] in sons
    ensures Chains(sons, rank, bound, fails, keys[..i + 1])
      == Chains(sons, rank, bound, fails, keys[..i]) + Chain(sons, rank, bound, fails, keys[i]).calls
    ensures Verdicts(sons, rank, bound, fails, keys[..i + 1])
      == Verdicts(sons, rank, bound, fails, keys[..i]) + [Chain(sons, rank, bound, fails, keys[i]).ok]
  {
    assert keys[..i + 1][..i] == keys[..i];
  }

  /** One more ancestor chain run by `execute`: the calls, the marks and
      the verdicts grow by those of that chain. */
  lemma RunStep(sons: map<FuncId, seq<FuncId>>, rank: map<FuncId, nat>, bound: nat, fails: set<FuncId>,
                keys: seq<FuncId>, i: nat, start: map<FuncId, Node>, mid: map<FuncId, Node>, after: map<FuncId, Node>,
                before: seq<FuncId>, midCalls: seq<FuncId>, afterCalls: seq<FuncId>, passed: seq<bool>, ok: bool)
    requires SonsRanked(sons, rank, bound) && i < |keys| && forall j :: 0 <= j < |keys| ==> keys[j] in sons
    requires midCalls == before + Chains(sons, rank, bound, fails, keys[..i])
    requires Marked(start, mid, Chains(sons, rank, bound, fails, keys[..i]), fails)
    requires afterCalls == midCalls + Chain(sons, rank, bound, fails, keys[i]).calls
    requires Marked(mid, after, Chain(sons, rank, bound, fails, keys[i]).calls, fails)
    requires ok == Chain(sons, rank, bound, fails, keys[i]).ok
    requires passed == Verdicts(sons, rank, bound, fails, keys[..i])
    ensures afterCalls == before + Chains(sons, rank, bound, fails, keys[..i + 1])
    ensures Marked(start, after, Chains(sons, rank, bound, fails, keys[..i + 1]), fails)
    ensures passed + [ok] == Verdicts(sons, rank, bound, fails, keys[..i + 1])
  {
    var run := Chains(sons, rank, bound, fails, keys[..i]);
    var c := Chain(sons, rank, bound, fails, keys[i]);
    MarkedTrans(start, mid, after, run, c.calls, fails);
    ChainsNext(sons, rank, bound, fails, keys, i);
    ConcatAssoc(before, run, c.calls);
  }

  /** `TestTree`: the built nodes and ancestors. */
  class Tree {
    var nodes: map<FuncId, Node>
    var ancestors: seq<FuncId>
    /** The test functions called so far, in call order. */
    var calls: seq<FuncId>

    constructor(nodes: map<FuncId, Node>, ancestors: seq<FuncId>)
      ensures this.nodes == nodes && this.ancestors == ancestors && calls == []
    {
      this.nodes := nodes;
      this.ancestors := ancestors;
      calls := [];
    }

    /** `_execute(nodes[key])`, the functions in `fails` raising: makes
        the calls of the chain of `key`, reports whether it ended
        without an exception, and marks executed exactly the nodes whose
        function it called and that returned. */
    method RunNode(ghost sons: map<FuncId, seq<FuncId>>, ghost rank: map<FuncId, nat>, ghost bound: nat,
                   fails: set<FuncId>, key: FuncId) returns (ok: bool)
      requires HasSons(nodes, sons) && SonsRanked(sons, rank, bound) && key in sons
      modifies this
      decreases bound - rank[key]
      ensures HasSons(nodes, sons) && ancestors == old(ancestors)
      ensures calls == old(calls) + Chain(sons, rank, bound, fails, key).calls
      ensures ok == Chain(sons, rank, bound, fails, key).ok
      ensures Marked(old(nodes), nodes, Chain(sons, rank, bound, fails, key).calls, fails)
    {
      ghost var start := nodes;
      calls := calls + [key];
      if key in fails {
        MarkedNone(start, [key], fails);
        return false;
      }
      nodes := nodes[key := nodes[key].(executed := true)];
      ghost var run := [key];
      assert Marked(start, nodes, run, fails);
      var ss := nodes[key].sons;
      ChainFirst(sons, rank, bound, fails, key);
      for i := 0 to |ss|
        invariant HasSons(nodes, sons) && ancestors == old(ancestors) && ss == sons[key]
        invariant calls == old(calls) + run
        invariant Marked(start, nodes, run, fails)
        invariant Chain(sons, rank, bound, fails, key)
          == Followed(Trace(run, true), ChainAll(sons, rank, bound, fails, ss[i..], rank[key]))
      {
        ghost var c := ChainNext(sons, rank, bound, fails, key, i, run);
        ghost var mid := nodes;
        var okSon := RunNode(sons, rank, bound, fails, ss[i]);
        MarkedTrans(start, mid, nodes, run, c.calls, fails);
        ConcatAssoc(old(calls), run, c.calls);
        run := run + c.calls;
        if !okSon {
          return false;
        }
      }
      ChainLast(sons, rank, bound, fails, key, run);
      ok := true;
    }

    /** `execute()` with the functions in `fails` raising: runs the
        chain of every ancestor, in ancestor order, and reports for each
        whether it passed; `first` is the first failed chain, whose
        exception `execute` raises again when it awaits that chain. */
    method Execute(ghost sons: map<FuncId, seq<FuncId>>, ghost rank: map<FuncId, nat>, ghost bound: nat, fails: set<FuncId>)
      returns (passed: seq<bool>, first: Option<nat>)
      requires HasSons(nodes, sons) && SonsRanked(sons, rank, bound)
      requires forall i :: 0 <= i < |ancestors| ==> ancestors[i] in sons
      modifies this
      ensures HasSons(nodes, sons) && ancestors == old(ancestors)
      ensures calls == old(calls) + Chains(sons, rank, bound, fails, ancestors)
      ensures Marked(old(nodes), nodes, Chains(sons, rank, bound, fails, ancestors), fails)
      ensures passed == Verdicts(sons, rank, bound, fails, ancestors)
      ensures first == FirstFalse(passed)
    {
      ghost var start, keys := nodes, ancestors;
      MarkedNone(start, [], fails);
      passed := [];
      first := None;
      for i := 0 to |ancestors|
        invariant ancestors == keys && HasSons(nodes, sons)
        invariant calls == old(calls) + Chains(sons, rank, bound, fails, keys[..i])
        invariant Marked(start, nodes, Chains(sons, rank, bound, fails, keys[..i]), fails)
        invariant passed == Verdicts(sons, rank, bound, fails, keys[..i])
        invariant first == FirstFalse(passed)
      {
        ghost var mid, midCalls := nodes, calls;
        var ok := RunNode(sons, rank, bound, fails, ancestors[i]);
        RunStep(sons, rank, bound, fails, keys, i, start, mid, nodes, old(calls), midCalls, calls, passed, ok);
        if !ok && first.None? {
          first := Some(i);
        }
        FirstFalseAppend(passed, ok);
        passed := passed + [ok];
      }
      assert keys[..|keys|] == keys;
    }
  }
}
