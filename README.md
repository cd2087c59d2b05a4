# fastapi_template core, modelled in Dafny

This project models the logic at the core of a FastAPI project template.
Most of the template is web scaffolding. What it models are the parts
that compute or keep state:

- **Vector database client** (`VectorDb`, `Schemas`):
  - log helpers and the status codes;
  - the request validators and the collection serializer;
  - classification of the store's answers to a create or update request;
  - batch upserts that split large inputs into slices of 100 and narrow
    the working set over at most `retry_times + 1` rounds;
  - the request limiter that routes every request through a task queue.
- **Paced FIFO task queue** (`TaskQueues`): enqueue, one consumer step,
  job completion, cancellation of a future, the idle check, and the
  process-wide singleton.
- **Task group** (`TaskGroups`): ordered, optionally batched joins. In
  `get` the first exception propagates; `get_noexcept` keeps exceptions
  in their slots.
- **Key-cached quicksort** (`AsyncSort`): keys are awaited once, then a
  Hoare-partition quicksort with a floor-middle pivot swaps the data and
  key arrays in lockstep.
- **Request supervision middleware** (`TaskSupervisor`):
  - the registry of supervised tasks per request;
  - the two-consumer tee of the ASGI input stream;
  - the disconnect watcher;
  - the cancel-flag decision after the race between watcher and
    application.
- **Test runner** (`TestTree`):
  - registration of test functions by identity;
  - the depth-first build of the test tree (nodes, duplicate-free sons,
    visit counts, ancestors);
  - the preorder execution of the ancestor chains.
- **Settings string builders** (`Settings`): the PostgreSQL
  `DATABASE_URL` and the `.env` template emitted under `__main__`.

How asynchrony is modelled:
- Awaiting is flattened into ordinary sequential steps.
- The outcome of each awaited coroutine is an input, either a value or an
  exception (`Base.Outcome`).
- The remote vector store is an oracle function from the endpoint, the
  retry round and the records sent to the JSON response.
- Functions whose state the source mutates in place are classes with
  `modifies` clauses: the task queue, the task group, the tee, the
  registry, the test-tree builder and the tree.
- Pure code is functions and lemmas.
- Every loop of the source is a method with its invariants, proved
  against a specification function, except the two `while True` loops
  of the task queue: the consumer in `_schedule` and the poll in
  `wait_until_finish` are modelled one iteration at a time
  (`TaskQueue.ConsumerStep`, `TaskQueue.PollFinish`). The caller drives
  the iterations, and what holds between them is an invariant of the
  queue.

## Model

| member | source | states |
|---|---|---|
| Schemas.CodeOf | utils/vector_db_utils/schemas.py:30-36 | each status code stands for a fixed integer in the 2000-3999 range |
| Schemas.FromCode | utils/vector_db_utils/schemas.py:30-36 | an integer names a status code exactly when it is 2000, 3140, 3160 or 3161, and that code's integer is the one given; it is `success` exactly for 2000 |
| Schemas.CodeRoundTrip | utils/vector_db_utils/schemas.py:30-36 | reading back a status code's integer gives that code |
| Schemas.Properties | utils/vector_db_utils/schemas.py:39-49 | `properties()` has exactly the keys `doc_id` and `text`, holding the values given at construction |
| Schemas.PropertiesRoundTrip | utils/vector_db_utils/schemas.py:39-49 | a record is recovered from its properties dictionary |
| Schemas.ValidateFilterValue | utils/vector_db_utils/schemas.py:57-62 | a filter value is accepted iff it is a string or a list of fewer than 100 items; an accepted value is unchanged and a rejected one reports the list itself |
| Schemas.ValidateLimit | utils/vector_db_utils/schemas.py:76-83 | a limit is accepted iff 1 <= limit < 100, unchanged; otherwise the error carries the limit |
| Schemas.DocIdCountAppend | utils/vector_db_utils/schemas.py:102-110 | the doc-id count of two filter lists joined is the sum of their counts |
| Schemas.DocIdFilters | utils/vector_db_utils/schemas.py:103-105 | the filters kept are exactly those on the `doc_id` field |
| Schemas.DocIdCountIgnoresOtherFields | utils/vector_db_utils/schemas.py:103-105 | filters on other fields add nothing to the doc-id count |
| Schemas.DocIdCountOfEqualFilters | utils/vector_db_utils/schemas.py:107-108 | with only `equal` filters on `doc_id`, the count is the number of filters |
| Schemas.CountDocIdFilters | utils/vector_db_utils/schemas.py:102-110 | the counting loop computes the doc-id count: 1 per `equal` filter and `len(value)` per `contains_any` filter on `doc_id` |
| Schemas.ValidateQueryParam | utils/vector_db_utils/schemas.py:100-115 | a query is accepted iff its doc-id count is at most 100; an accepted query is unchanged, a rejected one reports the count |
| Schemas.SingleContainsAnyFilter | utils/vector_db_utils/schemas.py:57-115 | a query with a single `contains_any` doc-id filter is accepted iff it lists fewer than 100 ids, so the filter check binds before the count check |
| Schemas.Serialize | utils/vector_db_utils/schemas.py:22-27 | the serialized collection has exactly the keys `collection_name` and `extra_field_schemas`, the latter holding `extra_fields`; there is no `extra_fields` key |
| Schemas.SerializeRoundTrip | utils/vector_db_utils/schemas.py:18-27 | a collection is recovered from its serialized form |
| VectorDb.SliceStop | utils/vector_db_utils/vector_db_utils.py:35 | the stop of the Python slice `s[:length]`: `min(length, n)` when `length` is non-negative, counted from the end otherwise |
| VectorDb.ShortMsg | utils/vector_db_utils/vector_db_utils.py:32-36 | text no longer than `length` is returned unchanged; longer text becomes its first `length` characters followed by `...`, so at most `length + 3` characters |
| VectorDb.ErrorLog | utils/vector_db_utils/vector_db_utils.py:39-49 | nothing is reported iff the code is 2000; otherwise the response's `msg`, present or not |
| VectorDb.Without | utils/vector_db_utils/vector_db_utils.py:217-219 | the records kept are exactly those whose id is not listed, and there are no more of them than before |
| VectorDb.TryUpdate | utils/vector_db_utils/vector_db_utils.py:384-414 | one update request returns no failures on 2000, the `duplicate_ids` when present, else the `failed_ids` when present, and raises with the message otherwise |
| VectorDb.TryAdd | utils/vector_db_utils/vector_db_utils.py:224-286 | empty input makes no request; a missing code raises `KeyError`; 2000 gives no failures; `duplicate_ids` gives the failures of updating the records that are not listed as duplicates; `failed_ids` gives those ids; anything else raises |
| VectorDb.DuplicatesAreNotUpdated | utils/vector_db_utils/vector_db_utils.py:263-275 | the records sent to update after a create are exactly those not reported as duplicates |
| VectorDb.Budget | utils/vector_db_utils/vector_db_utils.py:203 | `range(retry_times + 1)` allows `retry_times + 1` attempts, or none when `retry_times` is negative |
| VectorDb.Flatten | utils/vector_db_utils/vector_db_utils.py:214 | an id is among the accumulated failed ids iff some round reported it |
| VectorDb.Flags | utils/vector_db_utils/vector_db_utils.py:221 | one flag per record, true iff its id is not among the failed ids |
| VectorDb.WithoutWithout | utils/vector_db_utils/vector_db_utils.py:216-219 | removing two id lists in turn is removing their concatenation |
| VectorDb.NarrowFacts | utils/vector_db_utils/vector_db_utils.py:201-219 | the retry rounds make at most `retry_times + 1` attempts, stop early only on an empty report, keep every report, and the working set is always the original records minus every id reported so far |
| VectorDb.SingleLength | utils/vector_db_utils/vector_db_utils.py:221 | one batch yields one flag per input record |
| VectorDb.SlicedLength | utils/vector_db_utils/vector_db_utils.py:178-196 | the slices from `idx` together yield one flag per record from `idx` on |
| VectorDb.UpsertLength | utils/vector_db_utils/vector_db_utils.py:178-221 | an upsert that does not raise yields one flag per input record, in input order |
| VectorDb.UpsertSliceFlag | utils/vector_db_utils/vector_db_utils.py:178-196 | above 100 records, flag `i` of the upsert is the flag of record `i` inside its own slice `records[s:s+100]`, `s = (i // 100) * 100`, upserted with the default retry count |
| VectorDb.UpsertSlicedFlags | utils/vector_db_utils/vector_db_utils.py:178-221 | above 100 records, record `i` is flagged false iff its id was reported failed in some round of the retry loop of its own slice, run with the default retry count |
| VectorDb.SlicedAt | utils/vector_db_utils/vector_db_utils.py:178-196 | when the slicing loop does not raise, flag `i` of the joined result is the flag of record `i` in the result of its own slice of 100 |
| VectorDb.SliceStartIs | utils/vector_db_utils/vector_db_utils.py:181-191 | the slice holding position `i` starts at `idx + ((i - idx) // 100) * 100` |
| VectorDb.LargeIgnoresRetryTimes | utils/vector_db_utils/vector_db_utils.py:178-191 | above 100 records the result is the same as with the default `retry_times=2`, whatever the caller passed |
| VectorDb.EmptyInput | utils/vector_db_utils/vector_db_utils.py:198-199 | `add_records([])` is `[]` whatever the store says, while `update_record([])` still makes a request, and raises when the store answers an error code with neither id list |
| VectorDb.NoBudgetFlagsAll | utils/vector_db_utils/vector_db_utils.py:203-221 | with a negative `retry_times` no request is made and every record is flagged as added |
| VectorDb.SingleFlags | utils/vector_db_utils/vector_db_utils.py:201-221 | record `i` is flagged false iff its id was reported failed in some round of a loop that made at most `retry_times + 1` attempts and stopped early only on an empty report |
| VectorDb.RetryLoop | utils/vector_db_utils/vector_db_utils.py:201-221 | the retry loop over one batch computes the batch's flags as specified by the rounds of narrowing |
| VectorDb.UpsertRecords | utils/vector_db_utils/vector_db_utils.py:178-221 | the upsert loop over slices of 100, or the retry loop for a small batch, returns the specified result with one flag per record |
| VectorDb.AddRecords | utils/vector_db_utils/vector_db_utils.py:155-221 | `add_records` is the upsert on the create endpoint, one flag per record |
| VectorDb.UpdateRecord | utils/vector_db_utils/vector_db_utils.py:323-381 | `update_record` is the upsert on the update endpoint, one flag per record |
| VectorDb.RequestLimiter.constructor | utils/vector_db_utils/vector_db_utils.py:52-53 | the limiter owns a fresh, idle, unbounded queue that is not running |
| VectorDb.RequestLimiter.ScheduleTask | utils/vector_db_utils/vector_db_utils.py:56-60 | the consumer is started only when the queue is not running, so at most once; the request is then queued at the tail with a fresh pending future |
| TaskQueues.Settle | utils/task_queue/task_queue.py:51-59 | a returned value resolves the future with it, an `Exception` fails it with that exception |
| TaskQueues.TaskQueue.constructor | utils/task_queue/task_queue.py:17-24 | a new queue is empty, not running, with counter 0, no running tasks and the event clear |
| TaskQueues.TaskQueue.AddTask | utils/task_queue/task_queue.py:26-34 | a job with a fresh pending future is appended at the tail and that future returned; a full bounded queue raises `QueueFull` and changes nothing |
| TaskQueues.TaskQueue.Schedule | utils/task_queue/task_queue.py:36-38 | `running` becomes true and one more consumer loop starts; there is no guard |
| TaskQueues.TaskQueue.ConsumerStep | utils/task_queue/task_queue.py:40-47 | on an empty queue nothing changes; otherwise the head job is removed and spawned as the next task, the counter grows by one and the task joins the running set |
| TaskQueues.TaskQueue.CompleteTask | utils/task_queue/task_queue.py:51-62 | a pending future is settled exactly once with the outcome, then the counter drops by one and the event is set; a `CancelledError` or a future already cancelled escapes before that; the task leaves the running set in every case |
| TaskQueues.TaskQueue.CancelFuture | utils/task_queue/task_queue.py:51-59 | a caller's cancel turns a pending future into a cancelled one, after which the task can no longer set it; a done future is left alone |
| TaskQueues.TaskQueue.PollFinish | utils/task_queue/task_queue.py:64-70 | the wait ends iff the event is set, the counter is 0 and the queue is empty, and then every future handed out is done; otherwise the event is cleared |
| TaskQueues.TaskQueue.IdleMeansSettled | utils/task_queue/task_queue.py:44-70 | with nothing queued and the counter at 0, every future is done: the counter counts dispatched minus completed jobs |
| TaskQueues.TaskQueue.StartOrderIsFifo | utils/task_queue/task_queue.py:40-47 | the `t`-th task started runs the `t`-th job accepted |
| TaskQueues.GlobalTaskQueue.constructor | utils/task_queue/task_queue.py:73 | no queue exists before the first call |
| TaskQueues.GlobalTaskQueue.Get | utils/task_queue/task_queue.py:76-82 | the first call creates an idle unbounded queue with the given interval (6 by default); every later call returns that same queue, whatever interval it passes |
| TaskGroups.FirstRaised | utils/async_utils/task_group.py:62-65 | the first outcome in submission order that raised |
| TaskGroups.JoinAllSpec | utils/async_utils/task_group.py:57-65 | without an exception the join is the values in submission order, one per task; otherwise it is the first exception in submission order |
| TaskGroups.JoinAllNoexceptSpec | utils/async_utils/task_group.py:67-79 | without a `CancelledError` the join is the outcomes themselves, one slot per task; otherwise it raises `CancelledError` |
| TaskGroups.JoinAllAppend | utils/async_utils/task_group.py:57-65 | joining two lists one after the other is joining their concatenation |
| TaskGroups.JoinAllNoexceptAppend | utils/async_utils/task_group.py:67-79 | the same for the exception-keeping join |
| TaskGroups.BatchedIsJoinAll | utils/async_utils/task_group.py:103-114 | joining consecutive batches of any size b >= 1 gives the same values and the same exception as joining all at once |
| TaskGroups.TaskGroup.constructor | utils/async_utils/task_group.py:8-34 | the group keeps the given coroutines in order, none for `None`, and the batch size |
| TaskGroups.TaskGroup.Append | utils/async_utils/task_group.py:36-44 | a coroutine is added at the end |
| TaskGroups.TaskGroup.ScheduleTasks | utils/async_utils/task_group.py:57-65 | the loop awaiting tasks in order computes the join |
| TaskGroups.TaskGroup.ScheduleTasksNoexcept | utils/async_utils/task_group.py:67-79 | the loop storing exceptions in their slots computes the exception-keeping join |
| TaskGroups.TaskGroup.Get | utils/async_utils/task_group.py:88-114 | the result is the in-order join; with batch size b >= 1 at most b tasks are created per batch, and on an exception the batch holding the first failing task is the last one created |
| TaskGroups.TaskGroup.GetNoexcept | utils/async_utils/task_group.py:116-143 | the result is the exception-keeping join: without a `CancelledError`, every outcome in its slot |
| TaskGroups.SliceSplit | utils/async_utils/task_group.py:103-112 | joining from `lo` is joining the slice `[lo, hi)` and then the rest |
| TaskGroups.SliceSplitNoexcept | utils/async_utils/task_group.py:132-141 | the same for the exception-keeping join |
| TaskGroups.FirstRaisedInSlice | utils/async_utils/task_group.py:104-112 | when the earlier batches returned and the batch `[lo, hi)` fails, the first failure of the whole list lies in that batch and is its exception |
| TaskGroups.JoinAllErr | utils/async_utils/task_group.py:62-65 | a failed join raises the exception of the first task that raised |
| TaskGroups.FirstRaisedUnique | utils/async_utils/task_group.py:62-65 | the first raised outcome is the only position before which all returned and at which one raised |
| AsyncSort.PermutedTrans | utils/async_utils/async_sort.py:62-64 | two reorderings that keep elements with their keys compose |
| AsyncSort.SwapPermuted | utils/async_utils/async_sort.py:62-64 | a lockstep swap of data and keys keeps every element with its key |
| AsyncSort.CombineSorted | utils/async_utils/async_sort.py:67-68 | two sorted parts split around a pivot make a sorted range |
| AsyncSort.SwapReordered | utils/async_utils/async_sort.py:62-64 | a lockstep swap inside `[left, right]` is a reordering of that range only |
| AsyncSort.Swap | utils/async_utils/async_sort.py:62-64 | data and keys swap positions `i` and `j` together and stay a reordering of the range |
| AsyncSort.ScanUp | utils/async_utils/async_sort.py:54-56 | the upward scan stops at the first key that does not come before the pivot, at the latest at the bound that stops it |
| AsyncSort.ScanDown | utils/async_utils/async_sort.py:58-60 | the downward scan stops at the first key that does not come after the pivot, at the earliest at the bound that stops it |
| AsyncSort.PartStep | utils/async_utils/async_sort.py:53-64 | one round of scans and swap keeps the partition invariant |
| AsyncSort.Partition | utils/async_utils/async_sort.py:49-64 | the partition around the floor-middle key returns `i_right` with `left <= i_right < right`; no key in `[left, i_right]` comes after the pivot, none in `[i_right+1, right]` before it; only the range is reordered, in lockstep |
| AsyncSort.QuickSort | utils/async_utils/async_sort.py:40-68 | `quick_sort(left, right)` sorts the keys of `[left, right]`, ascending or descending as `reverse` says, moving each element with its key and nothing outside the range; `left >= right` changes nothing |
| AsyncSort.QuickSortSteps | utils/async_utils/async_sort.py:67-68 | partitioning and then sorting both parts sorts the range and only reorders it |
| AsyncSort.SortedHalves | utils/async_utils/async_sort.py:67-68 | after both recursive sorts the whole range is sorted |
| AsyncSort.LeftPartKept | utils/async_utils/async_sort.py:67-68 | the second recursive sort leaves the sorted, pivot-bounded left part alone |
| AsyncSort.KeyValues | utils/async_utils/async_sort.py:30-33 | the awaited keys, one per element, in element order |
| AsyncSort.AsyncSortList | utils/async_utils/async_sort.py:7-73 | if a key raises, the first such exception propagates and the list is untouched; otherwise the same list object is returned, its elements permuted with their keys and the keys sorted as `reverse` says |
| TaskSupervisor.ReceiveWrapper.constructor | middlewares/task_supervisor.py:64-67 | both queues start empty and nothing has been pulled |
| TaskSupervisor.ReceiveWrapper.Receive | middlewares/task_supervisor.py:69-72 | the next source message is pulled and put on both queues |
| TaskSupervisor.ReceiveWrapper.Rcv | middlewares/task_supervisor.py:74-92 | each consumer gets the next source message after those it already took, whatever the other consumer did; the source is pulled only when the consumer's own queue is empty, and the other consumer's queue gains exactly the messages pulled |
| TaskSupervisor.ReceiveWrapper.Take | middlewares/task_supervisor.py:78-79 | the head of the consumer's own queue is taken, and the other consumer is left alone |
| TaskSupervisor.FirstDisconnect | middlewares/task_supervisor.py:113-118 | the position of the first `http.disconnect` message, if any |
| TaskSupervisor.HandleDisconnect | middlewares/task_supervisor.py:113-118 | the watcher takes messages up to and including the first `http.disconnect` and returns True; messages the application takes are unaffected |
| TaskSupervisor.FirstDisconnectAt | middlewares/task_supervisor.py:113-118 | the first disconnect is at `i` when message `i` is one and none comes before it |
| TaskSupervisor.FoldFlagSpec | middlewares/task_supervisor.py:139-145 | whatever the order of `done`, the flag ends False when the application is done, True when only the watcher is, and None when neither is |
| TaskSupervisor.Raises | middlewares/task_supervisor.py:120-125 | awaiting the application task never re-raises its `CancelledError`; awaiting the watcher re-raises its exception |
| TaskSupervisor.Pending | middlewares/task_supervisor.py:154 | the pending racers are exactly those not done |
| TaskSupervisor.Supervisor.constructor | middlewares/task_supervisor.py:11-16 | an empty registry and no current request id |
| TaskSupervisor.Supervisor.SuperviseTasks | middlewares/task_supervisor.py:21-35 | the current request's list is extended only if its id is registered; otherwise nothing changes |
| TaskSupervisor.Supervisor.CancelTasks | middlewares/task_supervisor.py:38-60 | without a current id the result is False and nothing changes; otherwise every task of that request is cancelled in list order, its entry removed and True returned; a missing entry raises `KeyError` |
| TaskSupervisor.Supervisor.Call | middlewares/task_supervisor.py:96-156 | a non-http scope passes through; an http request is registered under `req_id_` plus its uuid; the first re-raised exception propagates; otherwise the cancel flag is set iff only the watcher finished, the request's tasks are cancelled exactly then, the pending racer is cancelled, and the entry stays unless cancelled |
| TestTree.Ids | tests/__init__.py:36-40 | dependencies are kept by function identity, in order |
| TestTree.Registry.constructor | tests/__init__.py:13 | the registry starts empty |
| TestTree.Registry.Register | tests/__init__.py:44-60 | a function is registered under its identity, replacing an earlier registration in place; a missing dependency list becomes empty; the function is returned unchanged |
| TestTree.Walk | tests/__init__.py:123-138 | the calls of `_dfs` start with the visit itself and stay among registered functions; a failed walk names an unregistered dependency |
| TestTree.WalkAll | tests/__init__.py:137-140 | walking a list of keys visits each of them from the same caller; a failure names an unregistered dependency |
| TestTree.RevisitedSons | tests/__init__.py:133-134 | a son is added to a node only when the son's task depends on the node's function |
| TestTree.NodesStep | tests/__init__.py:124-132 | one more visit keeps one node per visited function, with `degree` its number of visits |
| TestTree.SonsStep | tests/__init__.py:133-134 | one more visit keeps every son a dependent of its node |
| TestTree.AncestorsKept | tests/__init__.py:135-136 | a visit that adds no ancestor keeps the ancestor invariant |
| TestTree.AncestorsGrow | tests/__init__.py:135-136 | a first visit of a dependency-free function appends it to the ancestors, keeping them duplicate-free and in first-visit order |
| TestTree.WalkSonsFrom | tests/__init__.py:137-138 | every call of a walk comes from a dependent visited before it and goes to one of its dependencies |
| TestTree.WalkAllSonsFrom | tests/__init__.py:137-140 | the same for a walk of a list of keys |
| TestTree.WalkAllEdges | tests/__init__.py:137-138 | every dependency edge out of the keys is walked, with the dependent's node as the son |
| TestTree.RevisitOk | tests/__init__.py:124-136 | one visit keeps the build invariant |
| TestTree.ReplayOk | tests/__init__.py:123-140 | replaying the calls of a walk keeps the build invariant |
| TestTree.RevisitGrows | tests/__init__.py:133-134 | sons are only ever added, and a visit with a son records it |
| TestTree.ReplayRecords | tests/__init__.py:133-134 | replaying a log records the son of each of its calls |
| TestTree.Builder.constructor | tests/__init__.py:119-121 | `nodes` and `ancestors` start empty |
| TestTree.Builder.Dfs | tests/__init__.py:123-138 | `_dfs` fails exactly when its walk meets an unregistered dependency, with that error; otherwise it leaves the dictionaries as the replay of the walk's calls |
| TestTree.Build | tests/__init__.py:115-142 | `build` calls `_dfs` on every registered task in registration order; it fails with the first unregistered dependency met, otherwise it returns the tree of the replayed calls |
| TestTree.TreeComplete | tests/__init__.py:123-142 | once every function is visited and every edge recorded, the tree has one node per registered function with `degree` at least 1; the sons of `d` are exactly its dependents; the ancestors are exactly the dependency-free functions |
| TestTree.EdgesRecorded | tests/__init__.py:133-138 | every dependency edge walked is recorded as a son |
| TestTree.WalkVisitsAll | tests/__init__.py:140 | walking the registered functions in registration order visits each of them |
| TestTree.BuildFacts | tests/__init__.py:115-142 | a build that does not fail satisfies its invariant and gives the complete tree |
| TestTree.BuiltRanked | tests/__init__.py:133-134 | the built sons follow the dependency ranking, so following sons ends |
| TestTree.ChainStops | tests/__init__.py:102-112 | `_execute` starts with its own function and raises iff it called a function that raises, which is then its last call |
| TestTree.ChainAllStops | tests/__init__.py:111-112 | the sons run in list order, stopping at the first that raised |
| TestTree.SharedSonRunsTwice | tests/__init__.py:102-112 | `executed` is never consulted: with sons 1 and 2 of 0, both with son 3, the chain of 0 calls 0, 1, 3, 2, 3 |
| TestTree.Verdicts | tests/__init__.py:90-100 | one verdict per ancestor |
| TestTree.VerdictsOk | tests/__init__.py:90-100 | the verdict of ancestor `i` is whether its chain passed |
| TestTree.FirstFalse | tests/__init__.py:99-100 | the first failed chain, which is the one whose exception the in-order awaits raise, if any |
| TestTree.Tree.constructor | tests/__init__.py:64-70 | the tree holds the built nodes and ancestors, and no call has been made |
| TestTree.Tree.RunNode | tests/__init__.py:102-112 | `_execute` makes the calls of its chain, reports whether it passed, and marks executed exactly the nodes whose function it called and that returned |
| TestTree.Tree.Execute | tests/__init__.py:72-100 | every ancestor chain runs, in ancestor order; the calls, the marks and one verdict per chain are those of the chains; `first` is the first failed chain |
| Settings.DatabaseUrl | config/__init__.py:41-48 | `DATABASE_URL` starts with `postgresql://` and is as long as its five parts plus the four separators |
| Settings.ParseUrl | config/__init__.py:41-48 | a URL read back into parts rebuilds exactly that URL |
| Settings.UrlRoundTrip | config/__init__.py:41-48 | parts free of the separator that ends them come back from the URL unchanged |
| Settings.UrlAmbiguous | config/__init__.py:41-48 | user `a:b` with password `c` and user `a` with password `b:c` give the same URL |
| Settings.Quote | config/__init__.py:45-47 | an encoded part holds no `:`, `@` or `/` |
| Settings.UnquoteQuote | config/__init__.py:45-47 | decoding an encoded part gives the part back |
| Settings.SafeDatabaseUrl | config/__init__.py:41-48 | the URL with percent-encoded parts still starts with `postgresql://` |
| Settings.SafeUrlRoundTrip | config/__init__.py:41-48 | with percent-encoded parts every configuration comes back from its URL |
| Settings.SafeUrlInjective | config/__init__.py:41-48 | distinct configurations have distinct encoded URLs |
| Settings.PyBool | config/__init__.py:102 | `str(is_required)` is `True` or `False`, as the flag is |
| Settings.TagsDistinct | config/__init__.py:100-107 | no line kind starts with the tag of another, so the lines of a block can be told apart |
| Settings.Block | config/__init__.py:100-108 | a field's block has 3 lines plus one per defined description, type and default, and ends with `KEY=` and an empty line |
| Settings.BlockLines | config/__init__.py:100-102 | every block holds the `# is_required:` line, and starts with a description line iff the field has a description |
| Settings.Template | config/__init__.py:93-108 | the template has at least 3 lines per field |
| Settings.EnvTemplate | config/__init__.py:93-108 | the loop appends exactly the blocks of the fields, in field order |
| Settings.ParseBlock | config/__init__.py:100-108 | a block read off the front of the lines is exactly the block of the field read |
| Settings.ParseTemplate | config/__init__.py:93-108 | fields read back from lines rebuild exactly those lines |
| Settings.BlockRoundTrip | config/__init__.py:100-108 | each block is read back whole, whatever follows it |
| Settings.TemplateRoundTrip | config/__init__.py:93-108 | the template reads back as its fields, in order: one block per field, in field order |

## Left out

- HTTP and the network:
  - the request inside `request_vector_db` is the `Store` oracle;
  - create/delete collection, `query_record` and `delete_record` are thin calls to it and are not modelled.
- Concurrency and timing:
  - The `asyncio.wait` race and its scheduling are not modelled: `Call` takes the set of done racers and their exceptions as inputs.
  - The `asyncio.sleep` pacing of the task queue is not modelled. `interval` is stored and never used.
  - The concurrent slice tasks of `add_records` and `update_record` run one after the other. Only the in-order join is observable against an oracle store.
  - The ancestor chains of `TestTree.execute` run one after the other. Their interleaving is not modelled.
  - Chains that are still running when `execute` re-raises are not modelled either.
- Floating point: `alpha_validator` and the other float fields of the retrieval config.
- Serialisation and output are not modelled:
  - `json.dumps` inside `short_msg` (the serialised text is an input);
  - every logging call;
  - the printing in `TestTree.execute`;
  - the `.generated.env` file write;
  - `validate_log_file_path` creating a directory.
- Not part of this model: `call_coroutine`, the SQL and Redis wrappers, JWT, the scheduler, the process lock and the application wiring.
- `TaskGroup.execute` is not modelled: it only spawns `get` in the background.
- `_create_tasks` is the identity on outcomes.
- Pydantic's undefined marker and `None` are both `None` in `Settings.EnvField`. The default's `str` is given as text.
- TaskSupervisor.ReceiveWrapper.Rcv: a source past its end would wait forever; the model answers `None`.
- TaskSupervisor.HandleDisconnect: a source that ends without a disconnect would wait forever; the model returns False with everything taken.
- TaskSupervisor.Supervisor.Call: the uuid is an input. Freshness of the id and the ASGI scope beyond its `type` are not modelled.
- TestTree.Build: cyclic dependencies make `_dfs` recurse without end. The model requires a ranking that orders the dependencies.
- TestTree.Tree.Execute: the chains run sequentially. The exception of the first failed chain is reported as its position `first`.
- TaskGroups.TaskGroup.Get: batch sizes 0 and below -1 are excluded on a non-empty group; the model requires the group to be empty for them. With 0 the loop never advances and never ends. With `b < -1` and `n` coroutines, the first round runs `coros[0:n+b]` (or nothing when `n + b <= 0`); if one of them raises, `get` ends with that exception, and otherwise every later round runs an empty slice and the loop never ends. The model therefore leaves out the terminating case of a batch size below -1 whose first round raises.
- TaskGroups.TaskGroup.GetNoexcept: the same batch sizes are excluded in the same way. With `b < -1` the first round runs `coros[0:n+b]`, and a `CancelledError` there ends `get_noexcept`; any other outcome of that round leads to a loop that never ends.
- VectorDb.TryAdd: a response whose `data` is present but null or not a dict, or whose `duplicate_ids` or `failed_ids` is null, raises `TypeError` in the source. A `Response` has no such state: `data` is either absent or holds the two optional id lists, and a response without the lists is answered with `StoreError`.
- VectorDb.TryUpdate: the same responses raise `TypeError` there too and are not modelled, for the same reason.
- TaskQueues.GlobalTaskQueue.Get: Dafny has no default arguments. The default interval of 6 is the constant `TaskQueues.DefaultGlobalInterval`, which a caller that omits it passes.
- AsyncSort.AsyncSortList: keys are integers, while the source sorts any values that `<` and `>` compare.
- Settings.TemplateRoundTrip: holds for keys that are non-empty and do not start with `#`. Python field names always satisfy this.
- Settings.UrlRoundTrip: holds only for parts free of the separator that ends them; see Findings.

Where the code differs from its own comments and messages, the model
follows the code:
- The comment in `_try_add_records` says duplicates go to the update endpoint. The code sends the records that are *not* duplicates.
- The filter and limit messages promise bounds of 100 inclusive. The checks reject 100.
- `_execute` sets `executed` but never reads it, so a shared son runs once per path that reaches it.

## Findings

| source | as written | input that shows it | evidently intended | confidence | as-written member | corrected member |
|---|---|---|---|---|---|---|
| config/__init__.py:41-48 | `DATABASE_URL` pastes the user name, password, host, port and database into the URL unescaped | user `a:b` with password `c`, and user `a` with password `b:c`: both give `postgresql://a:b:c@db:5432/app` | percent-encode each part, as section 2.1 of RFC 3986 requires for a data octet that would read as a delimiter, so that distinct settings give distinct URLs | medium, not executed | Settings.UrlAmbiguous | Settings.SafeUrlRoundTrip |

`Settings.DatabaseUrl` models the string as written: `Settings.UrlRoundTrip`
shows it reads back only when no part holds its delimiter.
`Settings.SafeDatabaseUrl` is the corrected definition.
`Settings.SafeUrlRoundTrip` and `Settings.SafeUrlInjective` prove that
every configuration comes back from its URL. Nothing else in the model
builds a URL.
