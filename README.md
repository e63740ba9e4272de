# V4Fire Core: a verified model of its sequential core

This project models, in Dafny, the parts of V4Fire Core that decide things step by step:

- `SyncPromise`, a promise that settles and drains its handler lists synchronously;
- the task `Queue` and its coalescing `MergeQueue`;
- the decision logic of the request pipeline: middleware short-circuit, the order of cache tiers, response validation and the encoder fold;
- the `Range` class;
- `Array.prototype.union`;
- the i18n string tags `t`/`l`, dictionary lookup and normalisation, and `setLang`;
- the unit classification of `Date.prototype.relative`.

Asynchrony becomes explicit events:
- a queue worker's promise settling is `MergeQueue.MergeQueue.Settle`;
- the deferred `perform` timer firing is `MergeQueue.MergeQueue.FireDeferred`;
- user callbacks of a promise are a behaviour function `behave(j, v)` that returns a value or throws;
- an executor is a list of `resolve`/`reject` calls, followed by an ending that finishes or throws.

Layout, one module per source file, with SyncPromise split into five files:

| file | module | models |
|---|---|---|
| wrappers.dfy | Wrappers | `Option` |
| sync_promise_state.dfy | SyncPromiseState | the heap of promise cells and the settlement cascade as functions |
| sync_promise_props.dfy | SyncPromiseProps | settle-once, drain order, reachability of pending promises |
| sync_promise_ops.dfy | SyncPromiseOps | what `call`, the executor, `then`, `catch` and `finally` do |
| sync_promise_static.dfy | SyncPromiseStatic | static `resolve`, `reject`, `all`, `race` |
| sync_promise.dfy | SyncPromise | class `PromiseHeap`: the mutable promises, each method proved equal to its transition |
| merge_queue.dfy | QueueState, MergeQueue | queue transitions and their invariant; class `MergeQueue` |
| request.dfy | Request | request routing, `success`, encoders, `merge` of arrays |
| range.dfy | Range | class `Range` over numbers with +∞, −∞ and NaN |
| array_union.dfy | ArrayUnion | `union` |
| i18n.dfy | I18n | normalisation, `i18n`, class `Localizer` with `setLang`, `t`, `l` |
| relative_date.dfy | RelativeDate | `relative(from, to)` |

All promise instances live in one arena, `PromiseHeap`. A promise is an index into `cells`. A handler is an abstract action:
- `Wrapped(callback, derived)` is a `then`/`catch` wrapper;
- `Settler(derived, fulfil)` is the raw `resolve`/`reject` that `finally` pushes.

A callback is one of:
- `User(j)`;
- the derived promise's own `ResolveFn`/`RejectFn`;
- `AllSlot(a, i)` for `all`.

`log` records every settlement, wrapper run, hook call, callback invocation and thenable adoption in order. Drain order and "exactly once" are stated over `log`.

## Model

| member | source | states |
|---|---|---|
| SyncPromise.PromiseHeap.IsPending | src/core/promise/sync/index.ts:160-162 | true exactly when the promise's state is pending |
| SyncPromise.PromiseHeap.Settle | src/core/promise/sync/index.ts:196-222 | the constructor's resolve/reject make the cascade transition `SyncPromiseState.Settle` on the heap, including nested settlements |
| SyncPromise.PromiseHeap.Drain | src/core/promise/sync/index.ts:204-218 | the `forEach` over the captured handler list makes exactly the `SyncPromiseState.Drain` transition |
| SyncPromise.PromiseHeap.RunHooks | src/core/promise/sync/index.ts:205-219 | finally hooks are called in order; cells and `all` records are unchanged, and one hook event per hook is appended |
| SyncPromise.PromiseHeap.RunHandler | src/core/promise/sync/index.ts:259-304 | a handler entry makes the `SyncPromiseState.Run` transition |
| SyncPromise.PromiseHeap.Call | src/core/promise/sync/index.ts:326-351 | `call` makes the `SyncPromiseState.Call` transition for the derived promise |
| SyncPromise.PromiseHeap.Slot | src/core/promise/sync/index.ts:115-127 | the slot callback of `all` makes the `SyncPromiseState.Slot` transition (store result, count, settle when complete) |
| SyncPromise.PromiseHeap.Resolve | src/core/promise/sync/index.ts:196-208 | external `resolve(v)` of a promise is settlement as fulfilled |
| SyncPromise.PromiseHeap.Reject | src/core/promise/sync/index.ts:210-222 | external `reject(e)` of a promise is settlement as rejected |
| SyncPromise.PromiseHeap.Construct | src/core/promise/sync/index.ts:189-225 | `new SyncPromise(executor)` makes the `SyncPromiseState.Construct` transition |
| SyncPromise.PromiseHeap.Then | src/core/promise/sync/index.ts:253-270 | makes the `SyncPromiseState.Then` transition and returns the derived promise |
| SyncPromise.PromiseHeap.Catch | src/core/promise/sync/index.ts:278-290 | makes the `SyncPromiseState.Catch` transition |
| SyncPromise.PromiseHeap.Finally | src/core/promise/sync/index.ts:298-316 | makes the `SyncPromiseState.Finally` transition |
| SyncPromise.PromiseHeap.StaticResolve | src/core/promise/sync/index.ts:42-55 | makes the `SyncPromiseState.StaticResolve` transition |
| SyncPromise.PromiseHeap.StaticReject | src/core/promise/sync/index.ts:61-63 | makes the `SyncPromiseState.StaticReject` transition |
| SyncPromise.PromiseHeap.ResolveEach | src/core/promise/sync/index.ts:102-144 | the loop that resolves every input makes the `SyncPromiseState.ResolveEach` transition |
| SyncPromise.PromiseHeap.AttachEach | src/core/promise/sync/index.ts:115-153 | the loop that attaches to every input makes the `SyncPromiseState.AttachEach` transition |
| SyncPromise.PromiseHeap.All | src/core/promise/sync/index.ts:95-129 | makes the `SyncPromiseState.All` transition |
| SyncPromise.PromiseHeap.Race | src/core/promise/sync/index.ts:135-155 | makes the `SyncPromiseState.Race` transition |
| SyncPromise.PromiseHeap.constructor | src/core/promise/sync/index.ts:167-187 | an empty heap with the given callback behaviour |
| SyncPromiseState.Settle | src/core/promise/sync/index.ts:196-222 | a settlement cascade only settles pending promises, never reverts a settled one, only appends to the log, and does not increase the number of pending promises |
| SyncPromiseState.Drain | src/core/promise/sync/index.ts:204-218 | same frame, log and pending-count guarantees for draining one list |
| SyncPromiseState.Call | src/core/promise/sync/index.ts:326-351 | same frame, log and pending-count guarantees for one callback call |
| SyncPromiseState.Slot | src/core/promise/sync/index.ts:115-127 | same frame, log and pending-count guarantees for one `all` slot |
| SyncPromiseState.Run | src/core/promise/sync/index.ts:259-304 | one handler entry allocates nothing, changes a promise only by settling a pending one, only appends to the log and does not increase the number of pending promises |
| SyncPromiseState.Execute | src/core/promise/sync/index.ts:189-225 | the executor's resolve/reject calls allocate nothing, change a promise only by settling a pending one, and only append to the log |
| SyncPromiseState.ResolveEach | src/core/promise/sync/index.ts:102-144 | one promise index per input, each naming a promise of the new heap; existing promises and the `all` records are untouched and the log only grows |
| SyncPromiseState.AttachEach | src/core/promise/sync/index.ts:115-153 | attaching to every input keeps every settled promise, may only add promises, and only appends to the log |
| SyncPromiseState.All | src/core/promise/sync/index.ts:95-129 | `all` allocates its combined promise at the next index and only appends to the log |
| SyncPromiseState.Race | src/core/promise/sync/index.ts:135-155 | `race` allocates its combined promise at the next index and only appends to the log |
| SyncPromiseState.SettleLone | src/core/promise/sync/index.ts:196-222 | settling a promise with no handlers sets exactly its state and value and logs one settlement |
| SyncPromiseState.Construct | src/core/promise/sync/index.ts:189-225 | allocates exactly one new promise and returns its index |
| SyncPromiseState.Then | src/core/promise/sync/index.ts:253-270 | allocates exactly one derived promise; existing settled promises are unchanged |
| SyncPromiseState.Catch | src/core/promise/sync/index.ts:278-290 | allocates exactly one derived promise and extends the log; what happens to it is stated by `CatchPending`, `CatchRejected`, `CatchFulfilled`, `CatchThenReject` and `CatchThenFulfil` |
| SyncPromiseState.Finally | src/core/promise/sync/index.ts:298-316 | allocates exactly one derived promise |
| SyncPromiseState.StaticResolve | src/core/promise/sync/index.ts:42-55 | a SyncPromise argument is returned as the very same instance with nothing changed; a thenable gives a new pending promise handed to that thenable; any other value gives a new promise fulfilled with it |
| SyncPromiseState.StaticReject | src/core/promise/sync/index.ts:61-63 | a new promise rejected with the reason, and one settlement logged |
| SyncPromiseState.HookEvents | src/core/promise/sync/index.ts:205-219 | one hook event per finally handler, in registration order |
| SyncPromiseState.PendingCountMonotone | src/core/promise/sync/index.ts:197-213 | when no promise becomes pending again, the number of pending promises does not grow |
| SyncPromiseProps.SettleOnce | src/core/promise/sync/index.ts:196-222 | the first resolve/reject sets the state and value; any later resolve or reject changes nothing at all |
| SyncPromiseProps.SettledStays | src/core/promise/sync/index.ts:197-213 | a settled promise keeps its cell through any cascade |
| SyncPromiseProps.DrainOrder | src/core/promise/sync/index.ts:201-221 | after settling, the cell holds (state, value) with all three lists empty; the promise's own events are its settlement, then one wrapper run per matching handler in registration order with the value, then one call per finally hook in order |
| SyncPromiseProps.DrainFires | src/core/promise/sync/index.ts:204-218 | while draining, the only events attributed to the source are its handler runs, in order |
| SyncPromiseProps.SettleQuiet | src/core/promise/sync/index.ts:197-213 | a cascade adds no events attributed to an already-settled promise |
| SyncPromiseProps.OwnAppend | src/core/promise/sync/index.ts:204-205 | the events attributed to one promise in a concatenated log are those of each part, concatenated |
| SyncPromiseProps.SettleKeeps | src/core/promise/sync/index.ts:196-222 | a pending promise that no handler can reach stays unchanged and unreachable while another promise settles |
| SyncPromiseProps.DrainKeeps | src/core/promise/sync/index.ts:204-218 | the same for draining a list that does not target it |
| SyncPromiseProps.CallKeeps | src/core/promise/sync/index.ts:326-351 | the same for running a callback that does not target it |
| SyncPromiseProps.FrameUnwatched | src/core/promise/sync/index.ts:190-194 | handler lists only shrink to empty on settlement, so an unreachable promise stays unreachable |
| SyncPromiseOps.FrameWellFormed | src/core/promise/sync/index.ts:190-194 | if every handler target is an existing promise before a cascade, it still is after it |
| SyncPromiseOps.SettleFirstEvent | src/core/promise/sync/index.ts:201-204 | the state is stored before any handler runs: the settlement is the first new event |
| SyncPromiseOps.CallOutcome | src/core/promise/sync/index.ts:259-350 | a wrapper settles its derived promise: a missing callback passes the state and value through; a callback's returned value fulfils it, whichever list the callback came from; a throw rejects it with the error; a returned thenable takes it over and it stays pending |
| SyncPromiseOps.ExecuteSettled | src/core/promise/sync/index.ts:197-213 | resolve/reject calls on a settled promise change nothing |
| SyncPromiseOps.ConstructOutcome | src/core/promise/sync/index.ts:224-350 | the executor's first resolve/reject call decides the new promise; an executor that throws before settling rejects it with the error; otherwise it stays pending |
| SyncPromiseOps.ThenPending | src/core/promise/sync/index.ts:262-264 | on a pending promise, `then` appends exactly one wrapper to the resolve list and one to the reject list, changes nothing else, and the derived promise is pending |
| SyncPromiseOps.ThenSettled | src/core/promise/sync/index.ts:266-268 | on a settled promise, `then` runs the matching wrapper at once with the stored value, and the derived promise takes that call's outcome |
| SyncPromiseOps.ThenPassesThrough | src/core/promise/sync/index.ts:259-260 | `then()` with no callbacks gives the derived promise the same state and value |
| SyncPromiseOps.ThenRecovers | src/core/promise/sync/index.ts:260-345 | a reject callback that returns a plain value fulfils the derived promise with it |
| SyncPromiseOps.CatchFulfilled | src/core/promise/sync/index.ts:283-288 | `catch` on a fulfilled promise leaves the derived promise pending, with no handler anywhere that could settle it |
| SyncPromiseOps.CatchThenFulfil | src/core/promise/sync/index.ts:283-284 | `catch` on a pending promise that is later fulfilled leaves the derived promise pending and unreachable |
| SyncPromiseOps.UnwatchedStays | src/core/promise/sync/index.ts:196-222 | an unreachable pending promise is unchanged by any other settlement |
| SyncPromiseOps.FinallySettled | src/core/promise/sync/index.ts:308-313 | `finally` on a settled promise gives the derived promise the same state and value, then calls the callback once |
| SyncPromiseOps.DrainLast | src/core/promise/sync/index.ts:204-306 | the raw settler that `finally` appends settles its derived promise with the source's state and value |
| SyncPromiseOps.FinallyThenSettle | src/core/promise/sync/index.ts:204-306 | `finally(cb)` on a pending promise that then settles: the derived promise gets the same state and value while the lists drain, and `cb` runs once, afterwards, as the settlement's last event |
| SyncPromiseOps.DrainLastWrapped | src/core/promise/sync/index.ts:204-218 | a wrapper that ends a drained list, for a derived promise nothing else reaches, gives that promise the outcome of its call |
| SyncPromiseOps.SettleReachesLast | src/core/promise/sync/index.ts:196-222 | settling a promise whose matching list ends with such a wrapper gives its derived promise the outcome of the call |
| SyncPromiseOps.ThenPendingUnwatched | src/core/promise/sync/index.ts:257-264 | the derived promise of `then` on a pending promise is reached only through the two wrappers just appended |
| SyncPromiseOps.ThenThenSettle | src/core/promise/sync/index.ts:257-268 | `then` on a pending promise that settles later: the source takes the state and value, and the derived promise the outcome of the matching callback, as on an already-settled source |
| SyncPromiseOps.ThenPassesThroughLater | src/core/promise/sync/index.ts:259-260 | `then()` with no callbacks on a pending promise that settles later gives the derived promise the same state and value |
| SyncPromiseOps.ThenRecoversLater | src/core/promise/sync/index.ts:260-345 | a reject callback returning a plain value fulfils the derived promise with it also when the rejection comes after `then` |
| SyncPromiseOps.CatchPending | src/core/promise/sync/index.ts:283-284 | on a pending promise, `catch` appends exactly one wrapper to the reject list only, leaves the resolve and finally lists and every other cell alone, and the derived promise is fresh |
| SyncPromiseOps.CatchRejected | src/core/promise/sync/index.ts:286-288 | `catch` on a rejected promise runs the wrapper at once: the derived promise takes the callback's outcome, or the rejection when the callback is missing |
| SyncPromiseOps.CatchThenReject | src/core/promise/sync/index.ts:281-284 | `catch` on a pending promise that is rejected later: the derived promise takes the callback's outcome, or the rejection when the callback is missing |
| SyncPromiseOps.EmptyWellFormed | src/core/promise/sync/index.ts:189-194 | a heap with no promises is well formed |
| SyncPromiseOps.AddWellFormed | src/core/promise/sync/index.ts:189-194 | a new promise with empty lists keeps every handler target existing |
| SyncPromiseOps.SettleWellFormed | src/core/promise/sync/index.ts:196-222 | a settlement keeps every handler target existing |
| SyncPromiseOps.ExecuteWellFormed | src/core/promise/sync/index.ts:224 | running the executor's calls keeps every handler target existing |
| SyncPromiseOps.ConstructWellFormed | src/core/promise/sync/index.ts:189-225 | `new SyncPromise(executor)` keeps every handler target existing |
| SyncPromiseOps.AppendTargets | src/core/promise/sync/index.ts:263-264 | appending a handler whose targets exist keeps a list's targets existing |
| SyncPromiseOps.ReplaceWellFormed | src/core/promise/sync/index.ts:262-264 | replacing a cell's lists by lists whose targets exist keeps the heap well formed |
| SyncPromiseOps.ThenWellFormed | src/core/promise/sync/index.ts:253-270 | `then` keeps every handler target existing when its callbacks name existing promises or the derived one |
| SyncPromiseOps.CatchWellFormed | src/core/promise/sync/index.ts:278-290 | the same for `catch` |
| SyncPromiseOps.FinallyWellFormed | src/core/promise/sync/index.ts:298-316 | the same for `finally` |
| SyncPromiseOps.StaticResolveWellFormed | src/core/promise/sync/index.ts:42-55 | the same for static `resolve` |
| SyncPromiseOps.StaticRejectWellFormed | src/core/promise/sync/index.ts:61-63 | the same for static `reject` |
| SyncPromiseStatic.AllEmpty | src/core/promise/sync/index.ts:107-110 | `all([])` fulfils with the empty array |
| SyncPromiseStatic.RaceEmpty | src/core/promise/sync/index.ts:146-149 | `race([])` fulfils with undefined |
| SyncPromiseStatic.ResolveEachReady | src/core/promise/sync/index.ts:43-55 | resolving settled inputs gives settled promises with the same outcomes |
| SyncPromiseStatic.ThenForwards | src/core/promise/sync/index.ts:151-153 | a settled input forwards its state and value to the combined promise |
| SyncPromiseStatic.RaceFirstReady | src/core/promise/sync/index.ts:135-155 | when the first input is already settled, `race` settles with that input's state and value |
| SyncPromiseStatic.Outcomes | src/core/promise/sync/index.ts:98-104 | the outcome of every input, position by position |
| SyncPromiseStatic.AllFulfilledMeaning | src/core/promise/sync/index.ts:115-127 | once every input is fulfilled, `all`'s combined result is fulfilled with the results in input positions |
| SyncPromiseStatic.FirstRejectionMeaning | src/core/promise/sync/index.ts:115-127 | `all` rejects with the first rejection by input position |
| SyncPromiseStatic.AllStepFulfilled | src/core/promise/sync/index.ts:117-123 | attaching to a fulfilled input stores its value in its slot and counts it |
| SyncPromiseStatic.AllStepRejected | src/core/promise/sync/index.ts:126 | attaching to a rejected input rejects the combined promise unless it is settled already |
| SyncPromiseStatic.AllLoopEnd | src/core/promise/sync/index.ts:115-127 | after the loop, the combined cell is the reference result |
| SyncPromiseStatic.AllReady | src/core/promise/sync/index.ts:95-129 | on settled inputs, `all` leaves the combined promise holding exactly the reference result: fulfilled with the ordered values, or rejected with the first rejection |
| SyncPromiseStatic.ResolveEachWellFormed | src/core/promise/sync/index.ts:103-105 | resolving every input keeps every handler target existing |
| SyncPromiseStatic.AttachEachWellFormed | src/core/promise/sync/index.ts:115-127 | attaching to every input keeps every handler target existing |
| SyncPromiseStatic.AllWellFormed | src/core/promise/sync/index.ts:95-129 | `all` keeps every handler target existing |
| SyncPromiseStatic.RaceWellFormed | src/core/promise/sync/index.ts:135-155 | `race` keeps every handler target existing |
| SyncPromiseStatic.SlotCounts | src/core/promise/sync/index.ts:117-122 | the slot callback on a pending combined promise writes position i and counts it; the count that reaches the number of inputs fulfils the combined promise with the array |
| SyncPromiseStatic.DrainReaches | src/core/promise/sync/index.ts:204-218 | draining a list that holds a wrapper calling a promise's own resolve or reject leaves that promise settled |
| SyncPromiseStatic.InputSettlesCombined | src/core/promise/sync/index.ts:125-152 | an `all` input that rejects, or a `race` input that settles, while attached leaves the combined promise settled; by `SettledStays` it stays so |
| SyncPromiseStatic.ThenFresh | src/core/promise/sync/index.ts:257-264 | `then` on a promise with no handlers gives it exactly one wrapper in each list |
| SyncPromiseStatic.SettleSingle | src/core/promise/sync/index.ts:196-222 | settling a promise with one matching handler and no finally callback runs that handler and clears the lists |
| SyncPromiseStatic.AllTwo | src/core/promise/sync/index.ts:95-129 | `all([A, B])` on two fresh promises leaves a pending combined promise, a counter at 0 and a slot wrapper and a reject wrapper on each input |
| SyncPromiseStatic.RaceTwo | src/core/promise/sync/index.ts:135-155 | `race([A, B])` on two fresh promises leaves a pending combined promise whose resolve and reject are wrapped on each input |
| SyncPromiseStatic.ForwardSettles | src/core/promise/sync/index.ts:326-346 | a wrapper around a pending promise's own resolve or reject settles it with the argument |
| SyncPromiseStatic.SlotStepWaits | src/core/promise/sync/index.ts:117-122 | an input whose value is not the last to arrive is stored and counted, and changes no other promise but its own and its derived one |
| SyncPromiseStatic.SlotStepFills | src/core/promise/sync/index.ts:117-122 | the input whose value arrives last fulfils the combined promise with the array |
| SyncPromiseStatic.AllOutOfOrder | src/core/promise/sync/index.ts:95-129 | `all([A, B])`; B settles first and leaves the combined promise pending; A settles next and it is fulfilled with `[va, vb]`, in input order |
| SyncPromiseStatic.TwoSlotsFill | src/core/promise/sync/index.ts:115-127 | the two settlements of that scenario on the heap `all([A, B])` leaves |
| SyncPromiseStatic.AllInputRejects | src/core/promise/sync/index.ts:125 | an input rejecting while the combined promise is pending rejects it with the same reason |
| SyncPromiseStatic.AllRejectsFirst | src/core/promise/sync/index.ts:95-129 | `all([A, B])`: A rejects and the combined promise is rejected with A's reason; B's later value leaves it so |
| SyncPromiseStatic.RaceInputSettles | src/core/promise/sync/index.ts:151-153 | a `race` input settling while the combined promise is pending gives it that input's state and value |
| SyncPromiseStatic.RaceFirstSettles | src/core/promise/sync/index.ts:135-155 | `race([A, B])`: whichever input settles first decides the combined promise's state and value; the other one's later settlement leaves it so |
| QueueState.OrDefault | src/core/queue/interface.ts:77-78 | a missing or zero option gives the default, otherwise the option |
| QueueState.Head | src/core/queue/merge/index.ts:21-28 | undefined when empty, else the task stored under the first key |
| QueueState.ShiftSpec | src/core/queue/merge/index.ts:54-66 | on empty, nothing is removed; otherwise exactly the first key and its map entry are removed and its task is returned, the rest keep their order; stated about `QueueState.Shift` |
| QueueState.Enqueue | src/core/queue/merge/index.ts:75-95 | a known hash returns the existing handle and changes nothing; a new hash adds one map entry and appends exactly one key |
| QueueState.PerformSpec | src/core/queue/merge/index.ts:99-123 | on an empty queue, only `activeWorkers` is decremented; otherwise exactly the head key is removed and the worker runs once on the stored task, and a synchronous throw becomes the handle's rejection; stated about `QueueState.Perform` |
| QueueState.StartCount | src/core/queue/interface.ts:134-144 | the number of workers started is min(concurrency − activeWorkers, length) when positive |
| QueueState.StartFromSpec | src/core/queue/interface.ts:137-143 | each of the n `perform` calls increments `activeWorkers` once and shifts one key |
| QueueState.StartSpec | src/core/queue/interface.ts:134-144 | `start` performs exactly max(0, min(concurrency − activeWorkers, length)) times, and keeps `activeWorkers ≤ concurrency` when it held before; stated about `QueueState.Start` |
| QueueState.InitInv | src/core/queue/interface.ts:66-79 | the fresh queue satisfies the invariant |
| QueueState.PushKeeps | src/core/queue/merge/index.ts:75-96 | `push` keeps the invariant: no duplicate queued keys, every queued or in-flight key has a map entry, and `activeWorkers` counts in-flight workers and pending deferred calls and is at most `concurrency`; stated about `QueueState.Push` |
| QueueState.SettleKeeps | src/core/queue/merge/index.ts:116-121 | a worker's promise settling keeps the invariant; stated about `QueueState.Settle` |
| QueueState.FireDeferredKeeps | src/core/queue/interface.ts:113-129 | the deferred `perform` firing keeps the invariant; stated about `QueueState.FireDeferred` |
| QueueState.ShiftKeeps | src/core/queue/merge/index.ts:54-66 | `shift` keeps the invariant |
| QueueState.StartKeeps | src/core/queue/interface.ts:134-144 | `start` re-establishes the invariant |
| QueueState.MergedPushShares | src/core/queue/merge/index.ts:79-81 | a push whose hash is queued or in flight returns the shared handle and changes nothing |
| QueueState.PushAfterSettleIsFresh | src/core/queue/merge/index.ts:116-121 | after the worker's promise settles, a push of the same hash creates a fresh entry |
| QueueState.SettleOnce | src/core/queue/merge/index.ts:116-118 | settling a handle twice is the same as settling it once |
| MergeQueue.MergeQueue.constructor | src/core/queue/interface.ts:75-79 | `concurrency` defaults to 1 and `interval` to 0 when missing or zero; `hashFn` defaults to `String`; the queue starts empty |
| MergeQueue.MergeQueue.Length | src/core/queue/interface.ts:57-59 | the number of queued keys |
| MergeQueue.MergeQueue.Head | src/core/queue/merge/index.ts:21-28 | undefined for an empty queue or a first key with no entry, otherwise the task stored under the first key |
| MergeQueue.MergeQueue.Shift | src/core/queue/merge/index.ts:54-66 | makes the `QueueState.Shift` transition |
| MergeQueue.MergeQueue.Clear | src/core/queue/merge/index.ts:69-72 | makes the `QueueState.Clear` transition: empty queue and map, no active workers; `QueueState.Clear` empties exactly those three fields |
| MergeQueue.MergeQueue.Push | src/core/queue/merge/index.ts:75-96 | makes the `QueueState.Push` transition with `hashFn(task)` |
| MergeQueue.MergeQueue.ResolveTask | src/core/queue/merge/index.ts:131-138 | makes the `QueueState.ResolveTask` transition |
| MergeQueue.MergeQueue.Perform | src/core/queue/merge/index.ts:99-123 | makes the `QueueState.Perform` transition |
| MergeQueue.MergeQueue.Start | src/core/queue/interface.ts:134-144 | the loop makes the `QueueState.Start` transition |
| MergeQueue.MergeQueue.Settle | src/core/queue/merge/index.ts:116-121 | makes the `QueueState.Settle` transition |
| MergeQueue.MergeQueue.FireDeferred | src/core/queue/interface.ts:113-129 | makes the `QueueState.FireDeferred` transition |
| Request.FnResults | src/core/request/index.ts:160-166 | the results of the function-valued middlewares, non-empty when any middleware is a function |
| Request.FnResultsMembers | src/core/request/index.ts:160-166 | the results are exactly those of the function-valued middlewares |
| Request.Collapse | src/core/request/index.ts:167-172 | no results give undefined, one gives that result, two or more give the whole sequence |
| Request.Run | src/core/request/index.ts:155-239 | a function middleware short-circuits with no cache probe; otherwise, when caching is allowed, the pending cache is used first and alone, then the memory cache (served even offline), then the persisted tier (only when offline with `offlineCache` and a stored key); offline without a hit and without `externalRequest` rejects as offline; otherwise the transport runs with `success` and a cache save; caching disallowed probes nothing |
| Request.CheckResponse | src/core/request/index.ts:211-224 | `!ok` gives the invalid-status error carrying the response; an external request while offline with empty data gives the offline error; otherwise the data |
| Request.EncodeSpec | src/core/request/index.ts:231-233 | no encoders leave the body; otherwise the first encoder gets a clone and the rest fold left to right; stated about `Request.Encode` |
| Request.ComposeSnoc | src/core/request/index.ts:231-233 | folding one more encoder applies it last; stated about `Request.Compose`, the fold |
| Request.MergeArraysSpec | src/core/request/index.ts:69-73 | merging option arrays gives their duplicate-free union; stated about `Request.MergeArrays` |
| Range.Max | src/core/range.ts:133-155 | the larger bound, NaN when either is NaN |
| Range.Min | src/core/range.ts:133-155 | the smaller bound, NaN when either is NaN |
| Range.NormalizeSpec | src/core/range.ts:46-49 | after normalisation start ≤ end, and the bounds are swapped and `reverse` set exactly when start > end; stated about `Range.Normalize`, the constructor's swap |
| Range.NormalizeSymmetric | src/core/range.ts:46-49 | swapping distinct bounds gives the same range with the opposite `reverse` |
| Range.StepsStepped | src/core/range.ts:169-175 | every listed element is start + k·step and lies between start and end; stated about `Range.Steps`, the list the `toArray` loop builds |
| Range.StepsCount | src/core/range.ts:169-175 | the list holds every step from start up to end and no more, for `Range.Steps` |
| Range.Reverse | src/core/range.ts:177-179 | the reversed list |
| Range.Range.constructor | src/core/range.ts:34-50 | the bounds are the normalised raw bounds: a string range reads the code point at position 0 of start and at the last code unit of end (+∞ for a non-string end); otherwise `Number(start)`, and `Number(end)` or +∞ for a missing end; start ≤ end; the raw bounds are `Range.RawBounds` |
| Range.Utf16 | src/core/range.ts:234-236 | a character of the Basic Multilingual Plane is the one code unit equal to it, and no surrogate; any other character is a high surrogate followed by a low surrogate |
| Range.CodeAtUtf16 | src/core/range.ts:229-232 | reading the code point at the start of an encoded character gives the character back, whatever follows it; stated about `Range.CodeAt`, which models `codePointAt` (range.ts:229-232) |
| Range.LastUnitOfPair | src/core/range.ts:36-37 | a string that ends with a surrogate pair gives its low surrogate as the last code unit |
| Range.TrimStart | src/core/range.ts:42-44 | the result is a suffix of the input that does not start with white space |
| Range.TrimEnd | src/core/range.ts:42-44 | the result is a prefix of the input that does not end with white space |
| Range.DigitValue | src/core/range.ts:42-44 | the value is below 10 exactly for `0`-`9`, and 16 exactly for a code unit that is not one of `0`-`9`, `a`-`f`, `A`-`F` |
| Range.DecimalDigits | src/core/range.ts:42-44 | the decimal form of n consists of digits whose value is n |
| Range.NoTrim | src/core/range.ts:42-44 | a string with no white space at either end is not trimmed |
| Range.NumberOfString | src/core/range.ts:42-44 | `Number(String(n))` is n for every integer, negative ones included; stated about `Range.StringToNumber`, which `Range.ToNumber` uses for a string |
| Range.NumberIgnoresSpace | src/core/range.ts:42-44 | white space around a string does not change its number |
| Range.TrimStartEnd | src/core/range.ts:42-44 | a trailing line break is trimmed away |
| Range.DecimalLiteral | src/core/range.ts:42-44 | the decimal form of a natural number reads back as that number and has no prefix, sign or surrounding space |
| Range.UnsignedLiteral | src/core/range.ts:42-44 | an unsigned digit string with no prefix, sign or surrounding space keeps its value through `Number` |
| Range.SignedLiteral | src/core/range.ts:42-44 | a minus sign before a digit string negates its value |
| Range.SpaceTrim | src/core/range.ts:42-44 | a leading space and a trailing line break are both trimmed away |
| Range.Enumerate | src/core/range.ts:169-175 | the stepping loop yields exactly the list of steps from start up to end, cut at the largest safe integer |
| Range.Range.Clone | src/core/range.ts:62-70 | a new range built by the constructor from the bounds, so they are swapped back into order if a caller reversed them, with the same type and `reverse`; an ordered range keeps its bounds |
| Range.Range.ContainsValue | src/core/range.ts:78-85 | `contains(v)` holds exactly when start ≤ v ≤ end |
| Range.ContainsRangeSpec | src/core/range.ts:78-141 | `contains(range)` holds exactly when max(starts) < min(ends), so ranges that only touch are not contained; stated about `Range.Range.ContainsRange` (range.ts:79-81) |
| Range.ClampKeepsContained | src/core/range.ts:78-108 | on a valid range, `clamp` returns a non-NaN value unchanged exactly when `contains` holds for it |
| Range.Range.Clamp | src/core/range.ts:91-108 | an invalid range returns the value; for a valid range, a non-NaN value and a non-NaN end: `end` above, `start` below, the value in between, so the result lies inside [start, end] |
| Range.Range.Span | src/core/range.ts:115-125 | NaN when invalid, +∞ for an infinite end, else end − start + 1, which is +∞ for a start of −∞ and at least 1 for finite ordered bounds; validity is `Range.Range.IsValid`, a start that is not NaN (range.ts:55-57) |
| Range.SpanCountsSteps | src/core/range.ts:115-125 | on a finite range below the largest safe integer, the span is the number of values `toArray()` lists with step 1 |
| Range.IntersectBounds | src/core/range.ts:133-141 | max(starts)..min(ends) when max(starts) < min(ends), else the invalid range |
| Range.Range.Intersect | src/core/range.ts:133-141 | a new range with the intersection bounds, the same type and no reverse flag |
| Range.UnionCovers | src/core/range.ts:149-155 | the union runs from min(starts) to max(ends) and contains every value of both operands |
| Range.Range.Union | src/core/range.ts:149-155 | a new range with the union bounds |
| Range.Range.ToArray | src/core/range.ts:161-182 | empty when invalid or when start is above end; a start at or above the largest safe integer (+∞ included) gives that start alone, for any step; otherwise start, start+step, … up to end, stopping at the largest safe integer, reversed when `reverse` |
| Range.Range.ToString | src/core/range.ts:187-209 | 'Invalid range', or 'start..end', or 'start..' for an open end, with the bounds swapped when `reverse`, as UTF-16 code units |
| ArrayUnion.Concat | src/core/prelude/array/index.ts:13 | the concatenation has the total length of the inputs |
| ArrayUnion.ConcatMembers | src/core/prelude/array/index.ts:13 | x is in the concatenation exactly when it is in `this` or in some argument |
| ArrayUnion.DedupMembers | src/core/prelude/array/index.ts:13 | the set keeps exactly the input's elements, for `ArrayUnion.Dedup`, the `new Set` step |
| ArrayUnion.DedupDistinct | src/core/prelude/array/index.ts:13 | the result has no duplicate elements |
| ArrayUnion.DedupShorter | src/core/prelude/array/index.ts:13 | the result is no longer than the input |
| ArrayUnion.DedupOfDistinct | src/core/prelude/array/index.ts:13 | a duplicate-free input is returned unchanged |
| ArrayUnion.DedupFirstOccurrenceOrder | src/core/prelude/array/index.ts:13 | elements appear in the order of their first occurrence |
| ArrayUnion.UnionSpec | src/core/prelude/array/index.ts:12-14 | `union` is duplicate-free, ordered by first occurrence in `this ++ args`, no longer than the inputs, and equal to the concatenation when that is duplicate-free; stated about `ArrayUnion.Union`, which models `union` (array/index.ts:12-14), and `ArrayUnion.Dedup`, its `new Set` step |
| I18n.DropBreaks | src/core/i18n.ts:22 | the result is a suffix of the input, every dropped character is a line break, and the result does not start with one |
| I18n.Normalize | src/core/i18n.ts:22-31 | the result has no CR or LF and is no longer than the input |
| I18n.NormalizeClean | src/core/i18n.ts:31 | a string without line breaks is unchanged |
| I18n.NormalizeIdempotent | src/core/i18n.ts:31 | normalising twice is normalising once |
| I18n.NormalizeRun | src/core/i18n.ts:22-31 | every CR/LF run becomes exactly one space |
| I18n.NormalizeTableSpec | src/core/i18n.ts:25-34 | the normalised dictionary has exactly the normalised keys, and no key or value holds a line break; stated about `I18n.NormalizeTable`, one language, and `I18n.NormalizeLangs`, every language |
| I18n.NormalizeTableLastWins | src/core/i18n.ts:30-33 | when keys collide after normalisation, the last entry's normalised value wins |
| I18n.InterleaveSnoc | src/core/i18n.ts:108-110 | each segment i is followed by `exprs[i]` when that index exists |
| I18n.InterleaveNoExprs | src/core/i18n.ts:102-105 | without exprs the result is the concatenation of the segments |
| I18n.InterleaveIgnoresExtra | src/core/i18n.ts:108-135 | exprs beyond the segments are ignored |
| I18n.Localizer.constructor | src/core/i18n.ts:39-45 | the localizer holds the dictionary and the initial language |
| I18n.Localizer.SetLang | src/core/i18n.ts:73-87 | `lang = value`, `isLangDef = def`, and `value` is returned |
| I18n.Localizer.TranslateAll | src/core/i18n.ts:103-110 | one element per segment, the i-th being the `i18n` lookup of the i-th segment in the current language |
| I18n.Localizer.TranslateResult | src/core/i18n.ts:146-156 | with an empty language the string is returned unchanged; otherwise the dictionary entry, free of line breaks, when the language and the key are present, and the string itself when either is missing; a string with a line break always comes back unchanged; stated about `I18n.Localizer.Translate`, the `i18n` lookup (i18n.ts:146-156) |
| I18n.Localizer.T | src/core/i18n.ts:92-114 | `t(null)` is ''; a non-array gives `i18n` of it; an array gives the translated segments interleaved with exprs |
| I18n.Localizer.L | src/core/i18n.ts:119-138 | `l(null)` is ''; a non-array gives it as a string; a one-element array gives that element whatever the exprs; otherwise the raw segments interleaved with exprs, never translated |
| RelativeDate.Find | src/core/prelude/date/relative.ts:35-46 | the first table row whose bound exceeds \|diff\|, every earlier bound being at most \|diff\| |
| RelativeDate.BoundsIncrease | src/core/prelude/date/relative.ts:25-33 | the table's bounds strictly increase |
| RelativeDate.FindInRange | src/core/prelude/date/relative.ts:35-46 | row k is chosen exactly when the previous bound ≤ \|diff\| < this row's bound |
| RelativeDate.RelativeUnit | src/core/prelude/date/relative.ts:21-52 | `diff = to − from`; 'milliseconds' exactly when \|diff\| < 1000, 'seconds' exactly when 1000 ≤ \|diff\| < 60000, and so on up to 'years' exactly when \|diff\| ≥ 365 days; stated about `RelativeDate.RelativeTo`, which models `relative` (relative.ts:21-53) |
| RelativeDate.RelativeSymmetric | src/core/prelude/date/relative.ts:39 | swapping from and to keeps the unit and negates `diff` and `value` |
| RelativeDate.RelativeMonotone | src/core/prelude/date/relative.ts:25-39 | a larger \|diff\| never selects an earlier row |
| RelativeDate.RelativeUnitMonotone | src/core/prelude/date/relative.ts:25-39 | a larger \|diff\| never gets a smaller unit |
| RelativeDate.RelativeValue | src/core/prelude/date/relative.ts:42-50 | `value` is `diff` divided by the previous row's bound (1 for milliseconds), as an exact rational |

## Left out

- Timers: the `setTimeout`/`setImmediate` inside `deferPerform` and the tick yield of the request become explicit events. `interval` is stored but no time is modelled.
- Chaining into thenables is not modelled. A thenable returned from a callback, or given to static `resolve`, is logged as an adoption, and the derived promise then waits for an external `Resolve`/`Reject` event. A returned SyncPromise is treated like any other thenable.
- `Object.isPromise` versus `Object.isPromiseLike`: a value is either a SyncPromise, another thenable, or a plain value.
- SyncPromise: finally hooks that throw, and handlers that call `then` on other promises from inside a callback. Callbacks are a pure behaviour function.
- SyncPromise: an executor that returns a promise.
- SyncPromiseOps.ThenSettled: stated for user callbacks and the wrapper's own resolve/reject, not for the slot callbacks that only `all` installs.
- SyncPromiseStatic.AllReady, SyncPromiseStatic.RaceFirstReady: stated for inputs that are already settled when `all`/`race` is called, because then the whole outcome is decided inside the call. Inputs that settle later are covered step by step by `SlotCounts`, `InputSettlesCombined` and `RaceInputSettles`, and end to end by the two-input scenarios `AllOutOfOrder`, `AllRejectsFirst` and `RaceFirstSettles`.
- SyncPromiseStatic.InputSettlesCombined: states that the combined promise is settled, not with which value. An earlier handler on the same input may settle it first, so the value depends on the whole heap. The exact value is stated for inputs with no other handlers, in `AllInputRejects` and `RaceInputSettles`.
- SyncPromiseStatic.AllOutOfOrder, SyncPromiseStatic.AllRejectsFirst, SyncPromiseStatic.RaceFirstSettles: two fresh inputs only, because a general statement would need the counter and the `resolved` array tracked through arbitrary interleaved cascades.
- SyncPromiseState.Catch: its own contract states only the allocation. Its behaviour in each state of the source is stated by the `Catch…` lemmas of `SyncPromiseOps`.
- SyncPromiseOps.ThenRecovers, SyncPromiseOps.ThenPassesThrough: stated for a source settled before the call. `ThenRecoversLater` and `ThenPassesThroughLater` state the same for a source that settles after it.
- SyncPromiseOps.ThenThenSettle, SyncPromiseOps.CatchThenReject, SyncPromiseOps.CatchRejected: stated for user callbacks, like `ThenSettled`, and for a heap whose handlers only name existing promises. The `…WellFormed` lemmas show that every operation keeps that property when its callbacks name existing promises.
- SyncPromise.PromiseHeap: the methods do not carry the well-formedness property themselves. It is established by `EmptyWellFormed` and preserved by the `…WellFormed` lemmas about the transitions the methods are proved equal to.
- Request: `Then`, `RequestContext`, the request engines, `storage`, `isOnline`, `concatUrls`/`resolveURL`, `Object.mixin`, `Object.fastClone` and the cache-key derivation are opaque. Their results are fields of the environment record.
- Range: `toType`, `fromCharCode` and Date conversion. The model works on numbers with explicit +∞, −∞ and NaN.
- Range.ToNumber: `Number` of a string is modelled for integer literals only: decimal with an optional sign, `0x`/`0o`/`0b` literals, `Infinity`, and white space or an empty string. A string with a fraction or an exponent becomes NaN, because the model's numbers are integers; in the source `Number("1.5")` is 1.5 and `Number("1e3")` is 1000.
- Range.CodeAt: models `codePointAt`. The `charCodeAt` fallback for engines without `codePointAt` is left out.
- I18n.Localizer.Translate: a language whose entry in the `lang` module is not an object is treated as a missing language. The source keeps that value and indexes it: a character of a string, a property of a number, or a falsy value returned as it is. A dictionary of strings cannot express this.
- MergeQueue: a worker that calls `push` or `clear` on the same queue while `start`'s loop runs is not modelled. The worker is a pure function from a task to an outcome.
- Range: non-integer steps and the floating-point value of `span`.
- Range: numbers are exact integers, so the rounding of doubles above 2^53 is not modelled, and neither is the `RangeError` that `toType` throws through `String.fromCodePoint` for a code point outside the Unicode range.
- Range.Range.ToArray: requires a positive step and a start other than −∞ only for a valid range whose start is at most its end and below the largest safe integer. On exactly those inputs the source loop does not terminate: a step that is not positive never reaches the end, and −∞ + step stays −∞. Every other input, whatever the step, is covered: an invalid range or a start above the end gives `[]`, and a start at or above the largest safe integer gives that start alone.
- RelativeDate: `Date.create` parsing (inputs are integer millisecond timestamps) and the `toFixed(2)` rounding (the value is the exact quotient).
- I18n: `asyncLocal` persistence, the `setLang` event emit, the `GLOBAL` assignment, the `isInitialized` bootstrap and the `lang` module import.
- MergeQueue: the native `Promise` is an abstract handle with a status.
- QueueState.PushKeeps, QueueState.SettleKeeps: the invariant is stated only for traces without `clear`. A `clear` while a task is in flight lets the stale callback delete a newer entry with the same key.
- `src/core/transport/interface.ts` (type declarations only) and `src/core/index.ts` (imports only) are not part of this model.

Where the code departs from conventional promise semantics, the model follows the code:
- The constructor's `resolve` stores a thenable as the value; it does not adopt it.
- `then` on a settled promise runs the wrapper synchronously.
- `catch` is not `then(undefined, onReject)`: on a fulfilled source its derived promise never settles.
- `race([])` fulfils with undefined.
