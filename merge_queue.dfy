/**
 * `core/queue/merge`: a FIFO scheduler that merges tasks with equal hashes.
 * Queued keys live in `tasks`; every registered key maps to its task and a shared
 * result promise. At most `concurrency` workers run at once. The base class from
 * `core/queue/interface` (option defaults, `length`, `start`, `clear`) is folded
 * into the one class here.
 *
 * Time and the native promises become explicit events: `Settle(h)` is the shared
 * promise `h` settling (its `then(cb, cb)` callback runs), and `FireDeferred()` is
 * the timer of one pending `deferPerform` firing.
 */
module QueueState {
  import opened Wrappers

  /** What a worker call did: returned (a value or a promise) or threw synchronously. */
  datatype Outcome<V> = Return(v: V) | Throw(e: V)

  /** A shared result promise: waiting in the queue, handed to the worker, or settled. */
  datatype Status<V> = Queued | InFlight(outcome: Outcome<V>) | Done(outcome: Outcome<V>)

  /** A shared result promise, with the hash it was created for. */
  datatype Handle<V> = Handle(key: string, status: Status<V>)

  /** A `tasksMap` entry: the task first pushed under the hash, and its promise. */
  datatype Entry<T> = Entry(task: T, handle: nat)

  /** The queue's observable state; `calls` lists the tasks given to the worker, in order. */
  datatype QState<T, V> = QState(
    tasks: seq<string>,
    tasksMap: map<string, Entry<T>>,
    activeWorkers: int,
    pendingDefers: nat,
    handles: seq<Handle<V>>,
    calls: seq<T>)

  /** The queue options; a missing hash function falls back to `String`. */
  datatype Options<!T> = Options(concurrency: Option<int>, interval: Option<int>, hashFn: Option<T -> string>)

  /** `opt || d` for a numeric option: a missing option or zero gives the default. */
  function OrDefault(opt: Option<int>, d: int): (r: int)
    ensures opt == None || opt == Some(0) ==> r == d
    ensures opt.Some? && opt.value != 0 ==> r == opt.value
  {
    if opt.Some? && opt.value != 0 then opt.value else d
  }

  function Min(a: int, b: int): int { if a < b then a else b }
  function Max(a: int, b: int): int { if a < b then b else a }

  /** The empty queue of a freshly constructed instance. */
  function Init<T, V>(): QState<T, V> {
    QState([], map[], 0, 0, [], [])
  }

  /** `length`. */
  function Length<T, V>(s: QState<T, V>): nat {
    |s.tasks|
  }

  /** `head`: the task registered under the first key, none when the queue is empty or the key has no entry. */
  function Head<T, V>(s: QState<T, V>): (r: Option<T>)
    ensures |s.tasks| == 0 ==> r == None
    ensures |s.tasks| > 0 && s.tasks[0] in s.tasksMap ==> r == Some(s.tasksMap[s.tasks[0]].task)
  {
    if |s.tasks| == 0 then None
    else if s.tasks[0] in s.tasksMap then Some(s.tasksMap[s.tasks[0]].task)
    else None
  }

  /** `shift`: drops the first key and its entry and yields the previous head. */
  function Shift<T, V>(s: QState<T, V>): (r: (QState<T, V>, Option<T>))
  {
    if |s.tasks| == 0 then (s, None)
    else (s.(tasks := s.tasks[1..], tasksMap := s.tasksMap - {s.tasks[0]}), Head(s))
  }

  /** `clear`: no keys, no entries, no active workers; promises already handed out stay as they are. */
  function Clear<T, V>(s: QState<T, V>): QState<T, V> {
    s.(tasks := [], tasksMap := map[], activeWorkers := 0)
  }

  /** The first half of `push`: register the task under its hash unless the hash is already present. */
  function Enqueue<T, V>(s: QState<T, V>, task: T, hash: string): (r: (QState<T, V>, nat))
    ensures hash in s.tasksMap ==> r == (s, s.tasksMap[hash].handle)
    ensures hash !in s.tasksMap ==>
      && r.1 == |s.handles|
      && r.0.tasks == s.tasks + [hash]
      && r.0.tasksMap == s.tasksMap[hash := Entry(task, r.1)]
      && r.0.handles == s.handles + [Handle(hash, Queued)]
      && r.0.activeWorkers == s.activeWorkers && r.0.pendingDefers == s.pendingDefers && r.0.calls == s.calls
  {
    if hash in s.tasksMap then (s, s.tasksMap[hash].handle)
    else
      var h := |s.handles|;
      (s.(tasks := s.tasks + [hash], tasksMap := s.tasksMap[hash := Entry(task, h)],
          handles := s.handles + [Handle(hash, Queued)]), h)
  }

  /** `resolveTask`: the worker is called with the task and its result (or synchronous throw) goes to the entry's promise. */
  function ResolveTask<T, V>(s: QState<T, V>, e: Entry<T>, worker: T -> Outcome<V>): QState<T, V> {
    s.(calls := s.calls + [e.task],
       handles := if e.handle < |s.handles|
                  then s.handles[e.handle := s.handles[e.handle].(status := InFlight(worker(e.task)))]
                  else s.handles)
  }

  /** `perform`: release the worker slot when there is nothing to do, otherwise take the first key and run its task. */
  function Perform<T, V>(s: QState<T, V>, worker: T -> Outcome<V>): QState<T, V> {
    if |s.tasks| == 0 then s.(activeWorkers := s.activeWorkers - 1)
    else
      var key := s.tasks[0];
      var s1 := s.(tasks := s.tasks[1..]);
      if key !in s.tasksMap then s1 else ResolveTask(s1, s.tasksMap[key], worker)
  }

  /** One round of the body of `start`: take a worker slot, then perform. */
  function Step<T, V>(s: QState<T, V>, worker: T -> Outcome<V>): QState<T, V> {
    Perform(s.(activeWorkers := s.activeWorkers + 1), worker)
  }

  /** `n` rounds of the body of `start`. */
  function StartFrom<T, V>(s: QState<T, V>, worker: T -> Outcome<V>, n: nat): QState<T, V>
    decreases n
  {
    if n == 0 then s else StartFrom(Step(s, worker), worker, n - 1)
  }

  /** How many rounds `start` runs: the free slots, but no more than the queued keys, and none when that is negative. */
  function StartCount<T, V>(s: QState<T, V>, concurrency: int): (n: nat)
    ensures n > 0 ==> n == Min(concurrency - s.activeWorkers, |s.tasks|)
  {
    Max(0, Min(concurrency - s.activeWorkers, |s.tasks|))
  }

  function Start<T, V>(s: QState<T, V>, concurrency: int, worker: T -> Outcome<V>): QState<T, V> {
    StartFrom(s, worker, StartCount(s, concurrency))
  }

  /** `push`: register (or merge), start workers, and hand back the entry's promise. */
  function Push<T, V>(s: QState<T, V>, task: T, hash: string, concurrency: int, worker: T -> Outcome<V>): (QState<T, V>, nat) {
    var (s1, h) := Enqueue(s, task, hash);
    (Start(s1, concurrency, worker), h)
  }

  /** The promise `h` settles: its callback deletes the hash it was created for and defers a `perform`. A promise that is not in flight does not settle here. */
  function Settle<T, V>(s: QState<T, V>, h: nat): QState<T, V> {
    if h < |s.handles| && s.handles[h].status.InFlight? then
      s.(handles := s.handles[h := s.handles[h].(status := Done(s.handles[h].status.outcome))],
         tasksMap := s.tasksMap - {s.handles[h].key},
         pendingDefers := s.pendingDefers + 1)
    else s
  }

  /** The timer of one deferred `perform` fires. */
  function FireDeferred<T, V>(s: QState<T, V>, worker: T -> Outcome<V>): QState<T, V> {
    if s.pendingDefers == 0 then s else Perform(s.(pendingDefers := s.pendingDefers - 1), worker)
  }

  // ---------------------------------------------------------------------------
  // The invariant of every run without `clear`.

  function InFlightCount<V>(hs: seq<Handle<V>>): nat {
    if hs == [] then 0
    else InFlightCount(hs[..|hs| - 1]) + (if hs[|hs| - 1].status.InFlight? then 1 else 0)
  }

  predicate NoDuplicates(s: seq<string>) {
    forall i, j :: 0 <= i < j < |s| ==> s[i] != s[j]
  }

  /** Registered keys point at their own promise, which is queued exactly while the key is in `tasks` and in flight afterwards. */
  ghost predicate EntriesAgree<T, V>(s: QState<T, V>) {
    forall k :: k in s.tasksMap ==>
      var h := s.tasksMap[k].handle;
      && h < |s.handles|
      && s.handles[h].key == k
      && (k in s.tasks ==> s.handles[h].status.Queued?)
      && (k !in s.tasks ==> s.handles[h].status.InFlight?)
  }

  /** A promise in flight is still registered under its key, and holds what the worker did with the registered task. */
  ghost predicate InFlightRegistered<T, V>(s: QState<T, V>, worker: T -> Outcome<V>) {
    forall h :: 0 <= h < |s.handles| && s.handles[h].status.InFlight? ==>
      && s.handles[h].key in s.tasksMap
      && s.tasksMap[s.handles[h].key].handle == h
      && s.handles[h].status.outcome == worker(s.tasksMap[s.handles[h].key].task)
  }

  /** Everything but work conservation: this is what `push` leaves before it calls `start`. */
  ghost predicate Consistent<T, V>(s: QState<T, V>, concurrency: int, worker: T -> Outcome<V>) {
    && NoDuplicates(s.tasks)
    && (forall k :: k in s.tasks ==> k in s.tasksMap)
    && EntriesAgree(s)
    && InFlightRegistered(s, worker)
    && s.activeWorkers == InFlightCount(s.handles) + s.pendingDefers
    && (s.activeWorkers <= concurrency || s.activeWorkers == 0)
  }

  /** The queue invariant: consistent, and no keys wait while a worker slot is free. */
  ghost predicate Inv<T, V>(s: QState<T, V>, concurrency: int, worker: T -> Outcome<V>) {
    Consistent(s, concurrency, worker) && (s.activeWorkers < concurrency ==> s.tasks == [])
  }

  // ---------------------------------------------------------------------------
  // Counting lemmas.

  lemma {:induction false} InFlightCountSnoc<V>(hs: seq<Handle<V>>, x: Handle<V>)
    ensures InFlightCount(hs + [x]) == InFlightCount(hs) + (if x.status.InFlight? then 1 else 0)
  {
    assert (hs + [x])[..|hs|] == hs;
  }

  lemma {:induction false} InFlightCountUpdate<V>(hs: seq<Handle<V>>, i: nat, x: Handle<V>)
    requires i < |hs|
    ensures InFlightCount(hs[i := x]) ==
      InFlightCount(hs) - (if hs[i].status.InFlight? then 1 else 0) + (if x.status.InFlight? then 1 else 0)
    decreases |hs|
  {
    var n := |hs| - 1;
    if i < n {
      InFlightCountUpdate(hs[..n], i, x);
      assert hs[i := x][..n] == hs[..n][i := x];
    } else {
      assert hs[i := x][..n] == hs[..n];
    }
  }

  // ---------------------------------------------------------------------------
  // Properties of the operations.

  /** `perform` on an empty queue only releases the slot; otherwise it removes exactly the first key, and a registered key's task goes to the worker, whose outcome the promise now holds. */
  lemma PerformSpec<T, V>(s: QState<T, V>, worker: T -> Outcome<V>)
    ensures |s.tasks| == 0 ==> Perform(s, worker) == s.(activeWorkers := s.activeWorkers - 1)
    ensures |s.tasks| > 0 ==>
      && Perform(s, worker).tasks == s.tasks[1..]
      && Perform(s, worker).activeWorkers == s.activeWorkers
      && Perform(s, worker).tasksMap == s.tasksMap
    ensures |Perform(s, worker).handles| == |s.handles| && Perform(s, worker).pendingDefers == s.pendingDefers
    ensures |s.tasks| > 0 && s.tasks[0] in s.tasksMap ==>
      Perform(s, worker).calls == s.calls + [s.tasksMap[s.tasks[0]].task]
    ensures |s.tasks| > 0 && s.tasks[0] in s.tasksMap && s.tasksMap[s.tasks[0]].handle < |s.handles| ==>
      var e := s.tasksMap[s.tasks[0]];
      && Perform(s, worker).handles[e.handle].status == InFlight(worker(e.task))
      && (worker(e.task).Throw? ==> Perform(s, worker).handles[e.handle].status.outcome == Throw(worker(e.task).e))
  {
  }

  /** `n` rounds of `start` with enough queued, registered keys run exactly the tasks of the first `n` keys. */
  lemma {:induction false} StartFromSpec<T, V>(s: QState<T, V>, worker: T -> Outcome<V>, n: nat)
    requires n <= |s.tasks|
    requires forall k :: k in s.tasks ==> k in s.tasksMap
    ensures var r := StartFrom(s, worker, n);
      && r.tasks == s.tasks[n..]
      && r.activeWorkers == s.activeWorkers + n
      && r.tasksMap == s.tasksMap
      && r.pendingDefers == s.pendingDefers
      && |r.handles| == |s.handles|
      && |r.calls| == |s.calls| + n
      && r.calls[..|s.calls|] == s.calls
      && forall i :: 0 <= i < n ==> r.calls[|s.calls| + i] == s.tasksMap[s.tasks[i]].task
    decreases n
  {
    if n > 0 {
      var s0 := s.(activeWorkers := s.activeWorkers + 1);
      assert s.tasks[0] in s.tasks;
      PerformSpec(s0, worker);
      var s1 := Perform(s0, worker);
      forall k | k in s1.tasks ensures k in s1.tasksMap {
        assert k in s.tasks;
      }
      StartFromSpec(s1, worker, n - 1);
      var r := StartFrom(s1, worker, n - 1);
      assert s.tasks[n..] == s1.tasks[n - 1..];
      forall i | 0 <= i < n ensures r.calls[|s.calls| + i] == s.tasksMap[s.tasks[i]].task {
        if i > 0 {
          assert r.calls[|s1.calls| + (i - 1)] == s1.tasksMap[s1.tasks[i - 1]].task;
        } else {
          assert r.calls[..|s1.calls|] == s1.calls;
          assert r.calls[|s.calls|] == r.calls[..|s1.calls|][|s.calls|];
        }
      }
      assert r.calls[..|s.calls|] == r.calls[..|s1.calls|][..|s.calls|];
    }
  }

  /** `start` runs `max(0, min(concurrency - activeWorkers, length))` tasks and never takes more slots than `concurrency`. */
  lemma StartSpec<T, V>(s: QState<T, V>, concurrency: int, worker: T -> Outcome<V>)
    requires forall k :: k in s.tasks ==> k in s.tasksMap
    ensures var n := Max(0, Min(concurrency - s.activeWorkers, |s.tasks|));
      && Start(s, concurrency, worker).activeWorkers == s.activeWorkers + n
      && Start(s, concurrency, worker).tasks == s.tasks[n..]
      && |Start(s, concurrency, worker).calls| == |s.calls| + n
    ensures s.activeWorkers <= concurrency ==> Start(s, concurrency, worker).activeWorkers <= concurrency
  {
    StartFromSpec(s, worker, StartCount(s, concurrency));
  }

  /** One round of `start` on a consistent queue with a free slot and a queued key keeps it consistent. */
  lemma StartStep<T, V>(s: QState<T, V>, concurrency: int, worker: T -> Outcome<V>)
    requires Consistent(s, concurrency, worker)
    requires |s.tasks| > 0 && s.activeWorkers < concurrency
    ensures Consistent(Step(s, worker), concurrency, worker)
  {
    PerformKeeps(s.(activeWorkers := s.activeWorkers + 1), concurrency, worker);
  }

  /** `perform` with a queued key moves that key's promise from queued to in flight and keeps the rest consistent. */
  lemma PerformKeeps<T, V>(s: QState<T, V>, concurrency: int, worker: T -> Outcome<V>)
    requires |s.tasks| > 0
    requires NoDuplicates(s.tasks)
    requires forall k :: k in s.tasks ==> k in s.tasksMap
    requires EntriesAgree(s)
    requires InFlightRegistered(s, worker)
    requires s.activeWorkers == InFlightCount(s.handles) + s.pendingDefers + 1
    requires s.activeWorkers <= concurrency
    ensures Consistent(Perform(s, worker), concurrency, worker)
  {
    var key := s.tasks[0];
    assert key in s.tasks;
    var e := s.tasksMap[key];
    var r := Perform(s, worker);
    var newH := s.handles[e.handle].(status := InFlight(worker(e.task)));
    assert r.handles == s.handles[e.handle := newH];
    assert key !in r.tasks by {
      forall i | 0 <= i < |r.tasks| ensures r.tasks[i] != key {
        assert r.tasks[i] == s.tasks[i + 1];
      }
    }
    forall k | k in r.tasks ensures k in s.tasks && k != key {
      var i :| 0 <= i < |r.tasks| && r.tasks[i] == k;
      assert s.tasks[i + 1] == k;
    }
    forall k | k in s.tasks && k != key ensures k in r.tasks {
      var i :| 0 <= i < |s.tasks| && s.tasks[i] == k;
      assert i != 0;
      assert r.tasks[i - 1] == k;
    }
    assert EntriesAgree(r) by {
      forall k | k in r.tasksMap
        ensures var h := r.tasksMap[k].handle;
          && h < |r.handles| && r.handles[h].key == k
          && (k in r.tasks ==> r.handles[h].status.Queued?)
          && (k !in r.tasks ==> r.handles[h].status.InFlight?)
      {
        if k != key {
          assert s.tasksMap[k].handle != e.handle;
        }
      }
    }
    assert InFlightRegistered(r, worker) by {
      forall h | 0 <= h < |r.handles| && r.handles[h].status.InFlight?
        ensures && r.handles[h].key in r.tasksMap
                && r.tasksMap[r.handles[h].key].handle == h
                && r.handles[h].status.outcome == worker(r.tasksMap[r.handles[h].key].task)
      {
        if h != e.handle {
          assert r.handles[h] == s.handles[h];
        }
      }
    }
    InFlightCountUpdate(s.handles, e.handle, newH);
  }

  /** Any property that every round of `start` keeps (with a free slot and a queued key) holds after `n` rounds. */
  lemma {:induction false} StartFromClosed<T, V>(P: QState<T, V> -> bool, s: QState<T, V>, concurrency: int, worker: T -> Outcome<V>, n: nat)
    requires P(s)
    requires n <= |s.tasks| && s.activeWorkers + n <= concurrency
    requires forall x :: P(x) && |x.tasks| > 0 && x.activeWorkers < concurrency ==> P(Step(x, worker))
    ensures P(StartFrom(s, worker, n))
    decreases n
  {
    if n > 0 {
      PerformSpec(s.(activeWorkers := s.activeWorkers + 1), worker);
      StartFromClosed(P, Step(s, worker), concurrency, worker, n - 1);
    }
  }

  /** `start` on a consistent queue leaves the full invariant, work conservation included. */
  lemma StartKeeps<T, V>(s: QState<T, V>, concurrency: int, worker: T -> Outcome<V>)
    requires Consistent(s, concurrency, worker)
    ensures Inv(Start(s, concurrency, worker), concurrency, worker)
  {
    var n := StartCount(s, concurrency);
    if n > 0 {
      var P := (x: QState<T, V>) => Consistent(x, concurrency, worker);
      forall x | P(x) && |x.tasks| > 0 && x.activeWorkers < concurrency
        ensures P(Step(x, worker))
      {
        StartStep(x, concurrency, worker);
      }
      StartFromClosed(P, s, concurrency, worker, n);
    }
    StartFromSpec(s, worker, n);
  }

  /** A fresh queue satisfies the invariant. */
  lemma InitInv<T, V>(concurrency: int, worker: T -> Outcome<V>)
    ensures Inv(Init<T, V>(), concurrency, worker)
  {
  }

  /** `push` keeps the invariant. */
  lemma PushKeeps<T, V>(s: QState<T, V>, task: T, hash: string, concurrency: int, worker: T -> Outcome<V>)
    requires Inv(s, concurrency, worker)
    ensures Inv(Push(s, task, hash, concurrency, worker).0, concurrency, worker)
  {
    var (s1, h) := Enqueue(s, task, hash);
    if hash !in s.tasksMap {
      assert hash !in s.tasks;
      InFlightCountSnoc(s.handles, Handle(hash, Queued));
      assert EntriesAgree(s1) by {
        forall k | k in s1.tasksMap
          ensures var h := s1.tasksMap[k].handle;
            && h < |s1.handles| && s1.handles[h].key == k
            && (k in s1.tasks ==> s1.handles[h].status.Queued?)
            && (k !in s1.tasks ==> s1.handles[h].status.InFlight?)
        {
          if k != hash {
            assert k in s.tasksMap;
            assert s1.handles[s.tasksMap[k].handle] == s.handles[s.tasksMap[k].handle];
            assert k in s1.tasks <==> k in s.tasks;
          }
        }
      }
      assert InFlightRegistered(s1, worker) by {
        forall h | 0 <= h < |s1.handles| && s1.handles[h].status.InFlight?
          ensures && s1.handles[h].key in s1.tasksMap
                  && s1.tasksMap[s1.handles[h].key].handle == h
                  && s1.handles[h].status.outcome == worker(s1.tasksMap[s1.handles[h].key].task)
        {
          assert h < |s.handles| && s1.handles[h] == s.handles[h];
        }
      }
      assert NoDuplicates(s1.tasks);
    }
    StartKeeps(s1, concurrency, worker);
  }

  /** A settling promise keeps the invariant: its key leaves the map and one deferred `perform` is owed. */
  lemma SettleKeeps<T, V>(s: QState<T, V>, h: nat, concurrency: int, worker: T -> Outcome<V>)
    requires Inv(s, concurrency, worker)
    ensures Inv(Settle(s, h), concurrency, worker)
  {
    if h < |s.handles| && s.handles[h].status.InFlight? {
      var r := Settle(s, h);
      var key := s.handles[h].key;
      var newH := s.handles[h].(status := Done(s.handles[h].status.outcome));
      assert key !in s.tasks;
      assert EntriesAgree(r) by {
        forall k | k in r.tasksMap
          ensures var g := r.tasksMap[k].handle;
            && g < |r.handles| && r.handles[g].key == k
            && (k in r.tasks ==> r.handles[g].status.Queued?)
            && (k !in r.tasks ==> r.handles[g].status.InFlight?)
        {
          assert s.tasksMap[k].handle != h;
        }
      }
      assert InFlightRegistered(r, worker) by {
        forall g | 0 <= g < |r.handles| && r.handles[g].status.InFlight?
          ensures && r.handles[g].key in r.tasksMap
                  && r.tasksMap[r.handles[g].key].handle == g
                  && r.handles[g].status.outcome == worker(r.tasksMap[r.handles[g].key].task)
        {
          assert g != h && r.handles[g] == s.handles[g];
          assert s.handles[g].key != key;
        }
      }
      InFlightCountUpdate(s.handles, h, newH);
    }
  }

  /** A deferred `perform` firing keeps the invariant: it either releases its slot or hands the slot to the next key. */
  lemma FireDeferredKeeps<T, V>(s: QState<T, V>, concurrency: int, worker: T -> Outcome<V>)
    requires Inv(s, concurrency, worker)
    ensures Inv(FireDeferred(s, worker), concurrency, worker)
  {
    if s.pendingDefers > 0 {
      var s0 := s.(pendingDefers := s.pendingDefers - 1);
      if |s.tasks| > 0 {
        PerformKeeps(s0, concurrency, worker);
      }
    }
  }

  /** `shift` keeps the invariant. */
  lemma ShiftKeeps<T, V>(s: QState<T, V>, concurrency: int, worker: T -> Outcome<V>)
    requires Inv(s, concurrency, worker)
    ensures Inv(Shift(s).0, concurrency, worker)
  {
    if |s.tasks| > 0 {
      var r := Shift(s).0;
      var key := s.tasks[0];
      assert key in s.tasks;
      forall k | k in r.tasks ensures k in s.tasks && k != key {
        var i :| 0 <= i < |r.tasks| && r.tasks[i] == k;
        assert s.tasks[i + 1] == k;
      }
      forall k | k in s.tasks && k != key ensures k in r.tasks {
        var i :| 0 <= i < |s.tasks| && s.tasks[i] == k;
        assert i != 0;
        assert r.tasks[i - 1] == k;
      }
      assert InFlightRegistered(r, worker) by {
        forall g | 0 <= g < |r.handles| && r.handles[g].status.InFlight?
          ensures && r.handles[g].key in r.tasksMap
                  && r.tasksMap[r.handles[g].key].handle == g
                  && r.handles[g].status.outcome == worker(r.tasksMap[r.handles[g].key].task)
        {
          assert s.handles[g].key != key;
        }
      }
    }
  }

  /** `shift` returns the old head and removes exactly the first key and its entry; the other keys keep their order. */
  lemma ShiftSpec<T, V>(s: QState<T, V>)
    ensures |s.tasks| == 0 ==> Shift(s) == (s, None)
    ensures |s.tasks| > 0 ==>
      && Shift(s).1 == Head(s)
      && Shift(s).0.tasks == s.tasks[1..]
      && Shift(s).0.tasksMap == s.tasksMap - {s.tasks[0]}
      && Length(Shift(s).0) == Length(s) - 1
  {
  }

  /** Pushes whose hash is registered (queued or in flight) share its promise and change nothing before `start`; so a merged push adds no worker call. */
  lemma MergedPushShares<T, V>(s: QState<T, V>, task: T, hash: string, concurrency: int, worker: T -> Outcome<V>)
    requires Inv(s, concurrency, worker)
    requires hash in s.tasksMap
    ensures Push(s, task, hash, concurrency, worker).1 == s.tasksMap[hash].handle
    ensures Push(s, task, hash, concurrency, worker).0 == s
  {
    StartFromSpec(s, worker, StartCount(s, concurrency));
  }

  /** Once its promise settles the hash is free again: a later push of it registers a fresh promise. */
  lemma PushAfterSettleIsFresh<T, V>(s: QState<T, V>, h: nat, task: T, concurrency: int, worker: T -> Outcome<V>)
    requires Inv(s, concurrency, worker)
    requires h < |s.handles| && s.handles[h].status.InFlight?
    ensures var s1 := Settle(s, h);
      && s1.handles[h].status == Done(worker(s.tasksMap[s.handles[h].key].task))
      && s.handles[h].key !in s1.tasksMap
      && Push(s1, task, s.handles[h].key, concurrency, worker).1 == |s.handles|
      && Push(s1, task, s.handles[h].key, concurrency, worker).1 != h
  {
  }

  /** A promise settles at most once: settling one that is not in flight changes nothing. */
  lemma SettleOnce<T, V>(s: QState<T, V>, h: nat)
    requires h < |s.handles| && s.handles[h].status.Done?
    ensures Settle(s, h) == s
    ensures Settle(Settle(s, h), h) == Settle(s, h)
  {
  }
}

/** The `MergeQueue` class; each method is proved equal to its transition in `QueueState`. */
module MergeQueue {
  import opened Wrappers
  import S = QueueState
  import opened QueueState

  /** The queue class: the state fields of `Queue`/`MergeQueue`, plus the bookkeeping that stands for timers and promises. */
  class MergeQueue<T, V> {
    const worker: T -> Outcome<V>
    const hashFn: T -> string
    const concurrency: int
    const interval: int

    var tasks: seq<string>
    var tasksMap: map<string, Entry<T>>
    var activeWorkers: int
    /** `deferPerform` calls whose timer has not fired yet. */
    var pendingDefers: nat
    /** Every shared promise created so far, by creation order. */
    var handles: seq<Handle<V>>
    /** The tasks given to the worker, in call order. */
    var calls: seq<T>

    function Snapshot(): QState<T, V>
      reads this
    {
      QState(tasks, tasksMap, activeWorkers, pendingDefers, handles, calls)
    }

    /** `toStr` is `String` on tasks, the default hash function. */
    constructor (worker: T -> Outcome<V>, opts: Options<T>, toStr: T -> string)
      ensures this.worker == worker
      ensures concurrency == OrDefault(opts.concurrency, 1) && interval == OrDefault(opts.interval, 0)
      ensures hashFn == (if opts.hashFn.Some? then opts.hashFn.value else toStr)
      ensures Snapshot() == Init()
    {
      this.worker := worker;
      concurrency := OrDefault(opts.concurrency, 1);
      interval := OrDefault(opts.interval, 0);
      hashFn := opts.hashFn.GetOr(toStr);
      tasks := [];
      tasksMap := map[];
      activeWorkers := 0;
      pendingDefers := 0;
      handles := [];
      calls := [];
    }

    function Length(): (n: nat)
      reads this
      ensures n == |tasks|
    {
      |tasks|
    }

    function Head(): (r: Option<T>)
      reads this
      ensures |tasks| == 0 ==> r == None
      ensures |tasks| > 0 && tasks[0] in tasksMap ==> r == Some(tasksMap[tasks[0]].task)
      ensures |tasks| > 0 && tasks[0] !in tasksMap ==> r == None
    {
      S.Head(Snapshot())
    }

    method Shift() returns (head: Option<T>)
      modifies this
      ensures (Snapshot(), head) == S.Shift(old(Snapshot()))
    {
      if |tasks| == 0 {
        return None;
      }
      head := Head();
      tasksMap := tasksMap - {tasks[0]};
      tasks := tasks[1..];
    }

    method Clear()
      modifies this
      ensures Snapshot() == S.Clear(old(Snapshot()))
    {
      tasks := [];
      activeWorkers := 0;
      tasksMap := map[];
    }

    method Push(task: T) returns (h: nat)
      modifies this
      ensures (Snapshot(), h) == S.Push(old(Snapshot()), task, hashFn(task), concurrency, worker)
    {
      var hash := hashFn(task);
      if hash !in tasksMap {
        h := |handles|;
        handles := handles + [Handle(hash, Queued)];
        tasksMap := tasksMap[hash := Entry(task, h)];
        tasks := tasks + [hash];
      } else {
        h := tasksMap[hash].handle;
      }
      Start();
    }

    method ResolveTask(e: Entry<T>)
      modifies this
      ensures Snapshot() == S.ResolveTask(old(Snapshot()), e, worker)
    {
      calls := calls + [e.task];
      var outcome := worker(e.task);
      if e.handle < |handles| {
        handles := handles[e.handle := handles[e.handle].(status := InFlight(outcome))];
      }
    }

    method Perform()
      modifies this
      ensures Snapshot() == S.Perform(old(Snapshot()), worker)
    {
      if |tasks| == 0 {
        activeWorkers := activeWorkers - 1;
        return;
      }
      var hash := tasks[0];
      tasks := tasks[1..];
      if hash !in tasksMap {
        return;
      }
      ResolveTask(tasksMap[hash]);
    }

    method Start()
      modifies this
      ensures Snapshot() == S.Start(old(Snapshot()), concurrency, worker)
    {
      var n := Min(concurrency - activeWorkers, |tasks|);
      ghost var total := StartCount(Snapshot(), concurrency);
      var i := 0;
      while i < n
        invariant total == (if n <= 0 then 0 else n)
        invariant 0 <= i <= total
        invariant StartFrom(Snapshot(), worker, total - i) == S.Start(old(Snapshot()), concurrency, worker)
      {
        activeWorkers := activeWorkers + 1;
        Perform();
        i := i + 1;
      }
    }

    /** The shared promise `h` settles and its `then(cb, cb)` callback runs. */
    method Settle(h: nat)
      modifies this
      ensures Snapshot() == S.Settle(old(Snapshot()), h)
    {
      if h < |handles| && handles[h].status.InFlight? {
        var key := handles[h].key;
        handles := handles[h := handles[h].(status := Done(handles[h].status.outcome))];
        tasksMap := tasksMap - {key};
        pendingDefers := pendingDefers + 1;
      }
    }

    /** The timer of one pending `deferPerform` fires and runs `perform`. */
    method FireDeferred()
      modifies this
      ensures Snapshot() == S.FireDeferred(old(Snapshot()), worker)
    {
      if pendingDefers > 0 {
        pendingDefers := pendingDefers - 1;
        Perform();
      }
    }
  }
}
