/**
 * Properties of the `SyncPromise` operations: the executor, `then`, `catch`,
 * `finally`, and the heap invariant that handler lists only name existing promises.
 */
module SyncPromiseOps {
  import opened Wrappers
  import opened SyncPromiseState
  import opened SyncPromiseProps

  /** Handler lists of pending promises only name promises that exist. */
  ghost predicate WellFormed(h: Heap) {
    forall c, t ::
      (0 <= c < |h.cells| && h.cells[c].state == Pending &&
       (t in TargetsOf(h.cells[c].resolveHandlers) || t in TargetsOf(h.cells[c].rejectHandlers)))
      ==> t < |h.cells|
  }

  lemma FrameWellFormed(h: Heap, r: Heap)
    requires WellFormed(h) && Frame(h, r)
    ensures WellFormed(r)
  {
    forall c, t | 0 <= c < |r.cells| && r.cells[c].state == Pending &&
      (t in TargetsOf(r.cells[c].resolveHandlers) || t in TargetsOf(r.cells[c].rejectHandlers))
      ensures t < |r.cells|
    {
      assert r.cells[c] == h.cells[c];
    }
  }

  /** A promise created next is watched by nobody. */
  lemma NextUnwatched(h: Heap, c: nat)
    requires WellFormed(h) && c < |h.cells| && h.cells[c].state == Pending
    ensures |h.cells| !in TargetsOf(h.cells[c].resolveHandlers)
    ensures |h.cells| !in TargetsOf(h.cells[c].rejectHandlers)
  {
  }

  /** The first event of a settlement is the settlement itself. */
  lemma SettleFirstEvent(h: Heap, p: nat, st: State, v: Value, behave: Behaviour)
    requires st != Pending && p < |h.cells| && h.cells[p].state == Pending
    ensures |Settle(h, p, st, v, behave).log| > |h.log|
    ensures Settle(h, p, st, v, behave).log[|h.log|] == Settled(p, st, v)
  {
    var c := h.cells[p];
    var h1 := h.(cells := h.cells[p := c.(state := st, value := v)], log := h.log + [Settled(p, st, v)]);
    var hs := if st == Fulfilled then c.resolveHandlers else c.rejectHandlers;
    PendingCountUpdate(h.cells, p, c.(state := st, value := v));
    var h2 := Drain(h1, p, hs, 0, v, behave);
    assert h2.log[..|h1.log|] == h1.log;
    assert Settle(h, p, st, v, behave).log[..|h2.log|] == h2.log;
  }

  // ---------------------------------------------------------------------------
  // What `call` does to the derived promise.

  /** The state and value a derived promise takes when a wrapper runs `cb` on `v`: pending means it was handed over to a thenable. */
  function CallResult(cb: Callback, v: Value, behave: Behaviour): (State, Value)
    requires !cb.AllSlot?
  {
    match cb
    case ResolveFn(_) => (Fulfilled, v)
    case RejectFn(_) => (Rejected, v)
    case User(j) =>
      match behave(j, v)
      case Throw(e) => (Rejected, e)
      case Return(x) => if IsPromise(x) then (Pending, Undefined) else (Fulfilled, x)
  }

  /**
   * A wrapper run for a pending derived promise `d`: a missing callback passes the
   * value and state through, a callback's returned value fulfils `d` (whichever list
   * it came from), its throw rejects `d`, and a returned thenable takes `d` over.
   */
  lemma CallOutcome(h: Heap, cb: Callback, v: Value, d: nat, behave: Behaviour)
    requires d < |h.cells| && h.cells[d].state == Pending
    requires cb.User? || cb == ResolveFn(d) || cb == RejectFn(d)
    ensures Call(h, cb, v, d, behave).cells[d].state == CallResult(cb, v, behave).0
    ensures CallResult(cb, v, behave).0 != Pending ==> Call(h, cb, v, d, behave).cells[d].value == CallResult(cb, v, behave).1
    ensures CallResult(cb, v, behave).0 == Pending ==>
      Call(h, cb, v, d, behave).cells == h.cells &&
      Call(h, cb, v, d, behave).log == h.log + [Invoked(cb.j, v), Adopted(d, behave(cb.j, v).r)]
  {
    match cb
    case User(j) =>
      var h1 := h.(log := h.log + [Invoked(j, v)]);
      match behave(j, v) {
        case Throw(e) => SettleOnce(h1, d, Rejected, e, Rejected, e, behave);
        case Return(x) =>
          if !IsPromise(x) {
            SettleOnce(h1, d, Fulfilled, x, Fulfilled, x, behave);
          }
      }
    case ResolveFn(k) =>
      SettleOnce(h, d, Fulfilled, v, Fulfilled, Undefined, behave);
    case RejectFn(k) =>
      SettleOnce(h, d, Rejected, v, Fulfilled, Undefined, behave);
  }

  // ---------------------------------------------------------------------------
  // The executor.

  /** The cell an executor leaves behind: the first `resolve`/`reject` call wins, else a throw rejects, else the promise stays pending. */
  function ExecutorCell(steps: seq<ExecStep>, ending: ExecEnd): Cell {
    if steps != [] then
      match steps[0]
      case CallResolve(v) => Cell(Fulfilled, v, [], [], [])
      case CallReject(e) => Cell(Rejected, e, [], [], [])
    else
      match ending
      case Throws(e) => Cell(Rejected, e, [], [], [])
      case Finishes => Fresh
  }

  lemma {:induction false} ExecuteSettled(h: Heap, p: nat, steps: seq<ExecStep>, behave: Behaviour)
    requires p < |h.cells| && h.cells[p].state != Pending
    ensures Execute(h, p, steps, behave) == h
    decreases |steps|
  {
    if steps != [] {
      ExecuteSettled(h, p, steps[1..], behave);
    }
  }

  /** `new SyncPromise(executor)`: the first settling call of the executor decides; an executor that throws before settling rejects with the thrown error. */
  lemma ConstructOutcome(h: Heap, steps: seq<ExecStep>, ending: ExecEnd, behave: Behaviour)
    ensures Construct(h, steps, ending, behave).0.cells == h.cells + [ExecutorCell(steps, ending)]
  {
    var p := |h.cells|;
    var h1 := h.(cells := h.cells + [Fresh]);
    if steps != [] {
      var h2 := match steps[0]
        case CallResolve(v) => Settle(h1, p, Fulfilled, v, behave)
        case CallReject(e) => Settle(h1, p, Rejected, e, behave);
      match steps[0] {
        case CallResolve(v) => SettleLone(h1, p, Fulfilled, v, behave);
        case CallReject(e) => SettleLone(h1, p, Rejected, e, behave);
      }
      ExecuteSettled(h2, p, steps[1..], behave);
      assert Execute(h1, p, steps, behave) == h2;
      match ending {
        case Finishes =>
        case Throws(e) => assert Settle(h2, p, Rejected, e, behave) == h2;
      }
    } else {
      match ending {
        case Finishes =>
        case Throws(e) => SettleLone(h1, p, Rejected, e, behave);
      }
    }
  }

  // ---------------------------------------------------------------------------
  // `then`.

  /** On a pending promise, `then` appends exactly one wrapper to the resolve list and one to the reject list, and creates a pending derived promise. */
  lemma ThenPending(h: Heap, p: nat, onFulfill: Option<Callback>, onReject: Option<Callback>, behave: Behaviour)
    requires p < |h.cells| && h.cells[p].state == Pending
    ensures var (r, d) := Then(h, p, onFulfill, onReject, behave);
      && r.cells[p].resolveHandlers == h.cells[p].resolveHandlers + [Wrapped(onFulfill.GetOr(ResolveFn(d)), d)]
      && r.cells[p].rejectHandlers == h.cells[p].rejectHandlers + [Wrapped(onReject.GetOr(RejectFn(d)), d)]
      && r.cells[p].finallyHandlers == h.cells[p].finallyHandlers
      && r.cells[p].state == Pending && r.cells[d] == Fresh && r.log == h.log
      && forall q :: 0 <= q < |h.cells| && q != p ==> r.cells[q] == h.cells[q]
  {
  }

  /**
   * On a settled promise, `then` runs the matching wrapper at once with the stored
   * value, and the derived promise takes the outcome of that call.
   */
  lemma ThenSettled(h: Heap, p: nat, onFulfill: Option<Callback>, onReject: Option<Callback>, behave: Behaviour)
    requires p < |h.cells| && h.cells[p].state != Pending
    requires onFulfill.Some? ==> onFulfill.value.User?
    requires onReject.Some? ==> onReject.value.User?
    ensures var (r, d) := Then(h, p, onFulfill, onReject, behave);
      var c := h.cells[p];
      var cb := if c.state == Fulfilled then onFulfill.GetOr(ResolveFn(d)) else onReject.GetOr(RejectFn(d));
      && r.cells[p] == c
      && |r.log| > |h.log| && r.log[|h.log|] == Fired(p, Wrapped(cb, d), c.value)
      && r.cells[d].state == CallResult(cb, c.value, behave).0
      && (r.cells[d].state != Pending ==> r.cells[d].value == CallResult(cb, c.value, behave).1)
  {
    var d := |h.cells|;
    var h1 := h.(cells := h.cells + [Fresh]);
    var c := h.cells[p];
    var cb := if c.state == Fulfilled then onFulfill.GetOr(ResolveFn(d)) else onReject.GetOr(RejectFn(d));
    var h2 := h1.(log := h1.log + [Fired(p, Wrapped(cb, d), c.value)]);
    var r := Call(h2, cb, c.value, d, behave);
    ThenRunsWrapper(h, p, onFulfill, onReject, behave);
    CallOutcome(h2, cb, c.value, d, behave);
    SettledStays(h2, r, p);
    assert r.log[..|h2.log|] == h2.log;
  }

  lemma ThenRunsWrapper(h: Heap, p: nat, onFulfill: Option<Callback>, onReject: Option<Callback>, behave: Behaviour)
    requires p < |h.cells| && h.cells[p].state != Pending
    ensures var d := |h.cells|;
      var c := h.cells[p];
      var cb := if c.state == Fulfilled then onFulfill.GetOr(ResolveFn(d)) else onReject.GetOr(RejectFn(d));
      var h2 := h.(cells := h.cells + [Fresh], log := h.log + [Fired(p, Wrapped(cb, d), c.value)]);
      Then(h, p, onFulfill, onReject, behave) == (Call(h2, cb, c.value, d, behave), d)
  {
  }

  /** `then()` with no callbacks on a settled promise: the derived promise gets the same state and value. */
  lemma ThenPassesThrough(h: Heap, p: nat, behave: Behaviour)
    requires p < |h.cells| && h.cells[p].state != Pending
    ensures var (r, d) := Then(h, p, None, None, behave);
      r.cells[d].state == h.cells[p].state && r.cells[d].value == h.cells[p].value
  {
    ThenSettled(h, p, None, None, behave);
  }

  /** A reject callback that returns a plain value recovers: the derived promise is fulfilled with it. */
  lemma ThenRecovers(h: Heap, p: nat, onFulfill: Option<Callback>, j: nat, behave: Behaviour)
    requires p < |h.cells| && h.cells[p].state == Rejected
    requires onFulfill.Some? ==> onFulfill.value.User?
    requires behave(j, h.cells[p].value).Return? && !IsPromise(behave(j, h.cells[p].value).r)
    ensures var (r, d) := Then(h, p, onFulfill, Some(User(j)), behave);
      r.cells[d].state == Fulfilled && r.cells[d].value == behave(j, h.cells[p].value).r
  {
    ThenSettled(h, p, onFulfill, Some(User(j)), behave);
  }

  // ---------------------------------------------------------------------------
  // `catch`.

  /** `catch` on a fulfilled promise creates a derived promise that stays pending and that no handler can reach. */
  lemma CatchFulfilled(h: Heap, p: nat, onReject: Option<Callback>, behave: Behaviour)
    requires WellFormed(h) && p < |h.cells| && h.cells[p].state == Fulfilled
    ensures var (r, d) := Catch(h, p, onReject, behave);
      r.cells == h.cells + [Fresh] && Unwatched(r, d)
  {
    var (r, d) := Catch(h, p, onReject, behave);
    forall c | 0 <= c < |r.cells| && r.cells[c].state == Pending
      ensures !Watches(r.cells[c], d)
    {
      if c < |h.cells| {
        NextUnwatched(h, c);
      }
    }
  }

  /**
   * `catch` on a pending promise that is then fulfilled: the derived promise is left
   * pending, and afterwards no handler can reach it, so no later settlement of another
   * promise changes it.
   */
  lemma CatchThenFulfil(h: Heap, p: nat, onReject: Option<Callback>, v: Value, behave: Behaviour)
    requires WellFormed(h) && p < |h.cells| && h.cells[p].state == Pending
    ensures var (h1, d) := Catch(h, p, onReject, behave);
      Settle(h1, p, Fulfilled, v, behave).cells[d] == Fresh && Unwatched(Settle(h1, p, Fulfilled, v, behave), d)
  {
    var (h1, d) := Catch(h, p, onReject, behave);
    forall c | 0 <= c < |h1.cells| && c != p
      ensures !Watches(h1.cells[c], d)
    {
      if c < |h.cells| && h.cells[c].state == Pending {
        NextUnwatched(h, c);
      }
    }
    NextUnwatched(h, p);
    SettleKeeps(h1, p, Fulfilled, v, behave, d);
  }

  /** A promise nobody watches keeps its cell through the settlement of any other promise. */
  lemma UnwatchedStays(h: Heap, q: nat, p: nat, st: State, v: Value, behave: Behaviour)
    requires st != Pending && q < |h.cells| && q != p && h.cells[q].state == Pending && Unwatched(h, q)
    ensures Settle(h, p, st, v, behave).cells[q] == h.cells[q] && Unwatched(Settle(h, p, st, v, behave), q)
  {
    SettleKeeps(h, p, st, v, behave, q);
  }

  // ---------------------------------------------------------------------------
  // `finally`.

  /** `finally` on a settled promise: the derived promise takes the same state and value, then the callback runs. */
  lemma FinallySettled(h: Heap, p: nat, cb: Option<nat>, behave: Behaviour)
    requires p < |h.cells| && h.cells[p].state != Pending
    ensures var (r, d) := Finally(h, p, cb, behave);
      var c := h.cells[p];
      && r.cells == h.cells + [Cell(c.state, c.value, [], [], [])]
      && r.log == h.log + [Settled(d, c.state, c.value)] + (if cb.Some? then [Hook(p, cb.value)] else [])
  {
    var c := h.cells[p];
    SettleLone(h.(cells := h.cells + [Fresh]), |h.cells|, c.state, c.value, behave);
  }

  /** Draining a list whose last entry settles `q`, when no earlier entry and no pending promise can reach `q`. */
  lemma {:induction false} DrainLast(h: Heap, p: nat, hs: seq<Handler>, i: nat, v: Value, behave: Behaviour, q: nat, fulfil: bool)
    requires 0 < |hs| && i < |hs| && hs[|hs| - 1] == Settler(q, fulfil)
    requires q !in TargetsOf(hs[i..|hs| - 1])
    requires q < |h.cells| && h.cells[q].state == Pending && Unwatched(h, q)
    ensures Drain(h, p, hs, i, v, behave).cells[q].state == (if fulfil then Fulfilled else Rejected)
    ensures Drain(h, p, hs, i, v, behave).cells[q].value == v
    ensures Extends(h, Drain(h, p, hs, i, v, behave))
    ensures Settled(q, if fulfil then Fulfilled else Rejected, v) in Drain(h, p, hs, i, v, behave).log[|h.log|..]
    decreases |hs| - i
  {
    var st := if fulfil then Fulfilled else Rejected;
    var h1 := h.(log := h.log + [Fired(p, hs[i], v)]);
    var h2 := Run(h1, hs[i], v, behave);
    var r := Drain(h2, p, hs, i + 1, v, behave);
    assert Drain(h, p, hs, i, v, behave) == r;
    if i == |hs| - 1 {
      SettleOnce(h1, q, st, v, st, v, behave);
      SettleFirstEvent(h1, q, st, v, behave);
      assert r == h2;
      assert h2.log[|h.log|..][|h1.log| - |h.log|] == Settled(q, st, v);
    } else {
      assert hs[i..|hs| - 1] == [hs[i]] + hs[i + 1..|hs| - 1];
      TargetsOfAppend([hs[i]], hs[i + 1..|hs| - 1]);
      assert TargetsOf([hs[i]]) == Targets(hs[i]);
      RunKeeps(h1, hs[i], v, behave, q);
      DrainLast(h2, p, hs, i + 1, v, behave, q, fulfil);
      assert r.log[|h.log|..] == r.log[|h.log|..|h2.log|] + r.log[|h2.log|..];
    }
  }

  /**
   * `finally(cb)` on a pending promise that then settles: the derived promise takes
   * the same state and value during the drain, and the callback runs afterwards, as
   * the last event of the settlement.
   */
  lemma FinallyThenSettle(h: Heap, p: nat, cb: Option<nat>, st: State, v: Value, behave: Behaviour)
    requires WellFormed(h) && p < |h.cells| && h.cells[p].state == Pending && st != Pending
    ensures var (h1, d) := Finally(h, p, cb, behave);
      var r := Settle(h1, p, st, v, behave);
      && r.cells[d].state == st && r.cells[d].value == v
      && |h1.log| <= |r.log| - |h1.cells[p].finallyHandlers|
      && Settled(d, st, v) in r.log[|h1.log|..|r.log| - |h1.cells[p].finallyHandlers|]
      && (cb.Some? ==> r.log[|r.log| - 1] == Hook(p, cb.value))
  {
    var (h1, d) := Finally(h, p, cb, behave);
    var c := h1.cells[p];
    var g := h1.(cells := h1.cells[p := c.(state := st, value := v)], log := h1.log + [Settled(p, st, v)]);
    PendingCountUpdate(h1.cells, p, c.(state := st, value := v));
    var fulfil := st == Fulfilled;
    var hs := if st == Fulfilled then c.resolveHandlers else c.rejectHandlers;
    var old_hs := if st == Fulfilled then h.cells[p].resolveHandlers else h.cells[p].rejectHandlers;
    assert hs == old_hs + [Settler(d, fulfil)];
    assert hs[0..|hs| - 1] == old_hs;
    NextUnwatched(h, p);
    forall k | 0 <= k < |g.cells|
      ensures !Watches(g.cells[k], d)
    {
      if k < |h.cells| && k != p && h.cells[k].state == Pending {
        NextUnwatched(h, k);
      }
    }
    DrainLast(g, p, hs, 0, v, behave, d, fulfil);
    var g2 := Drain(g, p, hs, 0, v, behave);
    var r := Settle(h1, p, st, v, behave);
    assert r.log == g2.log + HookEvents(p, c.finallyHandlers);
    assert r.log[..|g2.log|] == g2.log;
    assert g2.log[|g.log|..] == r.log[|g.log|..|g2.log|];
  }

  // ---------------------------------------------------------------------------
  // `then` and `catch` on a promise that settles later.

  /** Draining a list whose last entry is the wrapper of `q`, when no earlier entry and no pending promise can reach `q`: `q` takes the outcome of the call. */
  lemma {:induction false} DrainLastWrapped(h: Heap, p: nat, hs: seq<Handler>, i: nat, v: Value, behave: Behaviour, q: nat, cb: Callback)
    requires 0 < |hs| && i < |hs| && hs[|hs| - 1] == Wrapped(cb, q)
    requires cb.User? || cb == ResolveFn(q) || cb == RejectFn(q)
    requires q !in TargetsOf(hs[i..|hs| - 1])
    requires q < |h.cells| && h.cells[q].state == Pending && Unwatched(h, q)
    ensures Drain(h, p, hs, i, v, behave).cells[q].state == CallResult(cb, v, behave).0
    ensures CallResult(cb, v, behave).0 != Pending ==> Drain(h, p, hs, i, v, behave).cells[q].value == CallResult(cb, v, behave).1
    decreases |hs| - i
  {
    var h1 := h.(log := h.log + [Fired(p, hs[i], v)]);
    var h2 := Run(h1, hs[i], v, behave);
    var r := Drain(h2, p, hs, i + 1, v, behave);
    assert Drain(h, p, hs, i, v, behave) == r;
    if i == |hs| - 1 {
      CallOutcome(h1, cb, v, q, behave);
      assert r == h2;
    } else {
      assert hs[i..|hs| - 1] == [hs[i]] + hs[i + 1..|hs| - 1];
      TargetsOfAppend([hs[i]], hs[i + 1..|hs| - 1]);
      assert TargetsOf([hs[i]]) == Targets(hs[i]);
      RunKeeps(h1, hs[i], v, behave, q);
      DrainLastWrapped(h2, p, hs, i + 1, v, behave, q, cb);
    }
  }

  /**
   * Settling `p` when the matching list ends with the wrapper of a derived promise
   * `d` that nothing else reaches: `d` takes the outcome of that wrapper's call.
   */
  lemma SettleReachesLast(h: Heap, p: nat, st: State, v: Value, behave: Behaviour, d: nat, cb: Callback)
    requires st != Pending && p < |h.cells| && h.cells[p].state == Pending
    requires d < |h.cells| && d != p && h.cells[d].state == Pending && UnwatchedBut(h, d, p)
    requires cb.User? || cb == ResolveFn(d) || cb == RejectFn(d)
    requires var hs := if st == Fulfilled then h.cells[p].resolveHandlers else h.cells[p].rejectHandlers;
      0 < |hs| && hs[|hs| - 1] == Wrapped(cb, d) && d !in TargetsOf(hs[..|hs| - 1])
    ensures Settle(h, p, st, v, behave).cells[d].state == CallResult(cb, v, behave).0
    ensures CallResult(cb, v, behave).0 != Pending ==> Settle(h, p, st, v, behave).cells[d].value == CallResult(cb, v, behave).1
  {
    var c := h.cells[p];
    var g := h.(cells := h.cells[p := c.(state := st, value := v)], log := h.log + [Settled(p, st, v)]);
    PendingCountUpdate(h.cells, p, c.(state := st, value := v));
    var hs := if st == Fulfilled then c.resolveHandlers else c.rejectHandlers;
    assert hs[0..|hs| - 1] == hs[..|hs| - 1];
    forall k | 0 <= k < |g.cells|
      ensures !Watches(g.cells[k], d)
    {
      if k != p {
        assert g.cells[k] == h.cells[k];
      }
    }
    DrainLastWrapped(g, p, hs, 0, v, behave, d, cb);
  }

  /** `then` on a pending promise attaches wrappers that only its own derived promise is watched by. */
  lemma ThenPendingUnwatched(h: Heap, p: nat, onFulfill: Option<Callback>, onReject: Option<Callback>, behave: Behaviour)
    requires WellFormed(h) && p < |h.cells| && h.cells[p].state == Pending
    ensures var (r, d) := Then(h, p, onFulfill, onReject, behave);
      && UnwatchedBut(r, d, p)
      && d !in TargetsOf(h.cells[p].resolveHandlers) && d !in TargetsOf(h.cells[p].rejectHandlers)
  {
    var (r, d) := Then(h, p, onFulfill, onReject, behave);
    NextUnwatched(h, p);
    forall k | 0 <= k < |r.cells| && k != p
      ensures !Watches(r.cells[k], d)
    {
      if k < |h.cells| && h.cells[k].state == Pending {
        NextUnwatched(h, k);
      }
    }
  }

  /**
   * `then(onFulfill, onReject)` on a pending promise that settles later: the wrapper
   * for that state runs during the drain, and the derived promise takes the outcome
   * of its callback, as it would on a promise settled before the call.
   */
  lemma ThenThenSettle(h: Heap, p: nat, onFulfill: Option<Callback>, onReject: Option<Callback>, st: State, v: Value, behave: Behaviour)
    requires WellFormed(h) && p < |h.cells| && h.cells[p].state == Pending && st != Pending
    requires onFulfill.Some? ==> onFulfill.value.User?
    requires onReject.Some? ==> onReject.value.User?
    ensures var (h1, d) := Then(h, p, onFulfill, onReject, behave);
      var cb := if st == Fulfilled then onFulfill.GetOr(ResolveFn(d)) else onReject.GetOr(RejectFn(d));
      var r := Settle(h1, p, st, v, behave);
      && r.cells[p].state == st && r.cells[p].value == v
      && r.cells[d].state == CallResult(cb, v, behave).0
      && (r.cells[d].state != Pending ==> r.cells[d].value == CallResult(cb, v, behave).1)
  {
    var (h1, d) := Then(h, p, onFulfill, onReject, behave);
    var cb := if st == Fulfilled then onFulfill.GetOr(ResolveFn(d)) else onReject.GetOr(RejectFn(d));
    ThenPending(h, p, onFulfill, onReject, behave);
    ThenPendingUnwatched(h, p, onFulfill, onReject, behave);
    var old_hs := if st == Fulfilled then h.cells[p].resolveHandlers else h.cells[p].rejectHandlers;
    var hs := if st == Fulfilled then h1.cells[p].resolveHandlers else h1.cells[p].rejectHandlers;
    assert hs == old_hs + [Wrapped(cb, d)];
    assert hs[..|hs| - 1] == old_hs;
    SettleReachesLast(h1, p, st, v, behave, d, cb);
    SettleOnce(h1, p, st, v, st, v, behave);
  }

  /** `then()` with no callbacks on a pending promise that settles later: the derived promise gets the same state and value. */
  lemma ThenPassesThroughLater(h: Heap, p: nat, st: State, v: Value, behave: Behaviour)
    requires WellFormed(h) && p < |h.cells| && h.cells[p].state == Pending && st != Pending
    ensures var (h1, d) := Then(h, p, None, None, behave);
      var r := Settle(h1, p, st, v, behave);
      r.cells[d].state == st && r.cells[d].value == v
  {
    ThenThenSettle(h, p, None, None, st, v, behave);
  }

  /** A reject callback that returns a plain value recovers also when the rejection comes later. */
  lemma ThenRecoversLater(h: Heap, p: nat, onFulfill: Option<Callback>, j: nat, e: Value, behave: Behaviour)
    requires WellFormed(h) && p < |h.cells| && h.cells[p].state == Pending
    requires onFulfill.Some? ==> onFulfill.value.User?
    requires behave(j, e).Return? && !IsPromise(behave(j, e).r)
    ensures var (h1, d) := Then(h, p, onFulfill, Some(User(j)), behave);
      var r := Settle(h1, p, Rejected, e, behave);
      r.cells[d].state == Fulfilled && r.cells[d].value == behave(j, e).r
  {
    ThenThenSettle(h, p, onFulfill, Some(User(j)), Rejected, e, behave);
  }

  /** On a pending promise, `catch` appends one wrapper to the reject list only, and creates a pending derived promise. */
  lemma CatchPending(h: Heap, p: nat, onReject: Option<Callback>, behave: Behaviour)
    requires p < |h.cells| && h.cells[p].state == Pending
    ensures var (r, d) := Catch(h, p, onReject, behave);
      && r.cells[p].rejectHandlers == h.cells[p].rejectHandlers + [Wrapped(onReject.GetOr(RejectFn(d)), d)]
      && r.cells[p].resolveHandlers == h.cells[p].resolveHandlers
      && r.cells[p].finallyHandlers == h.cells[p].finallyHandlers
      && r.cells[p].state == Pending && r.cells[d] == Fresh && r.log == h.log
      && forall q :: 0 <= q < |h.cells| && q != p ==> r.cells[q] == h.cells[q]
  {
  }

  /** `catch(onReject)` on a rejected promise runs the wrapper at once: the derived promise takes the outcome of the callback. */
  lemma CatchRejected(h: Heap, p: nat, onReject: Option<Callback>, behave: Behaviour)
    requires p < |h.cells| && h.cells[p].state == Rejected
    requires onReject.Some? ==> onReject.value.User?
    ensures var (r, d) := Catch(h, p, onReject, behave);
      var c := h.cells[p];
      var cb := onReject.GetOr(RejectFn(d));
      && r.cells[p] == c
      && |r.log| > |h.log| && r.log[|h.log|] == Fired(p, Wrapped(cb, d), c.value)
      && r.cells[d].state == CallResult(cb, c.value, behave).0
      && (r.cells[d].state != Pending ==> r.cells[d].value == CallResult(cb, c.value, behave).1)
  {
    var d := |h.cells|;
    var c := h.cells[p];
    var cb := onReject.GetOr(RejectFn(d));
    var h2 := h.(cells := h.cells + [Fresh], log := h.log + [Fired(p, Wrapped(cb, d), c.value)]);
    assert Catch(h, p, onReject, behave) == (Call(h2, cb, c.value, d, behave), d);
    var r := Call(h2, cb, c.value, d, behave);
    CallOutcome(h2, cb, c.value, d, behave);
    SettledStays(h2, r, p);
    assert r.log[..|h2.log|] == h2.log;
  }

  /** `catch(onReject)` on a pending promise that is rejected later: the derived promise takes the outcome of the callback. */
  lemma CatchThenReject(h: Heap, p: nat, onReject: Option<Callback>, e: Value, behave: Behaviour)
    requires WellFormed(h) && p < |h.cells| && h.cells[p].state == Pending
    requires onReject.Some? ==> onReject.value.User?
    ensures var (h1, d) := Catch(h, p, onReject, behave);
      var cb := onReject.GetOr(RejectFn(d));
      var r := Settle(h1, p, Rejected, e, behave);
      && r.cells[p].state == Rejected && r.cells[p].value == e
      && r.cells[d].state == CallResult(cb, e, behave).0
      && (r.cells[d].state != Pending ==> r.cells[d].value == CallResult(cb, e, behave).1)
  {
    var (h1, d) := Catch(h, p, onReject, behave);
    var cb := onReject.GetOr(RejectFn(d));
    CatchPending(h, p, onReject, behave);
    NextUnwatched(h, p);
    forall k | 0 <= k < |h1.cells| && k != p
      ensures !Watches(h1.cells[k], d)
    {
      if k < |h.cells| && h.cells[k].state == Pending {
        NextUnwatched(h, k);
      }
    }
    var hs := h1.cells[p].rejectHandlers;
    assert hs == h.cells[p].rejectHandlers + [Wrapped(cb, d)];
    assert hs[..|hs| - 1] == h.cells[p].rejectHandlers;
    SettleReachesLast(h1, p, Rejected, e, behave, d, cb);
    SettleOnce(h1, p, Rejected, e, Rejected, e, behave);
  }

  // ---------------------------------------------------------------------------
  // Every operation keeps the heap well formed.

  /** The promises a callback may settle all exist among the first `n`. */
  ghost predicate NamesBelow(o: Option<Callback>, n: nat) {
    o.Some? ==> forall t :: t in CallbackTargets(o.value) ==> t < n
  }

  lemma EmptyWellFormed()
    ensures WellFormed(Heap([], map[], []))
  {
  }

  /** Adding a promise with no handlers keeps the heap well formed. */
  lemma AddWellFormed(h: Heap, c: Cell)
    requires WellFormed(h) && c.resolveHandlers == [] && c.rejectHandlers == []
    ensures WellFormed(h.(cells := h.cells + [c]))
  {
    var h1 := h.(cells := h.cells + [c]);
    forall k, t | 0 <= k < |h1.cells| && h1.cells[k].state == Pending &&
      (t in TargetsOf(h1.cells[k].resolveHandlers) || t in TargetsOf(h1.cells[k].rejectHandlers))
      ensures t < |h1.cells|
    {
      if k < |h.cells| {
        assert h1.cells[k] == h.cells[k];
      }
    }
  }

  lemma SettleWellFormed(h: Heap, p: nat, st: State, v: Value, behave: Behaviour)
    requires WellFormed(h) && st != Pending
    ensures WellFormed(Settle(h, p, st, v, behave))
  {
    FrameWellFormed(h, Settle(h, p, st, v, behave));
  }

  lemma {:induction false} ExecuteWellFormed(h: Heap, p: nat, steps: seq<ExecStep>, behave: Behaviour)
    requires WellFormed(h)
    ensures WellFormed(Execute(h, p, steps, behave))
  {
    FrameWellFormed(h, Execute(h, p, steps, behave));
  }

  lemma ConstructWellFormed(h: Heap, steps: seq<ExecStep>, ending: ExecEnd, behave: Behaviour)
    requires WellFormed(h)
    ensures WellFormed(Construct(h, steps, ending, behave).0)
  {
    var p := |h.cells|;
    var h1 := h.(cells := h.cells + [Fresh]);
    AddWellFormed(h, Fresh);
    ExecuteWellFormed(h1, p, steps, behave);
    var h2 := Execute(h1, p, steps, behave);
    match ending {
      case Finishes =>
      case Throws(e) => SettleWellFormed(h2, p, Rejected, e, behave);
    }
  }

  /** Appending one handler whose targets all exist keeps a list's targets below `n`. */
  lemma AppendTargets(hs: seq<Handler>, hd: Handler, n: nat)
    requires forall t :: t in TargetsOf(hs) ==> t < n
    requires forall t :: t in Targets(hd) ==> t < n
    ensures forall t :: t in TargetsOf(hs + [hd]) ==> t < n
  {
    TargetsOfAppend(hs, [hd]);
    assert TargetsOf([hd]) == Targets(hd) + TargetsOf([]);
  }

  /** A pending promise whose lists are replaced by lists naming existing promises keeps the heap well formed. */
  lemma ReplaceWellFormed(h: Heap, p: nat, c: Cell)
    requires WellFormed(h) && p < |h.cells|
    requires forall t :: t in TargetsOf(c.resolveHandlers) ==> t < |h.cells|
    requires forall t :: t in TargetsOf(c.rejectHandlers) ==> t < |h.cells|
    ensures WellFormed(h.(cells := h.cells[p := c]))
  {
    var h1 := h.(cells := h.cells[p := c]);
    forall k, t | 0 <= k < |h1.cells| && h1.cells[k].state == Pending &&
      (t in TargetsOf(h1.cells[k].resolveHandlers) || t in TargetsOf(h1.cells[k].rejectHandlers))
      ensures t < |h1.cells|
    {
      if k != p {
        assert h1.cells[k] == h.cells[k];
      }
    }
  }

  /** `then` keeps the heap well formed when its callbacks only name existing promises or the derived one. */
  lemma ThenWellFormed(h: Heap, p: nat, onFulfill: Option<Callback>, onReject: Option<Callback>, behave: Behaviour)
    requires WellFormed(h) && p < |h.cells|
    requires NamesBelow(onFulfill, |h.cells| + 1) && NamesBelow(onReject, |h.cells| + 1)
    ensures WellFormed(Then(h, p, onFulfill, onReject, behave).0)
  {
    var d := |h.cells|;
    var h1 := h.(cells := h.cells + [Fresh]);
    AddWellFormed(h, Fresh);
    var wF := Wrapped(onFulfill.GetOr(ResolveFn(d)), d);
    var wR := Wrapped(onReject.GetOr(RejectFn(d)), d);
    var c := h.cells[p];
    if c.state == Pending {
      assert forall t :: t in TargetsOf(c.resolveHandlers) ==> t < |h1.cells|;
      assert forall t :: t in TargetsOf(c.rejectHandlers) ==> t < |h1.cells|;
      AppendTargets(c.resolveHandlers, wF, |h1.cells|);
      AppendTargets(c.rejectHandlers, wR, |h1.cells|);
      ReplaceWellFormed(h1, p, c.(resolveHandlers := c.resolveHandlers + [wF], rejectHandlers := c.rejectHandlers + [wR]));
    } else {
      var w := if c.state == Fulfilled then wF else wR;
      var h2 := h1.(log := h1.log + [Fired(p, w, c.value)]);
      FrameWellFormed(h2, Run(h2, w, c.value, behave));
    }
  }

  lemma CatchWellFormed(h: Heap, p: nat, onReject: Option<Callback>, behave: Behaviour)
    requires WellFormed(h) && p < |h.cells| && NamesBelow(onReject, |h.cells| + 1)
    ensures WellFormed(Catch(h, p, onReject, behave).0)
  {
    var d := |h.cells|;
    var h1 := h.(cells := h.cells + [Fresh]);
    AddWellFormed(h, Fresh);
    var wR := Wrapped(onReject.GetOr(RejectFn(d)), d);
    var c := h.cells[p];
    if c.state == Pending {
      assert forall t :: t in TargetsOf(c.resolveHandlers) ==> t < |h1.cells|;
      assert forall t :: t in TargetsOf(c.rejectHandlers) ==> t < |h1.cells|;
      AppendTargets(c.rejectHandlers, wR, |h1.cells|);
      ReplaceWellFormed(h1, p, c.(rejectHandlers := c.rejectHandlers + [wR]));
    } else if c.state == Rejected {
      var h2 := h1.(log := h1.log + [Fired(p, wR, c.value)]);
      FrameWellFormed(h2, Run(h2, wR, c.value, behave));
    }
  }

  lemma FinallyWellFormed(h: Heap, p: nat, cb: Option<nat>, behave: Behaviour)
    requires WellFormed(h) && p < |h.cells|
    ensures WellFormed(Finally(h, p, cb, behave).0)
  {
    var d := |h.cells|;
    var h1 := h.(cells := h.cells + [Fresh]);
    AddWellFormed(h, Fresh);
    var c := h.cells[p];
    if c.state == Pending {
      var hooks := if cb.Some? then c.finallyHandlers + [cb.value] else c.finallyHandlers;
      assert forall t :: t in TargetsOf(c.resolveHandlers) ==> t < |h1.cells|;
      assert forall t :: t in TargetsOf(c.rejectHandlers) ==> t < |h1.cells|;
      AppendTargets(c.resolveHandlers, Settler(d, true), |h1.cells|);
      AppendTargets(c.rejectHandlers, Settler(d, false), |h1.cells|);
      ReplaceWellFormed(h1, p, c.(resolveHandlers := c.resolveHandlers + [Settler(d, true)],
                                  rejectHandlers := c.rejectHandlers + [Settler(d, false)],
                                  finallyHandlers := hooks));
    } else {
      SettleWellFormed(h1, d, c.state, c.value, behave);
    }
  }

  lemma StaticResolveWellFormed(h: Heap, v: Value, behave: Behaviour)
    requires WellFormed(h)
    ensures WellFormed(StaticResolve(h, v, behave).0)
  {
    if !v.Promise? {
      AddWellFormed(h, if IsPromise(v) then Fresh else Cell(Fulfilled, v, [], [], []));
    }
  }

  lemma StaticRejectWellFormed(h: Heap, e: Value, behave: Behaviour)
    requires WellFormed(h)
    ensures WellFormed(StaticReject(h, e, behave).0)
  {
    AddWellFormed(h, Cell(Rejected, e, [], [], []));
  }
}
