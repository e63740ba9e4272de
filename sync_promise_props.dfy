/**
 * Properties of the `SyncPromise` transitions: first-wins settlement, drain order,
 * which promises a settlement can reach, and the outcomes of `then`, `catch`,
 * `finally` and the static combinators.
 */
module SyncPromiseProps {
  import opened Wrappers
  import opened SyncPromiseState

  // ---------------------------------------------------------------------------
  // Settling at most once.

  /** A pending promise takes the given state and value; a second `resolve` or `reject` is ignored. */
  lemma SettleOnce(h: Heap, p: nat, st: State, v: Value, st2: State, v2: Value, behave: Behaviour)
    requires st != Pending && st2 != Pending
    requires p < |h.cells| && h.cells[p].state == Pending
    ensures Settle(h, p, st, v, behave).cells[p].state == st
    ensures Settle(h, p, st, v, behave).cells[p].value == v
    ensures Settle(Settle(h, p, st, v, behave), p, st2, v2, behave) == Settle(h, p, st, v, behave)
  {
  }

  /** Later settlements never touch a settled promise. */
  lemma SettledStays(h: Heap, r: Heap, p: nat)
    requires Frame(h, r) && p < |h.cells| && h.cells[p].state != Pending
    ensures r.cells[p] == h.cells[p]
  {
  }

  // ---------------------------------------------------------------------------
  // The events a promise owns: its settlement, its handler runs and its hooks.

  predicate OwnedBy(e: Event, q: nat) {
    (e.Settled? && e.id == q) || (e.Fired? && e.src == q) || (e.Hook? && e.src == q)
  }

  function Own(log: seq<Event>, q: nat): (r: seq<Event>)
    ensures |r| <= |log|
  {
    if log == [] then []
    else (if OwnedBy(log[0], q) then [log[0]] else []) + Own(log[1..], q)
  }

  lemma {:induction false} OwnAppend(a: seq<Event>, b: seq<Event>, q: nat)
    ensures Own(a + b, q) == Own(a, q) + Own(b, q)
  {
    if a == [] {
      assert a + b == b;
    } else {
      var hd := if OwnedBy(a[0], q) then [a[0]] else [];
      assert (a + b)[0] == a[0] && (a + b)[1..] == a[1..] + b;
      OwnAppend(a[1..], b, q);
      assert Own(a + b, q) == hd + Own(a[1..] + b, q);
      assert Own(a, q) == hd + Own(a[1..], q);
    }
  }

  /** The own events added between two logs, the second extending the first. */
  function Added(h: Heap, r: Heap, q: nat): seq<Event>
    requires Extends(h, r)
  {
    Own(r.log[|h.log|..], q)
  }

  lemma AddedSplit(a: Heap, b: Heap, c: Heap, q: nat)
    requires Extends(a, b) && Extends(b, c)
    ensures Extends(a, c) && Added(a, c, q) == Added(a, b, q) + Added(b, c, q)
  {
    ExtendsTransitive(a, b, c);
    assert c.log[|a.log|..] == b.log[|a.log|..] + c.log[|b.log|..];
    OwnAppend(b.log[|a.log|..], c.log[|b.log|..], q);
  }

  function FiredEvents(p: nat, hs: seq<Handler>, i: nat, v: Value): (r: seq<Event>)
    ensures |r| == if i <= |hs| then |hs| - i else 0
    decreases |hs| - i
  {
    if i >= |hs| then [] else [Fired(p, hs[i], v)] + FiredEvents(p, hs, i + 1, v)
  }

  lemma {:induction false} OwnHooks(p: nat, hooks: seq<nat>, q: nat)
    ensures Own(HookEvents(p, hooks), q) == if q == p then HookEvents(p, hooks) else []
  {
    if hooks != [] {
      OwnAppend([Hook(p, hooks[0])], HookEvents(p, hooks[1..]), q);
      OwnHooks(p, hooks[1..], q);
    }
  }

  // A settled promise gains no own events from a cascade.

  lemma {:induction false} SettleQuiet(h: Heap, p: nat, st: State, v: Value, behave: Behaviour, q: nat)
    requires st != Pending && q < |h.cells| && h.cells[q].state != Pending
    ensures Added(h, Settle(h, p, st, v, behave), q) == []
    decreases PendingCount(h.cells), 0, 0
  {
    if p < |h.cells| && h.cells[p].state == Pending {
      var c := h.cells[p];
      var h1 := h.(cells := h.cells[p := c.(state := st, value := v)], log := h.log + [Settled(p, st, v)]);
      PendingCountUpdate(h.cells, p, c.(state := st, value := v));
      var hs := if st == Fulfilled then c.resolveHandlers else c.rejectHandlers;
      var h2 := Drain(h1, p, hs, 0, v, behave);
      var h3 := h2.(log := h2.log + HookEvents(p, c.finallyHandlers));
      var r := Settle(h, p, st, v, behave);
      assert r.log == h3.log;
      DrainQuiet(h1, p, hs, 0, v, behave, q);
      assert h1.log[|h.log|..] == [Settled(p, st, v)];
      AddedSplit(h, h1, h2, q);
      assert h3.log[|h2.log|..] == HookEvents(p, c.finallyHandlers);
      OwnHooks(p, c.finallyHandlers, q);
      AddedSplit(h, h2, h3, q);
    }
  }

  lemma {:induction false} DrainQuiet(h: Heap, p: nat, hs: seq<Handler>, i: nat, v: Value, behave: Behaviour, q: nat)
    requires q < |h.cells| && h.cells[q].state != Pending && q != p
    ensures Added(h, Drain(h, p, hs, i, v, behave), q) == []
    decreases PendingCount(h.cells), 3, |hs| - i
  {
    if i < |hs| {
      var h1 := h.(log := h.log + [Fired(p, hs[i], v)]);
      var h2 := Run(h1, hs[i], v, behave);
      RunQuiet(h1, hs[i], v, behave, q);
      DrainQuiet(h2, p, hs, i + 1, v, behave, q);
      assert h1.log[|h.log|..] == [Fired(p, hs[i], v)];
      AddedSplit(h, h1, h2, q);
      AddedSplit(h, h2, Drain(h2, p, hs, i + 1, v, behave), q);
    }
  }

  lemma {:induction false} RunQuiet(h: Heap, hd: Handler, v: Value, behave: Behaviour, q: nat)
    requires q < |h.cells| && h.cells[q].state != Pending
    ensures Added(h, Run(h, hd, v, behave), q) == []
    decreases PendingCount(h.cells), 2, 0
  {
    match hd
    case Wrapped(cb, d) => CallQuiet(h, cb, v, d, behave, q);
    case Settler(d, fulfil) => SettleQuiet(h, d, if fulfil then Fulfilled else Rejected, v, behave, q);
  }

  lemma {:induction false} CallQuiet(h: Heap, cb: Callback, v: Value, d: nat, behave: Behaviour, q: nat)
    requires q < |h.cells| && h.cells[q].state != Pending
    ensures Added(h, Call(h, cb, v, d, behave), q) == []
    decreases PendingCount(h.cells), 1, 1
  {
    match cb
    case User(j) => UserCallQuiet(h, j, v, d, behave, q);
    case ResolveFn(k) => ForwardQuiet(h, cb, v, d, behave, q);
    case RejectFn(k) => ForwardQuiet(h, cb, v, d, behave, q);
    case AllSlot(a, i) => SlotQuiet(h, a, i, v, d, behave, q);
  }

  lemma {:induction false} UserCallQuiet(h: Heap, j: nat, v: Value, d: nat, behave: Behaviour, q: nat)
    requires q < |h.cells| && h.cells[q].state != Pending
    ensures Added(h, Call(h, User(j), v, d, behave), q) == []
    decreases PendingCount(h.cells), 1, 0
  {
    var h1 := h.(log := h.log + [Invoked(j, v)]);
    assert h1.log[|h.log|..] == [Invoked(j, v)];
    match behave(j, v)
    case Throw(e) =>
      SettleQuiet(h1, d, Rejected, e, behave, q);
      AddedSplit(h, h1, Settle(h1, d, Rejected, e, behave), q);
    case Return(x) =>
      if IsPromise(x) {
        var h2 := h1.(log := h1.log + [Adopted(d, x)]);
        assert h2.log[|h.log|..] == [Invoked(j, v)] + [Adopted(d, x)];
        OwnAppend([Invoked(j, v)], [Adopted(d, x)], q);
      } else {
        SettleQuiet(h1, d, Fulfilled, x, behave, q);
        AddedSplit(h, h1, Settle(h1, d, Fulfilled, x, behave), q);
      }
  }

  lemma {:induction false} ForwardQuiet(h: Heap, cb: Callback, v: Value, d: nat, behave: Behaviour, q: nat)
    requires cb.ResolveFn? || cb.RejectFn?
    requires q < |h.cells| && h.cells[q].state != Pending
    ensures Added(h, Call(h, cb, v, d, behave), q) == []
    decreases PendingCount(h.cells), 1, 0
  {
    var st := if cb.ResolveFn? then Fulfilled else Rejected;
    var h1 := Settle(h, cb.k, st, v, behave);
    assert Call(h, cb, v, d, behave) == Settle(h1, d, Fulfilled, Undefined, behave);
    SettleQuiet(h, cb.k, st, v, behave, q);
    SettledStays(h, h1, q);
    SettleQuiet(h1, d, Fulfilled, Undefined, behave, q);
    AddedSplit(h, h1, Settle(h1, d, Fulfilled, Undefined, behave), q);
  }

  lemma {:induction false} SlotQuiet(h: Heap, a: nat, i: nat, v: Value, d: nat, behave: Behaviour, q: nat)
    requires q < |h.cells| && h.cells[q].state != Pending
    ensures Added(h, Call(h, AllSlot(a, i), v, d, behave), q) == []
    decreases PendingCount(h.cells), 1, 0
  {
    var h2 := Slot(h, a, i, v, behave);
    SlotStepQuiet(h, a, i, v, behave, q);
    SettledStays(h, h2, q);
    SettleQuiet(h2, d, Fulfilled, Undefined, behave, q);
    AddedSplit(h, h2, Settle(h2, d, Fulfilled, Undefined, behave), q);
  }

  lemma {:induction false} SlotStepQuiet(h: Heap, a: nat, i: nat, v: Value, behave: Behaviour, q: nat)
    requires q < |h.cells| && h.cells[q].state != Pending
    ensures Added(h, Slot(h, a, i, v, behave), q) == []
    decreases PendingCount(h.cells), 0, 1
  {
    if a in h.alls {
      var rec := h.alls[a];
      var resolved := if i < |rec.resolved| then rec.resolved[i := v] else rec.resolved;
      var h1 := h.(alls := h.alls[a := AllRec(rec.n, rec.counter + 1, resolved)]);
      if rec.counter + 1 == rec.n {
        SettleQuiet(h1, a, Fulfilled, Items(resolved), behave, q);
        assert Slot(h, a, i, v, behave) == Settle(h1, a, Fulfilled, Items(resolved), behave);
      } else {
        assert h1.log[|h.log|..] == [];
      }
    } else {
      assert h.log[|h.log|..] == [];
    }
  }

  /**
   * Settling a pending promise: it ends with the given state and value and empty
   * lists, and the only events it owns are its settlement, one run of every handler
   * of the matching list in registration order with the value, then every finally
   * hook in order.
   */
  lemma DrainOrder(h: Heap, p: nat, st: State, v: Value, behave: Behaviour)
    requires st != Pending && p < |h.cells| && h.cells[p].state == Pending
    ensures Settle(h, p, st, v, behave).cells[p] == Cell(st, v, [], [], [])
    ensures Added(h, Settle(h, p, st, v, behave), p) ==
      [Settled(p, st, v)]
      + FiredEvents(p, if st == Fulfilled then h.cells[p].resolveHandlers else h.cells[p].rejectHandlers, 0, v)
      + HookEvents(p, h.cells[p].finallyHandlers)
  {
    var c := h.cells[p];
    var h1 := h.(cells := h.cells[p := c.(state := st, value := v)], log := h.log + [Settled(p, st, v)]);
    PendingCountUpdate(h.cells, p, c.(state := st, value := v));
    var hs := if st == Fulfilled then c.resolveHandlers else c.rejectHandlers;
    var h2 := Drain(h1, p, hs, 0, v, behave);
    var h3 := h2.(log := h2.log + HookEvents(p, c.finallyHandlers));
    assert Settle(h, p, st, v, behave).log == h3.log;
    assert h1.log[|h.log|..] == [Settled(p, st, v)];
    DrainFires(h1, p, hs, 0, v, behave);
    AddedSplit(h, h1, h2, p);
    assert h3.log[|h2.log|..] == HookEvents(p, c.finallyHandlers);
    OwnHooks(p, c.finallyHandlers, p);
    AddedSplit(h, h2, h3, p);
  }

  /** Draining the list of a settled promise `p` gives `p` exactly one `Fired` event per remaining handler. */
  lemma {:induction false} DrainFires(h: Heap, p: nat, hs: seq<Handler>, i: nat, v: Value, behave: Behaviour)
    requires p < |h.cells| && h.cells[p].state != Pending
    ensures Added(h, Drain(h, p, hs, i, v, behave), p) == FiredEvents(p, hs, i, v)
    decreases |hs| - i
  {
    if i < |hs| {
      var h1 := h.(log := h.log + [Fired(p, hs[i], v)]);
      var h2 := Run(h1, hs[i], v, behave);
      RunQuiet(h1, hs[i], v, behave, p);
      SettledStays(h1, h2, p);
      var r := Drain(h2, p, hs, i + 1, v, behave);
      assert Drain(h, p, hs, i, v, behave) == r;
      DrainFires(h2, p, hs, i + 1, v, behave);
      assert h1.log[|h.log|..] == [Fired(p, hs[i], v)];
      assert Added(h, h1, p) == [Fired(p, hs[i], v)];
      AddedSplit(h, h1, h2, p);
      AddedSplit(h, h2, r, p);
      assert FiredEvents(p, hs, i, v) == [Fired(p, hs[i], v)] + FiredEvents(p, hs, i + 1, v);
    }
  }

  // ---------------------------------------------------------------------------
  // Which promises a settlement can reach.

  function CallbackTargets(cb: Callback): set<nat> {
    match cb
    case User(_) => {}
    case ResolveFn(k) => {k}
    case RejectFn(k) => {k}
    case AllSlot(a, _) => {a}
  }

  /** The promises a handler may settle when it runs. */
  function Targets(hd: Handler): set<nat> {
    match hd
    case Wrapped(cb, d) => CallbackTargets(cb) + {d}
    case Settler(d, _) => {d}
  }

  function TargetsOf(hs: seq<Handler>): set<nat> {
    if hs == [] then {} else Targets(hs[0]) + TargetsOf(hs[1..])
  }

  lemma TargetsOfAt(hs: seq<Handler>, i: nat)
    requires i < |hs|
    ensures TargetsOf(hs[i..]) == Targets(hs[i]) + TargetsOf(hs[i + 1..])
  {
    assert hs[i..][0] == hs[i] && hs[i..][1..] == hs[i + 1..];
  }

  lemma {:induction false} TargetsOfAppend(a: seq<Handler>, b: seq<Handler>)
    ensures TargetsOf(a + b) == TargetsOf(a) + TargetsOf(b)
  {
    if a == [] {
      assert a + b == b;
    } else {
      assert (a + b)[0] == a[0] && (a + b)[1..] == a[1..] + b;
      TargetsOfAppend(a[1..], b);
    }
  }

  /** A pending promise whose resolve or reject list holds a handler that may settle `q`. */
  ghost predicate Watches(c: Cell, q: nat) {
    c.state == Pending && (q in TargetsOf(c.resolveHandlers) || q in TargetsOf(c.rejectHandlers))
  }

  /** No pending promise other than `p` watches `q`. */
  ghost predicate UnwatchedBut(h: Heap, q: nat, p: int) {
    forall c :: 0 <= c < |h.cells| && c != p ==> !Watches(h.cells[c], q)
  }

  /** No pending promise watches `q`: nothing reachable from the heap can settle it. */
  ghost predicate Unwatched(h: Heap, q: nat) {
    UnwatchedBut(h, q, -1)
  }

  lemma FrameUnwatched(h: Heap, r: Heap, q: nat)
    requires Frame(h, r) && Unwatched(h, q)
    ensures Unwatched(r, q)
  {
    forall c | 0 <= c < |r.cells| && r.cells[c].state == Pending
      ensures !Watches(r.cells[c], q)
    {
      assert !Watches(h.cells[c], q);
    }
  }

  lemma {:induction false} SettleKeeps(h: Heap, p: nat, st: State, v: Value, behave: Behaviour, q: nat)
    requires st != Pending && q < |h.cells| && q != p && h.cells[q].state == Pending
    requires UnwatchedBut(h, q, p)
    requires p < |h.cells| && h.cells[p].state == Pending ==>
      q !in TargetsOf(if st == Fulfilled then h.cells[p].resolveHandlers else h.cells[p].rejectHandlers)
    ensures Settle(h, p, st, v, behave).cells[q] == h.cells[q]
    ensures Unwatched(Settle(h, p, st, v, behave), q)
    decreases PendingCount(h.cells), 0, 0
  {
    if p < |h.cells| && h.cells[p].state == Pending {
      var c := h.cells[p];
      var h1 := h.(cells := h.cells[p := c.(state := st, value := v)], log := h.log + [Settled(p, st, v)]);
      PendingCountUpdate(h.cells, p, c.(state := st, value := v));
      var hs := if st == Fulfilled then c.resolveHandlers else c.rejectHandlers;
      assert Unwatched(h1, q) by {
        forall k | 0 <= k < |h1.cells|
          ensures !Watches(h1.cells[k], q)
        {
          if k != p {
            assert h1.cells[k] == h.cells[k];
          }
        }
      }
      DrainKeeps(h1, p, hs, 0, v, behave, q);
      var h2 := Drain(h1, p, hs, 0, v, behave);
      SettledStays(h1, h2, p);
      var r := Settle(h, p, st, v, behave);
      assert r.cells == h2.cells[p := h2.cells[p].(resolveHandlers := [], rejectHandlers := [], finallyHandlers := [])];
      assert Unwatched(r, q) by {
        forall k | 0 <= k < |r.cells|
          ensures !Watches(r.cells[k], q)
        {
          if k != p {
            assert r.cells[k] == h2.cells[k];
          }
        }
      }
    } else {
      assert Unwatched(h, q) by {
        forall k | 0 <= k < |h.cells|
          ensures !Watches(h.cells[k], q)
        {
          if k != p {
            assert !Watches(h.cells[k], q);
          }
        }
      }
    }
  }

  lemma {:induction false} DrainKeeps(h: Heap, p: nat, hs: seq<Handler>, i: nat, v: Value, behave: Behaviour, q: nat)
    requires q < |h.cells| && h.cells[q].state == Pending && Unwatched(h, q)
    requires i <= |hs| && q !in TargetsOf(hs[i..])
    ensures Drain(h, p, hs, i, v, behave).cells[q] == h.cells[q]
    ensures Unwatched(Drain(h, p, hs, i, v, behave), q)
    decreases PendingCount(h.cells), 3, |hs| - i
  {
    if i < |hs| {
      var h1 := h.(log := h.log + [Fired(p, hs[i], v)]);
      TargetsOfAt(hs, i);
      RunKeeps(h1, hs[i], v, behave, q);
      DrainKeeps(Run(h1, hs[i], v, behave), p, hs, i + 1, v, behave, q);
    }
  }

  lemma {:induction false} RunKeeps(h: Heap, hd: Handler, v: Value, behave: Behaviour, q: nat)
    requires q < |h.cells| && h.cells[q].state == Pending && Unwatched(h, q)
    requires q !in Targets(hd)
    ensures Run(h, hd, v, behave).cells[q] == h.cells[q]
    ensures Unwatched(Run(h, hd, v, behave), q)
    decreases PendingCount(h.cells), 2, 0
  {
    match hd
    case Wrapped(cb, d) => CallKeeps(h, cb, v, d, behave, q);
    case Settler(d, fulfil) => SettleKeeps(h, d, if fulfil then Fulfilled else Rejected, v, behave, q);
  }

  lemma {:induction false} CallKeeps(h: Heap, cb: Callback, v: Value, d: nat, behave: Behaviour, q: nat)
    requires q < |h.cells| && h.cells[q].state == Pending && Unwatched(h, q)
    requires q != d && q !in CallbackTargets(cb)
    ensures Call(h, cb, v, d, behave).cells[q] == h.cells[q]
    ensures Unwatched(Call(h, cb, v, d, behave), q)
    decreases PendingCount(h.cells), 1, 1
  {
    match cb
    case User(j) => UserCallKeeps(h, j, v, d, behave, q);
    case ResolveFn(k) => ForwardKeeps(h, cb, v, d, behave, q);
    case RejectFn(k) => ForwardKeeps(h, cb, v, d, behave, q);
    case AllSlot(a, i) => SlotKeeps(h, a, i, v, d, behave, q);
  }

  lemma {:induction false} UserCallKeeps(h: Heap, j: nat, v: Value, d: nat, behave: Behaviour, q: nat)
    requires q < |h.cells| && h.cells[q].state == Pending && Unwatched(h, q) && q != d
    ensures Call(h, User(j), v, d, behave).cells[q] == h.cells[q]
    ensures Unwatched(Call(h, User(j), v, d, behave), q)
    decreases PendingCount(h.cells), 1, 0
  {
    var h1 := h.(log := h.log + [Invoked(j, v)]);
    match behave(j, v)
    case Throw(e) => SettleKeeps(h1, d, Rejected, e, behave, q);
    case Return(x) =>
      if !IsPromise(x) {
        SettleKeeps(h1, d, Fulfilled, x, behave, q);
      }
  }

  lemma {:induction false} ForwardKeeps(h: Heap, cb: Callback, v: Value, d: nat, behave: Behaviour, q: nat)
    requires cb.ResolveFn? || cb.RejectFn?
    requires q < |h.cells| && h.cells[q].state == Pending && Unwatched(h, q) && q != d && q != cb.k
    ensures Call(h, cb, v, d, behave).cells[q] == h.cells[q]
    ensures Unwatched(Call(h, cb, v, d, behave), q)
    decreases PendingCount(h.cells), 1, 0
  {
    var st := if cb.ResolveFn? then Fulfilled else Rejected;
    var h1 := Settle(h, cb.k, st, v, behave);
    assert Call(h, cb, v, d, behave) == Settle(h1, d, Fulfilled, Undefined, behave);
    SettleKeeps(h, cb.k, st, v, behave, q);
    SettleKeeps(h1, d, Fulfilled, Undefined, behave, q);
  }

  lemma {:induction false} SlotKeeps(h: Heap, a: nat, i: nat, v: Value, d: nat, behave: Behaviour, q: nat)
    requires q < |h.cells| && h.cells[q].state == Pending && Unwatched(h, q) && q != d && q != a
    ensures Call(h, AllSlot(a, i), v, d, behave).cells[q] == h.cells[q]
    ensures Unwatched(Call(h, AllSlot(a, i), v, d, behave), q)
    decreases PendingCount(h.cells), 1, 0
  {
    var h2 := Slot(h, a, i, v, behave);
    if a in h.alls {
      var rec := h.alls[a];
      var resolved := if i < |rec.resolved| then rec.resolved[i := v] else rec.resolved;
      var h1 := h.(alls := h.alls[a := AllRec(rec.n, rec.counter + 1, resolved)]);
      assert h1.cells == h.cells;
      if rec.counter + 1 == rec.n {
        SettleKeeps(h1, a, Fulfilled, Items(resolved), behave, q);
      }
    }
    SettleKeeps(h2, d, Fulfilled, Undefined, behave, q);
  }
}
