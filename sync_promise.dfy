/**
 * The `SyncPromise` class as mutable state. One `PromiseHeap` holds every promise
 * instance as a cell (`state`, `value` and the three handler lists), so that a
 * handler of one promise can settle another one. Every method is proved to make the
 * transition of the same name in `SyncPromiseState`.
 */
module SyncPromise {
  import opened Wrappers
  import S = SyncPromiseState
  import opened SyncPromiseState

  class PromiseHeap {
    var cells: seq<Cell>
    var alls: map<nat, AllRec>
    var log: seq<Event>
    /** What the user callbacks do. */
    const behave: Behaviour

    function Snapshot(): Heap
      reads this
    {
      Heap(cells, alls, log)
    }

    constructor(behave: Behaviour)
      ensures Snapshot() == Heap([], map[], []) && this.behave == behave
    {
      cells := [];
      alls := map[];
      log := [];
      this.behave := behave;
    }

    /** `isPending`. */
    function IsPending(p: nat): (r: bool)
      reads this
      requires p < |cells|
      ensures r <==> cells[p].state == Pending
    {
      cells[p].state == Pending
    }

    /** The constructor's `resolve`/`reject` closures of promise `p`. */
    method Settle(p: nat, st: State, v: Value)
      requires st != Pending
      modifies this
      ensures Snapshot() == S.Settle(old(Snapshot()), p, st, v, behave)
      decreases PendingCount(cells), 0, 0
    {
      if p >= |cells| || cells[p].state != Pending {
        return;
      }
      ghost var h := Snapshot();
      var c := cells[p];
      cells := cells[p := c.(state := st, value := v)];
      log := log + [Settled(p, st, v)];
      PendingCountUpdate(h.cells, p, c.(state := st, value := v));
      var hs := if st == Fulfilled then c.resolveHandlers else c.rejectHandlers;
      Drain(p, hs, v);
      RunHooks(p, c.finallyHandlers);
      cells := cells[p := cells[p].(resolveHandlers := [], rejectHandlers := [], finallyHandlers := [])];
    }

    /** `forEach` over the handler list captured when promise `p` settled. */
    method Drain(p: nat, hs: seq<Handler>, v: Value)
      modifies this
      ensures Snapshot() == S.Drain(old(Snapshot()), p, hs, 0, v, behave)
      decreases PendingCount(cells), 3, |hs|
    {
      ghost var h1 := Snapshot();
      var i := 0;
      while i < |hs|
        invariant 0 <= i <= |hs|
        invariant S.Drain(Snapshot(), p, hs, i, v, behave) == S.Drain(h1, p, hs, 0, v, behave)
        invariant PendingCount(cells) <= PendingCount(h1.cells)
        decreases |hs| - i
      {
        log := log + [Fired(p, hs[i], v)];
        RunHandler(hs[i], v);
        i := i + 1;
      }
    }

    /** `finallyHandlers.forEach(fn => fn())`. */
    method RunHooks(p: nat, hooks: seq<nat>)
      modifies this
      ensures Snapshot() == old(Snapshot()).(log := old(log) + HookEvents(p, hooks))
    {
      var j := 0;
      while j < |hooks|
        invariant 0 <= j <= |hooks|
        invariant cells == old(cells) && alls == old(alls) && log == old(log) + HookEvents(p, hooks[..j])
        decreases |hooks| - j
      {
        assert HookEvents(p, hooks[..j + 1]) == HookEvents(p, hooks[..j]) + [Hook(p, hooks[j])];
        log := log + [Hook(p, hooks[j])];
        j := j + 1;
      }
      assert hooks[..j] == hooks;
    }

    /** One entry of a handler list runs with the promise's value. */
    method RunHandler(hd: Handler, v: Value)
      modifies this
      ensures Snapshot() == S.Run(old(Snapshot()), hd, v, behave)
      decreases PendingCount(cells), 2, 0
    {
      match hd
      case Wrapped(cb, d) => Call(cb, v, d);
      case Settler(d, fulfil) => Settle(d, if fulfil then Fulfilled else Rejected, v);
    }

    /** `call(cb, [v], reject, resolve)` for the derived promise `d`. */
    method Call(cb: Callback, v: Value, d: nat)
      modifies this
      ensures Snapshot() == S.Call(old(Snapshot()), cb, v, d, behave)
      decreases PendingCount(cells), 1, 0
    {
      match cb
      case User(j) =>
        log := log + [Invoked(j, v)];
        var reaction := behave(j, v);
        match reaction {
          case Throw(e) => Settle(d, Rejected, e);
          case Return(x) =>
            if IsPromise(x) {
              log := log + [Adopted(d, x)];
            } else {
              Settle(d, Fulfilled, x);
            }
        }
      case ResolveFn(k) =>
        Settle(k, Fulfilled, v);
        Settle(d, Fulfilled, Undefined);
      case RejectFn(k) =>
        Settle(k, Rejected, v);
        Settle(d, Fulfilled, Undefined);
      case AllSlot(a, i) =>
        Slot(a, i, v);
        Settle(d, Fulfilled, Undefined);
    }

    /** The slot callback of `all`. */
    method Slot(a: nat, i: nat, v: Value)
      modifies this
      ensures Snapshot() == S.Slot(old(Snapshot()), a, i, v, behave)
      decreases PendingCount(cells), 0, 1
    {
      if a !in alls {
        return;
      }
      var rec := alls[a];
      var resolved := if i < |rec.resolved| then rec.resolved[i := v] else rec.resolved;
      alls := alls[a := AllRec(rec.n, rec.counter + 1, resolved)];
      if rec.counter + 1 == rec.n {
        Settle(a, Fulfilled, Items(resolved));
      }
    }

    /** A call of the `resolve` function handed out for promise `p`: by its executor, or by a thenable it was given to. */
    method Resolve(p: nat, v: Value)
      modifies this
      ensures Snapshot() == S.Settle(old(Snapshot()), p, Fulfilled, v, behave)
    {
      Settle(p, Fulfilled, v);
    }

    /** A call of the `reject` function handed out for promise `p`. */
    method Reject(p: nat, e: Value)
      modifies this
      ensures Snapshot() == S.Settle(old(Snapshot()), p, Rejected, e, behave)
    {
      Settle(p, Rejected, e);
    }

    /** `new SyncPromise(executor)`. */
    method Construct(steps: seq<ExecStep>, ending: ExecEnd) returns (p: nat)
      modifies this
      ensures (Snapshot(), p) == S.Construct(old(Snapshot()), steps, ending, behave)
    {
      p := |cells|;
      cells := cells + [Fresh];
      ghost var h1 := Snapshot();
      var k := 0;
      while k < |steps|
        invariant 0 <= k <= |steps|
        invariant S.Execute(Snapshot(), p, steps[k..], behave) == S.Execute(h1, p, steps, behave)
        decreases |steps| - k
      {
        assert steps[k..][0] == steps[k] && steps[k..][1..] == steps[k + 1..];
        match steps[k] {
          case CallResolve(v) => Settle(p, Fulfilled, v);
          case CallReject(e) => Settle(p, Rejected, e);
        }
        k := k + 1;
      }
      match ending {
        case Finishes =>
        case Throws(e) => Settle(p, Rejected, e);
      }
    }

    /** `then(onFulfill, onReject)` on promise `p`. */
    method Then(p: nat, onFulfill: Option<Callback>, onReject: Option<Callback>) returns (d: nat)
      requires p < |cells|
      modifies this
      ensures (Snapshot(), d) == S.Then(old(Snapshot()), p, onFulfill, onReject, behave)
    {
      d := |cells|;
      var c := cells[p];
      cells := cells + [Fresh];
      var wF := Wrapped(onFulfill.GetOr(ResolveFn(d)), d);
      var wR := Wrapped(onReject.GetOr(RejectFn(d)), d);
      if c.state == Pending {
        cells := cells[p := c.(resolveHandlers := c.resolveHandlers + [wF], rejectHandlers := c.rejectHandlers + [wR])];
      } else {
        var w := if c.state == Fulfilled then wF else wR;
        log := log + [Fired(p, w, c.value)];
        RunHandler(w, c.value);
      }
    }

    /** `catch(onReject)` on promise `p`. */
    method Catch(p: nat, onReject: Option<Callback>) returns (d: nat)
      requires p < |cells|
      modifies this
      ensures (Snapshot(), d) == S.Catch(old(Snapshot()), p, onReject, behave)
    {
      d := |cells|;
      var c := cells[p];
      cells := cells + [Fresh];
      var wR := Wrapped(onReject.GetOr(RejectFn(d)), d);
      if c.state == Pending {
        cells := cells[p := c.(rejectHandlers := c.rejectHandlers + [wR])];
      } else if c.state == Rejected {
        log := log + [Fired(p, wR, c.value)];
        RunHandler(wR, c.value);
      }
    }

    /** `finally(cb)` on promise `p`. */
    method Finally(p: nat, cb: Option<nat>) returns (d: nat)
      requires p < |cells|
      modifies this
      ensures (Snapshot(), d) == S.Finally(old(Snapshot()), p, cb, behave)
    {
      d := |cells|;
      var c := cells[p];
      cells := cells + [Fresh];
      if c.state == Pending {
        var hooks := if cb.Some? then c.finallyHandlers + [cb.value] else c.finallyHandlers;
        cells := cells[p := c.(resolveHandlers := c.resolveHandlers + [Settler(d, true)],
                               rejectHandlers := c.rejectHandlers + [Settler(d, false)],
                               finallyHandlers := hooks)];
      } else {
        Settle(d, c.state, c.value);
        if cb.Some? {
          log := log + [Hook(p, cb.value)];
        }
      }
    }

    /** Static `resolve(value)`. */
    method StaticResolve(v: Value) returns (p: nat)
      modifies this
      ensures (Snapshot(), p) == S.StaticResolve(old(Snapshot()), v, behave)
    {
      if v.Promise? {
        return v.id;
      }
      p := |cells|;
      cells := cells + [Fresh];
      if IsPromise(v) {
        log := log + [Adopted(p, v)];
      } else {
        Settle(p, Fulfilled, v);
      }
    }

    /** Static `reject(reason)`. */
    method StaticReject(e: Value) returns (p: nat)
      modifies this
      ensures (Snapshot(), p) == S.StaticReject(old(Snapshot()), e, behave)
    {
      p := |cells|;
      cells := cells + [Fresh];
      Settle(p, Rejected, e);
    }

    /** `promises.push(SyncPromise.resolve(el))` over the inputs of `all` and `race`. */
    method ResolveEach(values: seq<Value>) returns (ps: seq<nat>)
      requires KnownValues(Snapshot(), values)
      modifies this
      ensures (Snapshot(), ps) == S.ResolveEach(old(Snapshot()), values, behave)
    {
      ghost var h0 := Snapshot();
      ps := [];
      var k := 0;
      while k < |values|
        invariant 0 <= k <= |values| && |h0.cells| <= |cells|
        invariant KnownValues(Snapshot(), values[k..])
        invariant S.ResolveEach(Snapshot(), values[k..], behave).0 == S.ResolveEach(h0, values, behave).0
        invariant ps + S.ResolveEach(Snapshot(), values[k..], behave).1 == S.ResolveEach(h0, values, behave).1
        decreases |values| - k
      {
        assert values[k..][0] == values[k] && values[k..][1..] == values[k + 1..];
        var p := StaticResolve(values[k]);
        ps := ps + [p];
        k := k + 1;
      }
      assert values[k..] == [];
      assert S.ResolveEach(Snapshot(), values[k..], behave) == (Snapshot(), []);
      assert ps + [] == ps;
    }

    /** The `for` loop of `all` (slots) or `race` (the combined promise's resolve). */
    method AttachEach(ps: seq<nat>, target: nat, slots: bool)
      requires forall k :: 0 <= k < |ps| ==> ps[k] < |cells|
      modifies this
      ensures Snapshot() == S.AttachEach(old(Snapshot()), ps, 0, target, slots, behave)
    {
      ghost var h0 := Snapshot();
      var i := 0;
      while i < |ps|
        invariant 0 <= i <= |ps| && |h0.cells| <= |cells|
        invariant S.AttachEach(Snapshot(), ps, i, target, slots, behave) == S.AttachEach(h0, ps, 0, target, slots, behave)
        decreases |ps| - i
      {
        var onFulfill := if slots then AllSlot(target, i) else ResolveFn(target);
        var _ := Then(ps[i], Some(onFulfill), Some(RejectFn(target)));
        i := i + 1;
      }
    }

    /** Static `all(values)`. */
    method All(values: seq<Value>) returns (a: nat)
      requires KnownValues(Snapshot(), values)
      modifies this
      ensures (Snapshot(), a) == S.All(old(Snapshot()), values, behave)
    {
      a := |cells|;
      cells := cells + [Fresh];
      var ps := ResolveEach(values);
      if ps == [] {
        Settle(a, Fulfilled, Items([]));
      } else {
        alls := alls[a := AllRec(|ps|, 0, seq(|ps|, _ => Undefined))];
        AttachEach(ps, a, true);
      }
    }

    /** Static `race(values)`. */
    method Race(values: seq<Value>) returns (a: nat)
      requires KnownValues(Snapshot(), values)
      modifies this
      ensures (Snapshot(), a) == S.Race(old(Snapshot()), values, behave)
    {
      a := |cells|;
      cells := cells + [Fresh];
      var ps := ResolveEach(values);
      if ps == [] {
        Settle(a, Fulfilled, Undefined);
      } else {
        AttachEach(ps, a, false);
      }
    }
  }
}
