/**
 * `core/promise/sync`: a promise whose handlers run synchronously. All promise
 * instances live side by side as cells of one heap, indexed in creation order,
 * because the handlers of one promise settle other (derived) promises.
 *
 * This module holds the values, the cells and the state transitions as functions;
 * `SyncPromise.PromiseHeap` runs the same transitions on mutable fields.
 */
module SyncPromiseState {
  import opened Wrappers

  datatype State = Pending | Fulfilled | Rejected

  /** The values that flow through promises: plain data, a foreign thenable, a `SyncPromise` of this heap, or the array built by `all`. */
  datatype Value = Undefined | Atom(n: int) | Thenable(t: nat) | Promise(id: nat) | Items(elems: seq<Value>)

  /** `Object.isPromise` / `Object.isPromiseLike`: the value has a `then` method. */
  predicate IsPromise(v: Value) {
    v.Thenable? || v.Promise?
  }

  /** What a user callback does with its argument: return a value or throw. */
  datatype Reaction = Return(r: Value) | Throw(e: Value)

  /** The function that `call` runs: a user callback (by number), the resolve or reject function of a promise, or a slot of `all`. */
  datatype Callback = User(j: nat) | ResolveFn(k: nat) | RejectFn(k: nat) | AllSlot(a: nat, i: nat)

  /** An entry of a handler list: the wrapper that `then`/`catch` register, or the raw resolve (reject) function of a derived promise that `finally` registers. */
  datatype Handler = Wrapped(cb: Callback, derived: nat) | Settler(target: nat, fulfil: bool)

  /** One promise instance: the fields `state`, `value` and the three handler lists. */
  datatype Cell = Cell(state: State, value: Value, resolveHandlers: seq<Handler>, rejectHandlers: seq<Handler>, finallyHandlers: seq<nat>)

  /** The closure state of one `all` call: the number of inputs, the counter and the `resolved` array. */
  datatype AllRec = AllRec(n: nat, counter: nat, resolved: seq<Value>)

  /** What the heap records, in order. */
  datatype Event =
    | Settled(id: nat, state: State, value: Value)       // a promise left the pending state
    | Fired(src: nat, handler: Handler, arg: Value)      // a handler of `src` runs with `arg`
    | Hook(src: nat, hook: nat)                          // a `finally` callback attached to `src` runs
    | Invoked(callback: nat, arg: Value)                 // a user callback runs
    | Adopted(id: nat, thenable: Value)                  // promise `id` is handed over to a thenable

  datatype Heap = Heap(cells: seq<Cell>, alls: map<nat, AllRec>, log: seq<Event>)

  /** The user callbacks, as a function of their number and argument. */
  type Behaviour = (nat, Value) -> Reaction

  const Fresh: Cell := Cell(Pending, Undefined, [], [], [])

  function PendingCount(cells: seq<Cell>): nat {
    if cells == [] then 0 else (if cells[0].state == Pending then 1 else 0) + PendingCount(cells[1..])
  }

  /** Updating one cell changes the pending count by what that cell's state change says. */
  lemma {:induction false} PendingCountUpdate(cells: seq<Cell>, p: nat, c: Cell)
    requires p < |cells|
    ensures PendingCount(cells[p := c]) ==
      PendingCount(cells) - (if cells[p].state == Pending then 1 else 0) + (if c.state == Pending then 1 else 0)
  {
    if p > 0 {
      assert cells[p := c][1..] == cells[1..][p - 1 := c];
      PendingCountUpdate(cells[1..], p - 1, c);
    }
  }

  /** A cell that is pending after is pending before: then there are no more pending cells after. */
  lemma {:induction false} PendingCountMonotone(a: seq<Cell>, b: seq<Cell>)
    requires |a| == |b|
    requires forall q :: 0 <= q < |a| && b[q].state == Pending ==> a[q].state == Pending
    ensures PendingCount(b) <= PendingCount(a)
  {
    if a != [] {
      PendingCountMonotone(a[1..], b[1..]);
    }
  }

  /** A cascade only settles pending promises: every other cell is left exactly as it was. */
  ghost predicate Frame(h: Heap, r: Heap) {
    && |r.cells| == |h.cells|
    && forall q :: 0 <= q < |h.cells| ==> r.cells[q] == h.cells[q] || (h.cells[q].state == Pending && r.cells[q].state != Pending)
  }

  /** The log only grows. */
  ghost predicate Extends(h: Heap, r: Heap) {
    |h.log| <= |r.log| && r.log[..|h.log|] == h.log
  }

  /** New promises may be added and pending ones may change; settled ones stay as they are. */
  ghost predicate Grows(h: Heap, r: Heap) {
    && |h.cells| <= |r.cells|
    && forall q :: 0 <= q < |h.cells| && h.cells[q].state != Pending ==> r.cells[q] == h.cells[q]
  }

  lemma FrameTransitive(a: Heap, b: Heap, c: Heap)
    requires Frame(a, b) && Frame(b, c)
    ensures Frame(a, c)
  {
  }

  lemma ExtendsTransitive(a: Heap, b: Heap, c: Heap)
    requires Extends(a, b) && Extends(b, c)
    ensures Extends(a, c)
  {
    assert c.log[..|a.log|] == c.log[..|b.log|][..|a.log|];
  }

  lemma FramePendingCount(h: Heap, r: Heap)
    requires Frame(h, r)
    ensures PendingCount(r.cells) <= PendingCount(h.cells)
  {
    PendingCountMonotone(h.cells, r.cells);
  }

  function HookEvents(p: nat, hooks: seq<nat>): (r: seq<Event>)
    ensures |r| == |hooks| && forall k :: 0 <= k < |hooks| ==> r[k] == Hook(p, hooks[k])
  {
    if hooks == [] then [] else [Hook(p, hooks[0])] + HookEvents(p, hooks[1..])
  }

  // ---------------------------------------------------------------------------
  // The settlement cascade.

  /**
   * The constructor's `resolve` (`st == Fulfilled`) or `reject` of promise `p`: a
   * settled promise ignores it; otherwise the value is stored as it is, the matching
   * handler list runs in order with that value, the finally callbacks run, and the
   * three lists are emptied.
   */
  function Settle(h: Heap, p: nat, st: State, v: Value, behave: Behaviour): (r: Heap)
    requires st != Pending
    ensures Frame(h, r) && Extends(h, r)
    ensures PendingCount(r.cells) <= PendingCount(h.cells)
    decreases PendingCount(h.cells), 0, 0
  {
    if p >= |h.cells| || h.cells[p].state != Pending then h
    else
      var c := h.cells[p];
      var h1 := h.(cells := h.cells[p := c.(state := st, value := v)], log := h.log + [Settled(p, st, v)]);
      PendingCountUpdate(h.cells, p, c.(state := st, value := v));
      var hs := if st == Fulfilled then c.resolveHandlers else c.rejectHandlers;
      var h2 := Drain(h1, p, hs, 0, v, behave);
      var h3 := h2.(log := h2.log + HookEvents(p, c.finallyHandlers));
      var h4 := h3.(cells := h3.cells[p := h3.cells[p].(resolveHandlers := [], rejectHandlers := [], finallyHandlers := [])]);
      ExtendsTransitive(h, h1, h2);
      ExtendsTransitive(h, h2, h3);
      FramePendingCount(h, h4);
      h4
  }

  /** `forEach` over a captured handler list, from position `i`. */
  function Drain(h: Heap, p: nat, hs: seq<Handler>, i: nat, v: Value, behave: Behaviour): (r: Heap)
    ensures Frame(h, r) && Extends(h, r)
    ensures PendingCount(r.cells) <= PendingCount(h.cells)
    decreases PendingCount(h.cells), 3, |hs| - i
  {
    if i >= |hs| then h
    else
      var h1 := h.(log := h.log + [Fired(p, hs[i], v)]);
      var h2 := Run(h1, hs[i], v, behave);
      var r := Drain(h2, p, hs, i + 1, v, behave);
      ExtendsTransitive(h, h1, h2);
      ExtendsTransitive(h, h2, r);
      FrameTransitive(h1, h2, r);
      r
  }

  /** One handler of a list runs with the promise's value. */
  function Run(h: Heap, hd: Handler, v: Value, behave: Behaviour): (r: Heap)
    ensures Frame(h, r) && Extends(h, r)
    ensures PendingCount(r.cells) <= PendingCount(h.cells)
    decreases PendingCount(h.cells), 2, 0
  {
    match hd
    case Wrapped(cb, d) => Call(h, cb, v, d, behave)
    case Settler(d, fulfil) => Settle(h, d, if fulfil then Fulfilled else Rejected, v, behave)
  }

  /**
   * `call(fn, [v], reject, resolve)` for the derived promise `d`: the callback's
   * throw rejects `d`, a returned thenable takes `d` over, any other returned value
   * fulfils `d`.
   */
  function Call(h: Heap, cb: Callback, v: Value, d: nat, behave: Behaviour): (r: Heap)
    ensures Frame(h, r) && Extends(h, r)
    ensures PendingCount(r.cells) <= PendingCount(h.cells)
    decreases PendingCount(h.cells), 1, 0
  {
    match cb
    case User(j) =>
      var h1 := h.(log := h.log + [Invoked(j, v)]);
      var r := match behave(j, v)
        case Throw(e) => Settle(h1, d, Rejected, e, behave)
        case Return(x) => if IsPromise(x) then h1.(log := h1.log + [Adopted(d, x)]) else Settle(h1, d, Fulfilled, x, behave);
      ExtendsTransitive(h, h1, r);
      r
    case ResolveFn(k) =>
      var h1 := Settle(h, k, Fulfilled, v, behave);
      var r := Settle(h1, d, Fulfilled, Undefined, behave);
      ExtendsTransitive(h, h1, r);
      FrameTransitive(h, h1, r);
      r
    case RejectFn(k) =>
      var h1 := Settle(h, k, Rejected, v, behave);
      var r := Settle(h1, d, Fulfilled, Undefined, behave);
      ExtendsTransitive(h, h1, r);
      FrameTransitive(h, h1, r);
      r
    case AllSlot(a, i) =>
      var h1 := Slot(h, a, i, v, behave);
      var r := Settle(h1, d, Fulfilled, Undefined, behave);
      ExtendsTransitive(h, h1, r);
      FrameTransitive(h, h1, r);
      r
  }

  /**
   * The slot callback of `all` for input `i`: store the value at position `i`, count
   * it, and fulfil the combined promise `a` with the array once every input has
   * been counted.
   */
  function Slot(h: Heap, a: nat, i: nat, v: Value, behave: Behaviour): (r: Heap)
    ensures Frame(h, r) && Extends(h, r)
    ensures PendingCount(r.cells) <= PendingCount(h.cells)
    decreases PendingCount(h.cells), 0, 1
  {
    if a !in h.alls then h
    else
      var rec := h.alls[a];
      var resolved := if i < |rec.resolved| then rec.resolved[i := v] else rec.resolved;
      var h1 := h.(alls := h.alls[a := AllRec(rec.n, rec.counter + 1, resolved)]);
      if rec.counter + 1 == rec.n then Settle(h1, a, Fulfilled, Items(resolved), behave) else h1
  }

  /** A pending promise with no handlers settles in one step: its cell and one log entry. */
  lemma SettleLone(h: Heap, p: nat, st: State, v: Value, behave: Behaviour)
    requires st != Pending && p < |h.cells| && h.cells[p] == Fresh.(value := h.cells[p].value)
    ensures Settle(h, p, st, v, behave) ==
      h.(cells := h.cells[p := Cell(st, v, [], [], [])], log := h.log + [Settled(p, st, v)])
  {
  }

  // ---------------------------------------------------------------------------
  // Creating promises.

  /** What a user executor does synchronously: call its `resolve` or `reject` argument. */
  datatype ExecStep = CallResolve(v: Value) | CallReject(e: Value)

  /** How a user executor ends: it returns, or it throws. */
  datatype ExecEnd = Finishes | Throws(e: Value)

  function Execute(h: Heap, p: nat, steps: seq<ExecStep>, behave: Behaviour): (r: Heap)
    ensures Frame(h, r) && Extends(h, r)
    decreases |steps|
  {
    if steps == [] then h
    else
      var h1 := match steps[0]
        case CallResolve(v) => Settle(h, p, Fulfilled, v, behave)
        case CallReject(e) => Settle(h, p, Rejected, e, behave);
      var r := Execute(h1, p, steps[1..], behave);
      ExtendsTransitive(h, h1, r);
      FrameTransitive(h, h1, r);
      r
  }

  /** `new SyncPromise(executor)`: a fresh pending promise; the executor runs through `call`, so its throw rejects. */
  function Construct(h: Heap, steps: seq<ExecStep>, ending: ExecEnd, behave: Behaviour): (r: (Heap, nat))
    ensures r.1 == |h.cells| && |r.0.cells| == |h.cells| + 1 && Extends(h, r.0)
  {
    var p := |h.cells|;
    var h1 := h.(cells := h.cells + [Fresh]);
    var h2 := Execute(h1, p, steps, behave);
    var h3 := match ending
      case Finishes => h2
      case Throws(e) => Settle(h2, p, Rejected, e, behave);
    ExtendsTransitive(h1, h2, h3);
    (h3, p)
  }

  /**
   * `p.then(onFulfill, onReject)`: a fresh derived promise `d` whose wrappers call the
   * given callback, or `d`'s own resolve (reject) when it is missing. On a pending `p`
   * the wrappers are appended to its lists; otherwise the matching one runs at once.
   */
  function Then(h: Heap, p: nat, onFulfill: Option<Callback>, onReject: Option<Callback>, behave: Behaviour): (r: (Heap, nat))
    requires p < |h.cells|
    ensures r.1 == |h.cells| && |r.0.cells| == |h.cells| + 1 && Extends(h, r.0) && Grows(h, r.0)
  {
    var d := |h.cells|;
    var h1 := h.(cells := h.cells + [Fresh]);
    var wF := Wrapped(onFulfill.GetOr(ResolveFn(d)), d);
    var wR := Wrapped(onReject.GetOr(RejectFn(d)), d);
    var c := h.cells[p];
    if c.state == Pending then
      (h1.(cells := h1.cells[p := c.(resolveHandlers := c.resolveHandlers + [wF], rejectHandlers := c.rejectHandlers + [wR])]), d)
    else
      var w := if c.state == Fulfilled then wF else wR;
      var h2 := h1.(log := h1.log + [Fired(p, w, c.value)]);
      var r := Run(h2, w, c.value, behave);
      ExtendsTransitive(h1, h2, r);
      (r, d)
  }

  /** `p.catch(onReject)`: only a reject wrapper; a fulfilled `p` leaves the derived promise alone. */
  function Catch(h: Heap, p: nat, onReject: Option<Callback>, behave: Behaviour): (r: (Heap, nat))
    requires p < |h.cells|
    ensures r.1 == |h.cells| && |r.0.cells| == |h.cells| + 1 && Extends(h, r.0)
  {
    var d := |h.cells|;
    var h1 := h.(cells := h.cells + [Fresh]);
    var wR := Wrapped(onReject.GetOr(RejectFn(d)), d);
    var c := h.cells[p];
    if c.state == Pending then
      (h1.(cells := h1.cells[p := c.(rejectHandlers := c.rejectHandlers + [wR])]), d)
    else if c.state == Rejected then
      var h2 := h1.(log := h1.log + [Fired(p, wR, c.value)]);
      var r := Run(h2, wR, c.value, behave);
      ExtendsTransitive(h1, h2, r);
      (r, d)
    else
      (h1, d)
  }

  /**
   * `p.finally(cb)`: on a pending `p` the callback joins the finally list and the raw
   * resolve and reject of the derived promise join the other two lists; on a settled
   * `p` the derived promise takes `p`'s state and value, then the callback runs.
   */
  function Finally(h: Heap, p: nat, cb: Option<nat>, behave: Behaviour): (r: (Heap, nat))
    requires p < |h.cells|
    ensures r.1 == |h.cells| && |r.0.cells| == |h.cells| + 1 && Extends(h, r.0)
  {
    var d := |h.cells|;
    var h1 := h.(cells := h.cells + [Fresh]);
    var c := h.cells[p];
    if c.state == Pending then
      var hooks := if cb.Some? then c.finallyHandlers + [cb.value] else c.finallyHandlers;
      (h1.(cells := h1.cells[p := c.(resolveHandlers := c.resolveHandlers + [Settler(d, true)],
                                     rejectHandlers := c.rejectHandlers + [Settler(d, false)],
                                     finallyHandlers := hooks)]), d)
    else
      var h2 := Settle(h1, d, c.state, c.value, behave);
      var h3 := if cb.Some? then h2.(log := h2.log + [Hook(p, cb.value)]) else h2;
      ExtendsTransitive(h1, h2, h3);
      (h3, d)
  }

  /**
   * Static `resolve(value)`: a `SyncPromise` is returned as it is; otherwise a fresh
   * promise that is handed over to a thenable, or fulfilled with the plain value.
   */
  function StaticResolve(h: Heap, v: Value, behave: Behaviour): (r: (Heap, nat))
    ensures v.Promise? ==> r == (h, v.id)
    ensures !v.Promise? ==> r.1 == |h.cells| && r.0.cells == h.cells + [if IsPromise(v) then Fresh else Cell(Fulfilled, v, [], [], [])]
    ensures v.Thenable? ==> r.0.log == h.log + [Adopted(r.1, v)]
    ensures !IsPromise(v) ==> r.0.log == h.log + [Settled(r.1, Fulfilled, v)]
    ensures r.0.alls == h.alls
  {
    if v.Promise? then (h, v.id)
    else
      var p := |h.cells|;
      var h1 := h.(cells := h.cells + [Fresh]);
      if IsPromise(v) then (h1.(log := h1.log + [Adopted(p, v)]), p)
      else
        SettleLone(h1, p, Fulfilled, v, behave);
        (Settle(h1, p, Fulfilled, v, behave), p)
  }

  /** Static `reject(reason)`: a fresh promise rejected with the reason. */
  function StaticReject(h: Heap, e: Value, behave: Behaviour): (r: (Heap, nat))
    ensures r.1 == |h.cells| && r.0.cells == h.cells + [Cell(Rejected, e, [], [], [])]
    ensures r.0.log == h.log + [Settled(r.1, Rejected, e)] && r.0.alls == h.alls
  {
    var p := |h.cells|;
    var h1 := h.(cells := h.cells + [Fresh]);
    SettleLone(h1, p, Rejected, e, behave);
    (Settle(h1, p, Rejected, e, behave), p)
  }

  /** The values whose `SyncPromise` instances exist in the heap. */
  ghost predicate KnownValues(h: Heap, values: seq<Value>) {
    forall k :: 0 <= k < |values| && values[k].Promise? ==> values[k].id < |h.cells|
  }

  /** `promises.push(SyncPromise.resolve(el))` for every input, in order. */
  function ResolveEach(h: Heap, values: seq<Value>, behave: Behaviour): (r: (Heap, seq<nat>))
    requires KnownValues(h, values)
    ensures |r.1| == |values| && |h.cells| <= |r.0.cells| && Extends(h, r.0)
    ensures forall k :: 0 <= k < |r.1| ==> r.1[k] < |r.0.cells|
    ensures r.0.cells[..|h.cells|] == h.cells && r.0.alls == h.alls
    decreases |values|
  {
    if values == [] then (h, [])
    else
      var (h1, p) := StaticResolve(h, values[0], behave);
      var (h2, ps) := ResolveEach(h1, values[1..], behave);
      ExtendsTransitive(h, h1, h2);
      (h2, [p] + ps)
  }

  /** The `for` loop of `all` (slot callbacks) or of `race` (the combined promise's own resolve), from input `i`. */
  function AttachEach(h: Heap, ps: seq<nat>, i: nat, target: nat, slots: bool, behave: Behaviour): (r: Heap)
    requires forall k :: 0 <= k < |ps| ==> ps[k] < |h.cells|
    ensures |h.cells| <= |r.cells| && Extends(h, r) && Grows(h, r)
    decreases |ps| - i
  {
    if i >= |ps| then h
    else
      var onFulfill := if slots then AllSlot(target, i) else ResolveFn(target);
      var (h1, _) := Then(h, ps[i], Some(onFulfill), Some(RejectFn(target)), behave);
      var r := AttachEach(h1, ps, i + 1, target, slots, behave);
      ExtendsTransitive(h, h1, r);
      r
  }

  /** Static `all(values)`. */
  function All(h: Heap, values: seq<Value>, behave: Behaviour): (r: (Heap, nat))
    requires KnownValues(h, values)
    ensures r.1 == |h.cells| && |h.cells| < |r.0.cells| && Extends(h, r.0)
  {
    var a := |h.cells|;
    var h1 := h.(cells := h.cells + [Fresh]);
    var (h2, ps) := ResolveEach(h1, values, behave);
    if ps == [] then
      var r := Settle(h2, a, Fulfilled, Items([]), behave);
      ExtendsTransitive(h1, h2, r);
      (r, a)
    else
      var h3 := h2.(alls := h2.alls[a := AllRec(|ps|, 0, seq(|ps|, _ => Undefined))]);
      var r := AttachEach(h3, ps, 0, a, true, behave);
      ExtendsTransitive(h1, h2, r);
      (r, a)
  }

  /** Static `race(values)`. */
  function Race(h: Heap, values: seq<Value>, behave: Behaviour): (r: (Heap, nat))
    requires KnownValues(h, values)
    ensures r.1 == |h.cells| && |h.cells| < |r.0.cells| && Extends(h, r.0)
  {
    var a := |h.cells|;
    var h1 := h.(cells := h.cells + [Fresh]);
    var (h2, ps) := ResolveEach(h1, values, behave);
    if ps == [] then
      var r := Settle(h2, a, Fulfilled, Undefined, behave);
      ExtendsTransitive(h1, h2, r);
      (r, a)
    else
      var r := AttachEach(h2, ps, 0, a, false, behave);
      ExtendsTransitive(h1, h2, r);
      (r, a)
  }
}
