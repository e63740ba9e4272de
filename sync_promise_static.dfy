/**
 * Properties of the static `SyncPromise` combinators `all` and `race`.
 */
module SyncPromiseStatic {
  import opened Wrappers
  import opened SyncPromiseState
  import opened SyncPromiseProps
  import opened SyncPromiseOps

  /** An input that is settled already: a plain value, or a `SyncPromise` that is not pending. */
  ghost predicate Ready(h: Heap, v: Value) {
    !IsPromise(v) || (v.Promise? && v.id < |h.cells| && h.cells[v.id].state != Pending)
  }

  /** The state and value the promise for an input has: a `SyncPromise`'s own, or fulfilled with a plain value. */
  function Outcome(h: Heap, v: Value): (State, Value)
    requires v.Promise? ==> v.id < |h.cells|
  {
    if v.Promise? then (h.cells[v.id].state, h.cells[v.id].value) else (Fulfilled, v)
  }

  /** `all([])` is fulfilled at once with an empty array. */
  lemma AllEmpty(h: Heap, behave: Behaviour)
    ensures All(h, [], behave).0.cells == h.cells + [Cell(Fulfilled, Items([]), [], [], [])]
  {
    SettleLone(h.(cells := h.cells + [Fresh]), |h.cells|, Fulfilled, Items([]), behave);
  }

  /** `race([])` is fulfilled at once with `undefined`. */
  lemma RaceEmpty(h: Heap, behave: Behaviour)
    ensures Race(h, [], behave).0.cells == h.cells + [Cell(Fulfilled, Undefined, [], [], [])]
  {
    SettleLone(h.(cells := h.cells + [Fresh]), |h.cells|, Fulfilled, Undefined, behave);
  }

  /** `SyncPromise.resolve` over the inputs gives, for every ready input, a settled promise with that input's outcome. */
  lemma {:induction false} ResolveEachReady(h: Heap, values: seq<Value>, behave: Behaviour)
    requires KnownValues(h, values)
    ensures var (r, ps) := ResolveEach(h, values, behave);
      forall k :: 0 <= k < |values| && Ready(h, values[k]) ==>
        && r.cells[ps[k]].state != Pending
        && r.cells[ps[k]].state == Outcome(h, values[k]).0
        && r.cells[ps[k]].value == Outcome(h, values[k]).1
    decreases |values|
  {
    if values != [] {
      var (h1, p) := StaticResolve(h, values[0], behave);
      var (h2, ps) := ResolveEach(h1, values[1..], behave);
      assert h1.cells[..|h.cells|] == h.cells;
      ResolveEachReady(h1, values[1..], behave);
      var (r, qs) := ResolveEach(h, values, behave);
      assert r == h2 && qs == [p] + ps;
      forall k | 0 <= k < |values| && Ready(h, values[k])
        ensures r.cells[qs[k]].state != Pending
        ensures r.cells[qs[k]].state == Outcome(h, values[k]).0
        ensures r.cells[qs[k]].value == Outcome(h, values[k]).1
      {
        if k == 0 {
          assert r.cells[..|h1.cells|] == h1.cells;
          assert r.cells[p] == h1.cells[p];
        } else {
          assert values[1..][k - 1] == values[k];
          assert qs[k] == ps[k - 1];
          assert values[k].Promise? ==> h1.cells[values[k].id] == h.cells[values[k].id];
        }
      }
    }
  }

  /** `p.then(resolve, reject)` of a pending promise `a` without handlers, on a settled `p`: `a` takes `p`'s state and value. */
  lemma ThenForwards(h: Heap, p: nat, a: nat, behave: Behaviour)
    requires p < |h.cells| && h.cells[p].state != Pending
    requires a < |h.cells| && h.cells[a] == Fresh
    ensures Then(h, p, Some(ResolveFn(a)), Some(RejectFn(a)), behave).0.cells[a] ==
      Cell(h.cells[p].state, h.cells[p].value, [], [], [])
  {
    var c := h.cells[p];
    ThenRunsWrapper(h, p, Some(ResolveFn(a)), Some(RejectFn(a)), behave);
    var d := |h.cells|;
    var cb := if c.state == Fulfilled then ResolveFn(a) else RejectFn(a);
    var h3 := h.(cells := h.cells + [Fresh], log := h.log + [Fired(p, Wrapped(cb, d), c.value)]);
    var st := if c.state == Fulfilled then Fulfilled else Rejected;
    assert Call(h3, cb, c.value, d, behave) == Settle(Settle(h3, a, st, c.value, behave), d, Fulfilled, Undefined, behave);
    var g := Settle(h3, a, st, c.value, behave);
    SettleLone(h3, a, st, c.value, behave);
    SettledStays(g, Settle(g, d, Fulfilled, Undefined, behave), a);
  }

  /** `race` over a non-empty input whose first element is ready settles like that first element. */
  lemma RaceFirstReady(h: Heap, values: seq<Value>, behave: Behaviour)
    requires KnownValues(h, values) && values != [] && Ready(h, values[0])
    ensures var (r, a) := Race(h, values, behave);
      r.cells[a] == Cell(Outcome(h, values[0]).0, Outcome(h, values[0]).1, [], [], [])
  {
    var a := |h.cells|;
    var h1 := h.(cells := h.cells + [Fresh]);
    var (h2, ps) := ResolveEach(h1, values, behave);
    assert h1.cells[..|h.cells|] == h.cells;
    assert values[0].Promise? ==> h1.cells[values[0].id] == h.cells[values[0].id];
    ResolveEachReady(h1, values, behave);
    assert h2.cells[a] == h1.cells[a];
    ThenForwards(h2, ps[0], a, behave);
    var (h4, _) := Then(h2, ps[0], Some(ResolveFn(a)), Some(RejectFn(a)), behave);
    assert AttachEach(h2, ps, 0, a, false, behave) == AttachEach(h4, ps, 1, a, false, behave);
  }

  // ---------------------------------------------------------------------------
  // `all` over ready inputs.

  /** The outcome of every input. */
  function Outcomes(h: Heap, values: seq<Value>): (r: seq<(State, Value)>)
    requires KnownValues(h, values)
    ensures |r| == |values| && forall k :: 0 <= k < |values| ==> r[k] == Outcome(h, values[k])
    decreases |values|
  {
    if values == [] then [] else [Outcome(h, values[0])] + Outcomes(h, values[1..])
  }

  /** How many of the first `i` outcomes are fulfilled: the counter of `all`. */
  function FulfilledCount(outs: seq<(State, Value)>, i: nat): (r: nat)
    requires i <= |outs|
    ensures r <= i
  {
    if i == 0 then 0 else FulfilledCount(outs, i - 1) + (if outs[i - 1].0 == Fulfilled then 1 else 0)
  }

  /** The value of the first rejected outcome among the first `i`, if any. */
  function FirstRejection(outs: seq<(State, Value)>, i: nat): Option<Value>
    requires i <= |outs|
  {
    if i == 0 then None
    else if FirstRejection(outs, i - 1).Some? then FirstRejection(outs, i - 1)
    else if outs[i - 1].0 == Rejected then Some(outs[i - 1].1)
    else None
  }

  /** The `resolved` array after the first `i` outcomes: fulfilled positions hold their values. */
  function Filled(outs: seq<(State, Value)>, i: nat): (r: seq<Value>)
    requires i <= |outs|
    ensures |r| == |outs|
  {
    if i == 0 then seq(|outs|, _ => Undefined)
    else if outs[i - 1].0 == Fulfilled then Filled(outs, i - 1)[i - 1 := outs[i - 1].1]
    else Filled(outs, i - 1)
  }

  /** The combined promise of `all` after the first `i` outcomes have been delivered. */
  function Combined(outs: seq<(State, Value)>, i: nat): Cell
    requires i <= |outs|
  {
    match FirstRejection(outs, i)
    case Some(e) => Cell(Rejected, e, [], [], [])
    case None =>
      if FulfilledCount(outs, i) == |outs| then Cell(Fulfilled, Items(Filled(outs, i)), [], [], []) else Fresh
  }

  lemma {:induction false} AllFulfilledPrefix(outs: seq<(State, Value)>, i: nat)
    requires i <= |outs| && forall k :: 0 <= k < |outs| ==> outs[k].0 == Fulfilled
    ensures FulfilledCount(outs, i) == i && FirstRejection(outs, i).None?
    ensures forall k :: 0 <= k < |outs| ==> Filled(outs, i)[k] == if k < i then outs[k].1 else Undefined
  {
    if i > 0 {
      AllFulfilledPrefix(outs, i - 1);
    }
  }

  /** When every input fulfils, `all` fulfils with the array of their values, each in its input position. */
  lemma AllFulfilledMeaning(outs: seq<(State, Value)>)
    requires forall k :: 0 <= k < |outs| ==> outs[k].0 == Fulfilled
    ensures Combined(outs, |outs|).state == Fulfilled
    ensures Combined(outs, |outs|).value == Items(Filled(outs, |outs|))
    ensures forall k :: 0 <= k < |outs| ==> Filled(outs, |outs|)[k] == outs[k].1
  {
    AllFulfilledPrefix(outs, |outs|);
  }

  lemma {:induction false} FirstRejectionPrefix(outs: seq<(State, Value)>, k0: nat, i: nat)
    requires k0 < |outs| && outs[k0].0 == Rejected && forall k :: 0 <= k < k0 ==> outs[k].0 != Rejected
    requires i <= |outs|
    ensures FirstRejection(outs, i) == if i <= k0 then None else Some(outs[k0].1)
  {
    if i > 0 {
      FirstRejectionPrefix(outs, k0, i - 1);
    }
  }

  /** When some input rejects, `all` rejects with the reason of the first rejected input. */
  lemma FirstRejectionMeaning(outs: seq<(State, Value)>, k0: nat)
    requires k0 < |outs| && outs[k0].0 == Rejected && forall k :: 0 <= k < k0 ==> outs[k].0 != Rejected
    ensures Combined(outs, |outs|) == Cell(Rejected, outs[k0].1, [], [], [])
  {
    FirstRejectionPrefix(outs, k0, |outs|);
  }

  /** The invariant of the `for` loop of `all` over settled inputs, before input `i`. */
  ghost predicate AllLoop(g: Heap, ps: seq<nat>, i: nat, a: nat, outs: seq<(State, Value)>) {
    && |outs| == |ps| && 0 < |ps| && i <= |ps| && a < |g.cells|
    && (forall k :: 0 <= k < |ps| ==>
          && ps[k] < |g.cells| && ps[k] != a && g.cells[ps[k]].state != Pending
          && g.cells[ps[k]].state == outs[k].0 && g.cells[ps[k]].value == outs[k].1)
    && g.cells[a] == Combined(outs, i)
    && a in g.alls && g.alls[a] == AllRec(|ps|, FulfilledCount(outs, i), Filled(outs, i))
  }

  /** Settling a fresh derived promise touches nothing else. */
  lemma SettleDerived(g: Heap, d: nat, behave: Behaviour)
    requires d < |g.cells| && g.cells[d] == Fresh
    ensures Settle(g, d, Fulfilled, Undefined, behave).alls == g.alls
    ensures forall q :: 0 <= q < |g.cells| && q != d ==> Settle(g, d, Fulfilled, Undefined, behave).cells[q] == g.cells[q]
    ensures |Settle(g, d, Fulfilled, Undefined, behave).cells| == |g.cells|
  {
    SettleLone(g, d, Fulfilled, Undefined, behave);
  }

  lemma AllStepFulfilled(g: Heap, ps: seq<nat>, i: nat, a: nat, outs: seq<(State, Value)>, behave: Behaviour)
    requires AllLoop(g, ps, i, a, outs) && i < |ps| && outs[i].0 == Fulfilled
    ensures AllLoop(Then(g, ps[i], Some(AllSlot(a, i)), Some(RejectFn(a)), behave).0, ps, i + 1, a, outs)
  {
    var v := outs[i].1;
    var d := |g.cells|;
    var cb := AllSlot(a, i);
    ThenRunsWrapper(g, ps[i], Some(cb), Some(RejectFn(a)), behave);
    var h3 := g.(cells := g.cells + [Fresh], log := g.log + [Fired(ps[i], Wrapped(cb, d), v)]);
    var s := Slot(h3, a, i, v, behave);
    assert Call(h3, cb, v, d, behave) == Settle(s, d, Fulfilled, Undefined, behave);
    SlotFulfilledStep(h3, a, i, outs, behave);
    assert s.cells[d] == Fresh;
    SettleDerived(s, d, behave);
  }

  /** The slot of a fulfilled input advances the combined promise and its record from `i` outcomes to `i + 1`. */
  lemma SlotFulfilledStep(h: Heap, a: nat, i: nat, outs: seq<(State, Value)>, behave: Behaviour)
    requires i < |outs| && outs[i].0 == Fulfilled && a < |h.cells| && a in h.alls
    requires h.alls[a] == AllRec(|outs|, FulfilledCount(outs, i), Filled(outs, i))
    requires h.cells[a] == Combined(outs, i)
    ensures Slot(h, a, i, outs[i].1, behave).cells == h.cells[a := Combined(outs, i + 1)]
    ensures Slot(h, a, i, outs[i].1, behave).alls == h.alls[a := AllRec(|outs|, FulfilledCount(outs, i + 1), Filled(outs, i + 1))]
  {
    FulfilledOutcomeStep(outs, i);
    if FulfilledCount(outs, i) + 1 == |outs| {
      LastSlotFulfilled(h, a, i, outs, behave);
    } else {
      SlotWaits(h, a, i, outs[i].1, behave);
      assert h.cells[a := Combined(outs, i + 1)] == h.cells;
    }
  }

  lemma LastSlotFulfilled(h: Heap, a: nat, i: nat, outs: seq<(State, Value)>, behave: Behaviour)
    requires i < |outs| && outs[i].0 == Fulfilled && a < |h.cells| && a in h.alls
    requires h.alls[a] == AllRec(|outs|, FulfilledCount(outs, i), Filled(outs, i))
    requires FulfilledCount(outs, i) + 1 == |outs| && h.cells[a] == Fresh
    requires Filled(outs, i + 1) == Filled(outs, i)[i := outs[i].1]
    ensures Slot(h, a, i, outs[i].1, behave).cells == h.cells[a := Cell(Fulfilled, Items(Filled(outs, i + 1)), [], [], [])]
    ensures Slot(h, a, i, outs[i].1, behave).alls == h.alls[a := AllRec(|outs|, |outs|, Filled(outs, i + 1))]
  {
    SlotCompletes(h, a, i, outs[i].1, behave);
  }

  /** The last missing slot fulfils a fresh combined promise with the filled array. */
  lemma SlotCompletes(h: Heap, a: nat, i: nat, v: Value, behave: Behaviour)
    requires a in h.alls && a < |h.cells| && h.cells[a] == Fresh
    requires h.alls[a].counter + 1 == h.alls[a].n && i < |h.alls[a].resolved|
    ensures var rec := h.alls[a]; var r := Slot(h, a, i, v, behave);
      && r.cells == h.cells[a := Cell(Fulfilled, Items(rec.resolved[i := v]), [], [], [])]
      && r.alls == h.alls[a := AllRec(rec.n, rec.counter + 1, rec.resolved[i := v])]
  {
    var rec := h.alls[a];
    var h1 := h.(alls := h.alls[a := AllRec(rec.n, rec.counter + 1, rec.resolved[i := v])]);
    assert Slot(h, a, i, v, behave) == Settle(h1, a, Fulfilled, Items(rec.resolved[i := v]), behave);
    SettleLone(h1, a, Fulfilled, Items(rec.resolved[i := v]), behave);
  }

  /** A slot that is not the last one only records the value and counts it. */
  lemma SlotWaits(h: Heap, a: nat, i: nat, v: Value, behave: Behaviour)
    requires a in h.alls && h.alls[a].counter + 1 != h.alls[a].n && i < |h.alls[a].resolved|
    ensures var rec := h.alls[a];
      Slot(h, a, i, v, behave) == h.(alls := h.alls[a := AllRec(rec.n, rec.counter + 1, rec.resolved[i := v])])
  {
  }

  /** A fulfilled outcome counts once, keeps the first rejection, fills its position, and completes `all` when it is the last one missing. */
  lemma FulfilledOutcomeStep(outs: seq<(State, Value)>, i: nat)
    requires i < |outs| && outs[i].0 == Fulfilled
    ensures FulfilledCount(outs, i + 1) == FulfilledCount(outs, i) + 1
    ensures Filled(outs, i + 1) == Filled(outs, i)[i := outs[i].1]
    ensures FulfilledCount(outs, i) + 1 == |outs| ==>
      Combined(outs, i) == Fresh && Combined(outs, i + 1) == Cell(Fulfilled, Items(Filled(outs, i + 1)), [], [], [])
    ensures FulfilledCount(outs, i) + 1 != |outs| ==> Combined(outs, i + 1) == Combined(outs, i)
  {
    if FulfilledCount(outs, i) + 1 == |outs| && FirstRejection(outs, i).Some? {
      FulfilledCountRejected(outs, i);
    }
  }

  /** A rejected outcome among the first `i` keeps the counter below `i`. */
  lemma {:induction false} FulfilledCountRejected(outs: seq<(State, Value)>, i: nat)
    requires i <= |outs| && FirstRejection(outs, i).Some?
    ensures FulfilledCount(outs, i) < i
  {
    if FirstRejection(outs, i - 1).Some? {
      FulfilledCountRejected(outs, i - 1);
    }
  }

  lemma AllStepRejected(g: Heap, ps: seq<nat>, i: nat, a: nat, outs: seq<(State, Value)>, behave: Behaviour)
    requires AllLoop(g, ps, i, a, outs) && i < |ps| && outs[i].0 == Rejected
    ensures AllLoop(Then(g, ps[i], Some(AllSlot(a, i)), Some(RejectFn(a)), behave).0, ps, i + 1, a, outs)
  {
    var v := outs[i].1;
    var d := |g.cells|;
    var cb := RejectFn(a);
    ThenRunsWrapper(g, ps[i], Some(AllSlot(a, i)), Some(cb), behave);
    var h3 := g.(cells := g.cells + [Fresh], log := g.log + [Fired(ps[i], Wrapped(cb, d), v)]);
    var s := Settle(h3, a, Rejected, v, behave);
    assert Call(h3, cb, v, d, behave) == Settle(s, d, Fulfilled, Undefined, behave);
    if g.cells[a].state == Pending {
      assert FirstRejection(outs, i).None?;
      SettleLone(h3, a, Rejected, v, behave);
    } else {
      assert FirstRejection(outs, i).Some?;
    }
    assert s.cells[d] == Fresh;
    SettleDerived(s, d, behave);
  }

  lemma {:induction false} AllLoopEnd(g: Heap, ps: seq<nat>, i: nat, a: nat, outs: seq<(State, Value)>, behave: Behaviour)
    requires AllLoop(g, ps, i, a, outs)
    ensures AttachEach(g, ps, i, a, true, behave).cells[a] == Combined(outs, |ps|)
    decreases |ps| - i
  {
    if i < |ps| {
      if outs[i].0 == Fulfilled {
        AllStepFulfilled(g, ps, i, a, outs, behave);
      } else {
        AllStepRejected(g, ps, i, a, outs, behave);
      }
      var (g1, _) := Then(g, ps[i], Some(AllSlot(a, i)), Some(RejectFn(a)), behave);
      AllLoopEnd(g1, ps, i + 1, a, outs, behave);
    }
  }

  /** Before the loop of `all`: the inputs are resolved to promises after the fresh combined promise. */
  lemma AllLoopStart(h: Heap, values: seq<Value>, behave: Behaviour)
    requires KnownValues(h, values) && values != []
    requires forall k :: 0 <= k < |values| ==> Ready(h, values[k])
    ensures var a := |h.cells|;
      var (h2, ps) := ResolveEach(h.(cells := h.cells + [Fresh]), values, behave);
      AllLoop(h2.(alls := h2.alls[a := AllRec(|ps|, 0, seq(|ps|, _ => Undefined))]), ps, 0, a, Outcomes(h, values))
  {
    var a := |h.cells|;
    var h1 := h.(cells := h.cells + [Fresh]);
    var (h2, ps) := ResolveEach(h1, values, behave);
    var outs := Outcomes(h, values);
    assert h1.cells[..|h.cells|] == h.cells;
    forall k | 0 <= k < |values|
      ensures Ready(h1, values[k]) && Outcome(h1, values[k]) == outs[k]
    {
      assert values[k].Promise? ==> h1.cells[values[k].id] == h.cells[values[k].id];
    }
    ResolveEachReady(h1, values, behave);
    assert h2.cells[a] == h1.cells[a];
    assert Filled(outs, 0) == seq(|ps|, _ => Undefined);
  }

  /**
   * `all` over inputs that are all settled already: the combined promise rejects with
   * the first rejection in input order, or else fulfils with the values in input
   * positions (see `FirstRejectionMeaning` and `AllFulfilledMeaning`).
   */
  lemma AllReady(h: Heap, values: seq<Value>, behave: Behaviour)
    requires KnownValues(h, values) && values != []
    requires forall k :: 0 <= k < |values| ==> Ready(h, values[k])
    ensures All(h, values, behave).0.cells[|h.cells|] == Combined(Outcomes(h, values), |values|)
  {
    var a := |h.cells|;
    var (h2, ps) := ResolveEach(h.(cells := h.cells + [Fresh]), values, behave);
    var h3 := h2.(alls := h2.alls[a := AllRec(|ps|, 0, seq(|ps|, _ => Undefined))]);
    AllLoopStart(h, values, behave);
    AllLoopEnd(h3, ps, 0, a, Outcomes(h, values), behave);
  }

  // ---------------------------------------------------------------------------
  // `all` and `race` keep the heap well formed.

  lemma {:induction false} ResolveEachWellFormed(h: Heap, values: seq<Value>, behave: Behaviour)
    requires WellFormed(h) && KnownValues(h, values)
    ensures WellFormed(ResolveEach(h, values, behave).0)
    decreases |values|
  {
    if values != [] {
      var (h1, p) := StaticResolve(h, values[0], behave);
      StaticResolveWellFormed(h, values[0], behave);
      ResolveEachWellFormed(h1, values[1..], behave);
    }
  }

  lemma {:induction false} AttachEachWellFormed(h: Heap, ps: seq<nat>, i: nat, target: nat, slots: bool, behave: Behaviour)
    requires WellFormed(h) && target < |h.cells|
    requires forall k :: 0 <= k < |ps| ==> ps[k] < |h.cells|
    ensures WellFormed(AttachEach(h, ps, i, target, slots, behave))
    decreases |ps| - i
  {
    if i < |ps| {
      var onFulfill := if slots then AllSlot(target, i) else ResolveFn(target);
      ThenWellFormed(h, ps[i], Some(onFulfill), Some(RejectFn(target)), behave);
      var (h1, _) := Then(h, ps[i], Some(onFulfill), Some(RejectFn(target)), behave);
      AttachEachWellFormed(h1, ps, i + 1, target, slots, behave);
    }
  }

  lemma AllWellFormed(h: Heap, values: seq<Value>, behave: Behaviour)
    requires WellFormed(h) && KnownValues(h, values)
    ensures WellFormed(All(h, values, behave).0)
  {
    var a := |h.cells|;
    var h1 := h.(cells := h.cells + [Fresh]);
    AddWellFormed(h, Fresh);
    var (h2, ps) := ResolveEach(h1, values, behave);
    ResolveEachWellFormed(h1, values, behave);
    if ps == [] {
      SettleWellFormed(h2, a, Fulfilled, Items([]), behave);
    } else {
      var h3 := h2.(alls := h2.alls[a := AllRec(|ps|, 0, seq(|ps|, _ => Undefined))]);
      AttachEachWellFormed(h3, ps, 0, a, true, behave);
    }
  }

  lemma RaceWellFormed(h: Heap, values: seq<Value>, behave: Behaviour)
    requires WellFormed(h) && KnownValues(h, values)
    ensures WellFormed(Race(h, values, behave).0)
  {
    var a := |h.cells|;
    var h1 := h.(cells := h.cells + [Fresh]);
    AddWellFormed(h, Fresh);
    var (h2, ps) := ResolveEach(h1, values, behave);
    ResolveEachWellFormed(h1, values, behave);
    if ps == [] {
      SettleWellFormed(h2, a, Fulfilled, Undefined, behave);
    } else {
      AttachEachWellFormed(h2, ps, 0, a, false, behave);
    }
  }

  // ---------------------------------------------------------------------------
  // Inputs that settle after `all` or `race` was called.

  /**
   * The slot callback of `all` on a pending combined promise: it writes position `i`
   * and counts it; the count that reaches the number of inputs fulfils the
   * combined promise with the array.
   */
  lemma SlotCounts(h: Heap, a: nat, i: nat, v: Value, behave: Behaviour)
    requires a in h.alls && i < |h.alls[a].resolved| && a < |h.cells| && h.cells[a].state == Pending
    ensures var rec := h.alls[a];
      var r := Slot(h, a, i, v, behave);
      && (rec.counter + 1 != rec.n ==> r.cells == h.cells && r.alls[a] == AllRec(rec.n, rec.counter + 1, rec.resolved[i := v]))
      && (rec.counter + 1 == rec.n ==> r.cells[a].state == Fulfilled && r.cells[a].value == Items(rec.resolved[i := v]))
  {
    var rec := h.alls[a];
    var h1 := h.(alls := h.alls[a := AllRec(rec.n, rec.counter + 1, rec.resolved[i := v])]);
    if rec.counter + 1 == rec.n {
      SettleOnce(h1, a, Fulfilled, Items(rec.resolved[i := v]), Fulfilled, Undefined, behave);
    }
  }

  /** A list holding the wrapper that resolves or rejects `a` leaves `a` settled once it has been drained. */
  lemma {:induction false} DrainReaches(h: Heap, p: nat, hs: seq<Handler>, i: nat, v: Value, behave: Behaviour, k: nat, a: nat)
    requires i <= k < |hs| && hs[k].Wrapped? && hs[k].cb in {ResolveFn(a), RejectFn(a)} && a < |h.cells|
    ensures Drain(h, p, hs, i, v, behave).cells[a].state != Pending
    decreases |hs| - i
  {
    var h1 := h.(log := h.log + [Fired(p, hs[i], v)]);
    var h2 := Run(h1, hs[i], v, behave);
    var r := Drain(h2, p, hs, i + 1, v, behave);
    assert Drain(h, p, hs, i, v, behave) == r;
    if i == k {
      var st := if hs[k].cb.ResolveFn? then Fulfilled else Rejected;
      var g := Settle(h1, a, st, v, behave);
      if h1.cells[a].state == Pending {
        SettleOnce(h1, a, st, v, st, v, behave);
      }
      assert hs[k] == Wrapped(hs[k].cb, hs[k].derived);
      assert h2 == Call(h1, hs[k].cb, v, hs[k].derived, behave);
      assert h2 == Settle(g, hs[k].derived, Fulfilled, Undefined, behave) by {
        if hs[k].cb.ResolveFn? {
          assert hs[k].cb == ResolveFn(a);
        } else {
          assert hs[k].cb == RejectFn(a);
        }
      }
      SettledStays(g, h2, a);
      SettledStays(h2, r, a);
    } else {
      DrainReaches(h2, p, hs, i + 1, v, behave, k, a);
    }
  }

  /**
   * An input of `all` that rejects, or an input of `race` that settles either way,
   * settles the combined promise `a`: its matching list holds the wrapper that calls
   * `a`'s own reject (resolve). By `SettledStays`, `a` then keeps that outcome.
   */
  lemma InputSettlesCombined(h: Heap, p: nat, st: State, v: Value, behave: Behaviour, k: nat, a: nat)
    requires st != Pending && p < |h.cells| && h.cells[p].state == Pending && a < |h.cells|
    requires var hs := if st == Fulfilled then h.cells[p].resolveHandlers else h.cells[p].rejectHandlers;
      k < |hs| && hs[k].Wrapped? && hs[k].cb in {ResolveFn(a), RejectFn(a)}
    ensures Settle(h, p, st, v, behave).cells[a].state != Pending
  {
    var c := h.cells[p];
    var g := h.(cells := h.cells[p := c.(state := st, value := v)], log := h.log + [Settled(p, st, v)]);
    PendingCountUpdate(h.cells, p, c.(state := st, value := v));
    var hs := if st == Fulfilled then c.resolveHandlers else c.rejectHandlers;
    DrainReaches(g, p, hs, 0, v, behave, k, a);
  }

  /** `then(onFulfill, onReject)` on a fresh promise: one wrapper in each list, for a fresh derived promise. */
  lemma ThenFresh(h: Heap, p: nat, onFulfill: Callback, onReject: Callback, behave: Behaviour)
    requires p < |h.cells| && h.cells[p] == Fresh
    ensures Then(h, p, Some(onFulfill), Some(onReject), behave) ==
      (h.(cells := (h.cells + [Fresh])[p := Cell(Pending, Undefined, [Wrapped(onFulfill, |h.cells|)], [Wrapped(onReject, |h.cells|)], [])]), |h.cells|)
  {
    var d := |h.cells|;
    assert [] + [Wrapped(onFulfill, d)] == [Wrapped(onFulfill, d)];
    assert [] + [Wrapped(onReject, d)] == [Wrapped(onReject, d)];
  }

  /** Settling a promise whose matching list is one handler and that has no finally callback. */
  lemma SettleSingle(h: Heap, p: nat, st: State, v: Value, behave: Behaviour, hd: Handler)
    requires st != Pending && p < |h.cells| && h.cells[p].state == Pending && h.cells[p].finallyHandlers == []
    requires (if st == Fulfilled then h.cells[p].resolveHandlers else h.cells[p].rejectHandlers) == [hd]
    ensures var g := h.(cells := h.cells[p := h.cells[p].(state := st, value := v)], log := h.log + [Settled(p, st, v), Fired(p, hd, v)]);
      var r := Run(g, hd, v, behave);
      Settle(h, p, st, v, behave) == r.(cells := r.cells[p := r.cells[p].(resolveHandlers := [], rejectHandlers := [], finallyHandlers := [])])
  {
    var c := h.cells[p];
    var g0 := h.(cells := h.cells[p := c.(state := st, value := v)], log := h.log + [Settled(p, st, v)]);
    PendingCountUpdate(h.cells, p, c.(state := st, value := v));
    var g := g0.(log := g0.log + [Fired(p, hd, v)]);
    assert g == h.(cells := h.cells[p := c.(state := st, value := v)], log := h.log + [Settled(p, st, v), Fired(p, hd, v)]);
    var r := Run(g, hd, v, behave);
    assert Drain(g0, p, [hd], 0, v, behave) == Drain(r, p, [hd], 1, v, behave) == r;
    assert HookEvents(p, []) == [];
    assert r.log + [] == r.log;
  }

  /** The heap `all([A, B])` leaves on two fresh promises: a pending combined promise `a`, a slot wrapper and a reject wrapper on each input. */
  lemma AllTwo(h: Heap, pa: nat, pb: nat, behave: Behaviour)
    requires pa < |h.cells| && pb < |h.cells| && pa != pb && h.cells[pa] == Fresh && h.cells[pb] == Fresh
    ensures var a := |h.cells|;
      All(h, [Promise(pa), Promise(pb)], behave) ==
      (h.(cells := h.cells[pa := Cell(Pending, Undefined, [Wrapped(AllSlot(a, 0), a + 1)], [Wrapped(RejectFn(a), a + 1)], [])]
                          [pb := Cell(Pending, Undefined, [Wrapped(AllSlot(a, 1), a + 2)], [Wrapped(RejectFn(a), a + 2)], [])]
                          + [Fresh, Fresh, Fresh],
           alls := h.alls[a := AllRec(2, 0, [Undefined, Undefined])]), a)
  {
    var a := |h.cells|;
    var values := [Promise(pa), Promise(pb)];
    var h1 := h.(cells := h.cells + [Fresh]);
    assert values[1..] == [Promise(pb)] && values[1..][1..] == [];
    assert StaticResolve(h1, Promise(pb), behave) == (h1, pb);
    assert ResolveEach(h1, [], behave) == (h1, []);
    assert [Promise(pb)][1..] == [] && [pb] + [] == [pb] && [pa] + [pb] == [pa, pb];
    assert ResolveEach(h1, [Promise(pb)], behave) == (h1, [pb]);
    assert StaticResolve(h1, Promise(pa), behave) == (h1, pa);
    assert ResolveEach(h1, values, behave) == (h1, [pa, pb]);
    assert seq(2, _ => Undefined) == [Undefined, Undefined];
    var h3 := h1.(alls := h1.alls[a := AllRec(2, 0, [Undefined, Undefined])]);
    ThenFresh(h3, pa, AllSlot(a, 0), RejectFn(a), behave);
    var (h4, _) := Then(h3, pa, Some(AllSlot(a, 0)), Some(RejectFn(a)), behave);
    ThenFresh(h4, pb, AllSlot(a, 1), RejectFn(a), behave);
    var (h5, _) := Then(h4, pb, Some(AllSlot(a, 1)), Some(RejectFn(a)), behave);
    assert AttachEach(h5, [pa, pb], 2, a, true, behave) == h5;
    assert AttachEach(h4, [pa, pb], 1, a, true, behave) == h5;
    assert AttachEach(h3, [pa, pb], 0, a, true, behave) == h5;
    assert All(h, values, behave) == (h5, a);
    var ca := Cell(Pending, Undefined, [Wrapped(AllSlot(a, 0), a + 1)], [Wrapped(RejectFn(a), a + 1)], []);
    var cb := Cell(Pending, Undefined, [Wrapped(AllSlot(a, 1), a + 2)], [Wrapped(RejectFn(a), a + 2)], []);
    assert h5.cells == h.cells[pa := ca][pb := cb] + [Fresh, Fresh, Fresh];
  }

  /** The heap `race([A, B])` leaves on two fresh promises: a pending combined promise `a` whose resolve and reject are wrapped on each input. */
  lemma RaceTwo(h: Heap, pa: nat, pb: nat, behave: Behaviour)
    requires pa < |h.cells| && pb < |h.cells| && pa != pb && h.cells[pa] == Fresh && h.cells[pb] == Fresh
    ensures var a := |h.cells|;
      Race(h, [Promise(pa), Promise(pb)], behave) ==
      (h.(cells := h.cells[pa := Cell(Pending, Undefined, [Wrapped(ResolveFn(a), a + 1)], [Wrapped(RejectFn(a), a + 1)], [])]
                          [pb := Cell(Pending, Undefined, [Wrapped(ResolveFn(a), a + 2)], [Wrapped(RejectFn(a), a + 2)], [])]
                          + [Fresh, Fresh, Fresh]), a)
  {
    var a := |h.cells|;
    var values := [Promise(pa), Promise(pb)];
    var h1 := h.(cells := h.cells + [Fresh]);
    assert values[1..] == [Promise(pb)] && values[1..][1..] == [];
    assert StaticResolve(h1, Promise(pb), behave) == (h1, pb);
    assert ResolveEach(h1, [], behave) == (h1, []);
    assert [Promise(pb)][1..] == [] && [pb] + [] == [pb] && [pa] + [pb] == [pa, pb];
    assert ResolveEach(h1, [Promise(pb)], behave) == (h1, [pb]);
    assert StaticResolve(h1, Promise(pa), behave) == (h1, pa);
    assert ResolveEach(h1, values, behave) == (h1, [pa, pb]);
    ThenFresh(h1, pa, ResolveFn(a), RejectFn(a), behave);
    var (h4, _) := Then(h1, pa, Some(ResolveFn(a)), Some(RejectFn(a)), behave);
    ThenFresh(h4, pb, ResolveFn(a), RejectFn(a), behave);
    var (h5, _) := Then(h4, pb, Some(ResolveFn(a)), Some(RejectFn(a)), behave);
    assert AttachEach(h5, [pa, pb], 2, a, false, behave) == h5;
    assert AttachEach(h4, [pa, pb], 1, a, false, behave) == h5;
    assert AttachEach(h1, [pa, pb], 0, a, false, behave) == h5;
    assert Race(h, values, behave) == (h5, a);
    var ca := Cell(Pending, Undefined, [Wrapped(ResolveFn(a), a + 1)], [Wrapped(RejectFn(a), a + 1)], []);
    var cb := Cell(Pending, Undefined, [Wrapped(ResolveFn(a), a + 2)], [Wrapped(RejectFn(a), a + 2)], []);
    assert h5.cells == h.cells[pa := ca][pb := cb] + [Fresh, Fresh, Fresh];
  }

  /** A wrapper around the resolve (reject) of a pending promise `k` settles `k` with the argument. */
  lemma ForwardSettles(h: Heap, cb: Callback, v: Value, d: nat, behave: Behaviour)
    requires (cb.ResolveFn? || cb.RejectFn?) && cb.k < |h.cells| && h.cells[cb.k].state == Pending
    ensures Call(h, cb, v, d, behave).cells[cb.k].state == (if cb.ResolveFn? then Fulfilled else Rejected)
    ensures Call(h, cb, v, d, behave).cells[cb.k].value == v
  {
    var st := if cb.ResolveFn? then Fulfilled else Rejected;
    var g := Settle(h, cb.k, st, v, behave);
    SettleOnce(h, cb.k, st, v, st, v, behave);
    assert Call(h, cb, v, d, behave) == Settle(g, d, Fulfilled, Undefined, behave);
    SettledStays(g, Settle(g, d, Fulfilled, Undefined, behave), cb.k);
  }

  /** An input of `all` whose value is not the last one to arrive: its slot is recorded and counted, and no other promise but its own and its derived one changes. */
  lemma SlotStepWaits(h: Heap, p: nat, v: Value, a: nat, i: nat, d: nat, behave: Behaviour)
    requires p < |h.cells| && h.cells[p].state == Pending && h.cells[p].finallyHandlers == []
    requires h.cells[p].resolveHandlers == [Wrapped(AllSlot(a, i), d)]
    requires a in h.alls && i < |h.alls[a].resolved| && h.alls[a].counter + 1 != h.alls[a].n
    requires d < |h.cells| && d != p && h.cells[d] == Fresh
    ensures var r := Settle(h, p, Fulfilled, v, behave);
      var rec := h.alls[a];
      && |r.cells| == |h.cells| && a in r.alls && r.alls[a] == AllRec(rec.n, rec.counter + 1, rec.resolved[i := v])
      && forall q :: 0 <= q < |h.cells| && q != p && q != d ==> r.cells[q] == h.cells[q]
  {
    var hd := Wrapped(AllSlot(a, i), d);
    SettleSingle(h, p, Fulfilled, v, behave, hd);
    var g := h.(cells := h.cells[p := h.cells[p].(state := Fulfilled, value := v)], log := h.log + [Settled(p, Fulfilled, v), Fired(p, hd, v)]);
    var rec := h.alls[a];
    var s1 := g.(alls := g.alls[a := AllRec(rec.n, rec.counter + 1, rec.resolved[i := v])]);
    assert Slot(g, a, i, v, behave) == s1;
    SettleLone(s1, d, Fulfilled, Undefined, behave);
    assert Run(g, hd, v, behave) == Settle(s1, d, Fulfilled, Undefined, behave);
  }

  /** The input of `all` whose value arrives last: the combined promise `a` is fulfilled with the array. */
  lemma SlotStepFills(h: Heap, p: nat, v: Value, a: nat, i: nat, d: nat, behave: Behaviour)
    requires p < |h.cells| && h.cells[p].state == Pending && h.cells[p].finallyHandlers == []
    requires h.cells[p].resolveHandlers == [Wrapped(AllSlot(a, i), d)]
    requires a in h.alls && i < |h.alls[a].resolved| && h.alls[a].counter + 1 == h.alls[a].n
    requires a < |h.cells| && a != p && h.cells[a].state == Pending
    ensures var r := Settle(h, p, Fulfilled, v, behave);
      r.cells[a].state == Fulfilled && r.cells[a].value == Items(h.alls[a].resolved[i := v])
  {
    var hd := Wrapped(AllSlot(a, i), d);
    SettleSingle(h, p, Fulfilled, v, behave, hd);
    var g := h.(cells := h.cells[p := h.cells[p].(state := Fulfilled, value := v)], log := h.log + [Settled(p, Fulfilled, v), Fired(p, hd, v)]);
    SlotCounts(g, a, i, v, behave);
    var s := Slot(g, a, i, v, behave);
    var r := Settle(s, d, Fulfilled, Undefined, behave);
    SettledStays(s, r, a);
    assert Run(g, hd, v, behave) == r;
  }

  /**
   * `all([A, B])` on two pending promises that settle out of order: B's value is
   * counted first without settling the combined promise, and A's settlement then
   * fulfils it with the values in input order.
   */
  lemma AllOutOfOrder(h: Heap, pa: nat, pb: nat, va: Value, vb: Value, behave: Behaviour)
    requires pa < |h.cells| && pb < |h.cells| && pa != pb && h.cells[pa] == Fresh && h.cells[pb] == Fresh
    ensures var (h1, a) := All(h, [Promise(pa), Promise(pb)], behave);
      var h2 := Settle(h1, pb, Fulfilled, vb, behave);
      var h3 := Settle(h2, pa, Fulfilled, va, behave);
      && h2.cells[a].state == Pending
      && h3.cells[a].state == Fulfilled && h3.cells[a].value == Items([va, vb])
  {
    var a := |h.cells|;
    AllTwo(h, pa, pb, behave);
    var (h1, _) := All(h, [Promise(pa), Promise(pb)], behave);
    assert |h1.cells| == a + 3 && h1.cells[a] == Fresh && h1.cells[a + 1] == Fresh && h1.cells[a + 2] == Fresh;
    assert h1.cells[pa] == Cell(Pending, Undefined, [Wrapped(AllSlot(a, 0), a + 1)], [Wrapped(RejectFn(a), a + 1)], []);
    assert h1.cells[pb] == Cell(Pending, Undefined, [Wrapped(AllSlot(a, 1), a + 2)], [Wrapped(RejectFn(a), a + 2)], []);
    TwoSlotsFill(h1, a, pa, pb, va, vb, behave);
  }

  /** The two settlements of `AllOutOfOrder`, on the heap `all([A, B])` leaves. */
  lemma TwoSlotsFill(h1: Heap, a: nat, pa: nat, pb: nat, va: Value, vb: Value, behave: Behaviour)
    requires pa < a && pb < a && pa != pb && |h1.cells| == a + 3
    requires h1.cells[a] == Fresh && h1.cells[a + 1] == Fresh && h1.cells[a + 2] == Fresh
    requires h1.cells[pa] == Cell(Pending, Undefined, [Wrapped(AllSlot(a, 0), a + 1)], [Wrapped(RejectFn(a), a + 1)], [])
    requires h1.cells[pb] == Cell(Pending, Undefined, [Wrapped(AllSlot(a, 1), a + 2)], [Wrapped(RejectFn(a), a + 2)], [])
    requires a in h1.alls && h1.alls[a] == AllRec(2, 0, [Undefined, Undefined])
    ensures var h2 := Settle(h1, pb, Fulfilled, vb, behave);
      var h3 := Settle(h2, pa, Fulfilled, va, behave);
      && h2.cells[a].state == Pending
      && h3.cells[a].state == Fulfilled && h3.cells[a].value == Items([va, vb])
  {
    SlotStepWaits(h1, pb, vb, a, 1, a + 2, behave);
    var h2 := Settle(h1, pb, Fulfilled, vb, behave);
    assert [Undefined, Undefined][1 := vb] == [Undefined, vb];
    assert h2.cells[pa] == h1.cells[pa] && h2.cells[a] == Fresh;
    assert h2.alls[a] == AllRec(2, 1, [Undefined, vb]);
    SlotStepFills(h2, pa, va, a, 0, a + 1, behave);
    assert [Undefined, vb][0 := va] == [va, vb];
  }

  /** An input of `all` with no other handlers that rejects while the combined promise `a` is pending: `a` is rejected with the same reason. */
  lemma AllInputRejects(h: Heap, x: nat, e: Value, a: nat, d: nat, behave: Behaviour)
    requires x < |h.cells| && h.cells[x].state == Pending && h.cells[x].finallyHandlers == []
    requires h.cells[x].rejectHandlers == [Wrapped(RejectFn(a), d)]
    requires a < |h.cells| && a != x && h.cells[a].state == Pending
    ensures Settle(h, x, Rejected, e, behave).cells[a].state == Rejected && Settle(h, x, Rejected, e, behave).cells[a].value == e
  {
    var hd := Wrapped(RejectFn(a), d);
    SettleSingle(h, x, Rejected, e, behave, hd);
    var g := h.(cells := h.cells[x := h.cells[x].(state := Rejected, value := e)], log := h.log + [Settled(x, Rejected, e), Fired(x, hd, e)]);
    ForwardSettles(g, RejectFn(a), e, d, behave);
  }

  /** `all([A, B])` on two pending promises: A's rejection rejects the combined promise with A's reason, and B's later value leaves it so. */
  lemma AllRejectsFirst(h: Heap, pa: nat, pb: nat, e: Value, vb: Value, behave: Behaviour)
    requires pa < |h.cells| && pb < |h.cells| && pa != pb && h.cells[pa] == Fresh && h.cells[pb] == Fresh
    ensures var (h1, a) := All(h, [Promise(pa), Promise(pb)], behave);
      var h2 := Settle(h1, pa, Rejected, e, behave);
      && h2.cells[a].state == Rejected && h2.cells[a].value == e
      && Settle(h2, pb, Fulfilled, vb, behave).cells[a] == h2.cells[a]
  {
    var a := |h.cells|;
    AllTwo(h, pa, pb, behave);
    var (h1, _) := All(h, [Promise(pa), Promise(pb)], behave);
    assert |h1.cells| == a + 3 && h1.cells[a] == Fresh;
    assert h1.cells[pa] == Cell(Pending, Undefined, [Wrapped(AllSlot(a, 0), a + 1)], [Wrapped(RejectFn(a), a + 1)], []);
    AllInputRejects(h1, pa, e, a, a + 1, behave);
    var h2 := Settle(h1, pa, Rejected, e, behave);
    SettledStays(h2, Settle(h2, pb, Fulfilled, vb, behave), a);
  }

  /**
   * An input of `race` that has no other handlers and settles while the combined
   * promise `a` is pending: its wrapper calls `a`'s own resolve (reject), so `a` takes
   * the input's state and value.
   */
  lemma RaceInputSettles(h: Heap, x: nat, st: State, v: Value, a: nat, d: nat, behave: Behaviour)
    requires st != Pending && x < |h.cells| && h.cells[x] == Cell(Pending, Undefined, [Wrapped(ResolveFn(a), d)], [Wrapped(RejectFn(a), d)], [])
    requires a < |h.cells| && a != x && h.cells[a].state == Pending
    ensures Settle(h, x, st, v, behave).cells[a].state == st && Settle(h, x, st, v, behave).cells[a].value == v
  {
    var cb := if st == Fulfilled then ResolveFn(a) else RejectFn(a);
    var hd := Wrapped(cb, d);
    SettleSingle(h, x, st, v, behave, hd);
    var g := h.(cells := h.cells[x := h.cells[x].(state := st, value := v)], log := h.log + [Settled(x, st, v), Fired(x, hd, v)]);
    ForwardSettles(g, cb, v, d, behave);
  }

  /**
   * `race([A, B])` on two pending promises: whichever input settles first gives the
   * combined promise its state and value, and the other input's later settlement
   * leaves it so.
   */
  lemma RaceFirstSettles(h: Heap, pa: nat, pb: nat, x: nat, y: nat, st: State, v: Value, st2: State, w: Value, behave: Behaviour)
    requires pa < |h.cells| && pb < |h.cells| && pa != pb && h.cells[pa] == Fresh && h.cells[pb] == Fresh
    requires (x == pa && y == pb) || (x == pb && y == pa)
    requires st != Pending && st2 != Pending
    ensures var (h1, a) := Race(h, [Promise(pa), Promise(pb)], behave);
      var h2 := Settle(h1, x, st, v, behave);
      && h2.cells[a].state == st && h2.cells[a].value == v
      && Settle(h2, y, st2, w, behave).cells[a] == h2.cells[a]
  {
    var a := |h.cells|;
    RaceTwo(h, pa, pb, behave);
    var (h1, _) := Race(h, [Promise(pa), Promise(pb)], behave);
    var d := if x == pa then a + 1 else a + 2;
    assert |h1.cells| == a + 3 && h1.cells[a] == Fresh;
    assert h1.cells[x] == Cell(Pending, Undefined, [Wrapped(ResolveFn(a), d)], [Wrapped(RejectFn(a), d)], []);
    RaceInputSettles(h1, x, st, v, a, d, behave);
    var h2 := Settle(h1, x, st, v, behave);
    SettledStays(h2, Settle(h2, y, st2, w, behave), a);
  }
}
