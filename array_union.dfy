/**
 * `Array.prototype.union(...args)` of the prelude: `[...new Set(this.concat(...args))]`.
 * A `Set` keeps the first occurrence of every element in insertion order, so the
 * result is the concatenation with every repeated element dropped after its first
 * occurrence.
 */
module ArrayUnion {

  /** `this.concat(...args)`: the receiver followed by every argument array. */
  function Concat<T(==)>(a: seq<T>, args: seq<seq<T>>): (r: seq<T>)
    ensures |r| == |a| + TotalLength(args)
  {
    if args == [] then a else Concat(a, args[..|args| - 1]) + args[|args| - 1]
  }

  /** Something is in the concatenation iff it is in the receiver or in one of the arguments. */
  lemma {:induction false} ConcatMembers<T>(a: seq<T>, args: seq<seq<T>>, x: T)
    ensures x in Concat(a, args) <==> x in a || exists k :: 0 <= k < |args| && x in args[k]
  {
    if args != [] {
      var init := args[..|args| - 1];
      ConcatMembers(a, init, x);
      if exists k :: 0 <= k < |args| && x in args[k] {
        var k :| 0 <= k < |args| && x in args[k];
        if k < |args| - 1 { assert x in init[k]; }
      }
      if exists k :: 0 <= k < |init| && x in init[k] {
        var k :| 0 <= k < |init| && x in init[k];
        assert x in args[k];
      }
    }
  }

  function TotalLength<T(==)>(args: seq<seq<T>>): nat {
    if args == [] then 0 else TotalLength(args[..|args| - 1]) + |args[|args| - 1]|
  }

  /** Inserting the elements of `s` one by one into an initially empty `Set` and spreading it. */
  function Dedup<T(==)>(s: seq<T>): seq<T> {
    if s == [] then []
    else
      var init := s[..|s| - 1];
      var x := s[|s| - 1];
      if x in init then Dedup(init) else Dedup(init) + [x]
  }

  /** `a.union(...args)`. */
  function Union<T(==)>(a: seq<T>, args: seq<seq<T>>): seq<T> {
    Dedup(Concat(a, args))
  }

  predicate NoDuplicates<T(==)>(s: seq<T>) {
    forall i, j :: 0 <= i < j < |s| ==> s[i] != s[j]
  }

  /** Index of the first occurrence of `x` in `s`. */
  function FirstIndex<T(==)>(s: seq<T>, x: T): (k: nat)
    requires x in s
    ensures k < |s| && s[k] == x && x !in s[..k]
  {
    if s[0] == x then 0 else 1 + FirstIndex(s[1..], x)
  }

  lemma {:induction false} DedupMembers<T>(s: seq<T>)
    ensures forall x :: x in Dedup(s) ==> x in s
    ensures forall x :: x in s ==> x in Dedup(s)
  {
    if s != [] {
      DedupMembers(s[..|s| - 1]);
      assert s == s[..|s| - 1] + [s[|s| - 1]];
    }
  }

  lemma {:induction false} DedupDistinct<T>(s: seq<T>)
    ensures NoDuplicates(Dedup(s))
  {
    if s != [] {
      var init := s[..|s| - 1];
      DedupDistinct(init);
      DedupMembers(init);
    }
  }

  lemma {:induction false} DedupShorter<T>(s: seq<T>)
    ensures |Dedup(s)| <= |s|
  {
    if s != [] { DedupShorter(s[..|s| - 1]); }
  }

  lemma {:induction false} DedupOfDistinct<T>(s: seq<T>)
    requires NoDuplicates(s)
    ensures Dedup(s) == s
  {
    if s != [] {
      var init := s[..|s| - 1];
      assert NoDuplicates(init);
      DedupOfDistinct(init);
      forall i | 0 <= i < |init| ensures init[i] != s[|s| - 1] {
        assert init[i] == s[i];
      }
      assert s == init + [s[|s| - 1]];
    }
  }

  lemma {:induction false} FirstIndexPrefix<T>(s: seq<T>, x: T, y: T)
    requires y in s
    ensures FirstIndex(s + [x], y) == FirstIndex(s, y)
  {
    if s[0] != y {
      assert (s + [x])[1..] == s[1..] + [x];
      FirstIndexPrefix(s[1..], x, y);
    }
  }

  /** An element missing from `s` first occurs in `s + [x]` at the end. */
  lemma {:induction false} FirstIndexLast<T>(s: seq<T>, x: T)
    requires x !in s
    ensures FirstIndex(s + [x], x) == |s|
  {
    if s != [] {
      assert (s + [x])[1..] == s[1..] + [x];
      FirstIndexLast(s[1..], x);
    }
  }

  /** Every element of `d` occurs in `s`, and `d` lists them in the order of their first occurrence there. */
  ghost predicate FirstOccurrenceOrdered<T>(d: seq<T>, s: seq<T>) {
    forall i, j :: 0 <= i < j < |d| ==> OccursBefore(d, s, i, j)
  }

  ghost predicate OccursBefore<T>(d: seq<T>, s: seq<T>, i: int, j: int)
    requires 0 <= i < j < |d|
  {
    d[i] in s && d[j] in s && FirstIndex(s, d[i]) < FirstIndex(s, d[j])
  }

  /** Elements of the result keep the order of their first occurrence in the input. */
  lemma {:induction false} DedupFirstOccurrenceOrder<T>(s: seq<T>)
    ensures FirstOccurrenceOrdered(Dedup(s), s)
  {
    if s != [] {
      var init := s[..|s| - 1];
      var x := s[|s| - 1];
      assert s == init + [x];
      DedupFirstOccurrenceOrder(init);
      var d := Dedup(s);
      forall i, j | 0 <= i < j < |d|
        ensures OccursBefore(d, s, i, j)
      {
        OrderAfterSnoc(init, x, i, j);
      }
      assert FirstOccurrenceOrdered(d, s);
    }
  }

  /** The induction step of `DedupFirstOccurrenceOrder`, for one pair of positions. */
  lemma OrderAfterSnoc<T>(init: seq<T>, x: T, i: int, j: int)
    requires FirstOccurrenceOrdered(Dedup(init), init)
    requires 0 <= i < j < |Dedup(init + [x])|
    ensures Dedup(init + [x])[i] in init + [x] && Dedup(init + [x])[j] in init + [x]
    ensures FirstIndex(init + [x], Dedup(init + [x])[i]) < FirstIndex(init + [x], Dedup(init + [x])[j])
  {
    var s := init + [x];
    assert s[..|s| - 1] == init;
    var d := Dedup(init);
    DedupMembers(init);
    assert d[i] in d;
    FirstIndexPrefix(init, x, d[i]);
    if j < |d| {
      assert Dedup(s)[j] == d[j];
      assert OccursBefore(d, init, i, j);
      FirstIndexPrefix(init, x, d[j]);
    } else {
      assert Dedup(s) == d + [x];
      FirstIndexLast(init, x);
    }
  }

  /** `union` characterised: distinct, same members as the concatenation, in first-occurrence order. */
  lemma UnionSpec<T>(a: seq<T>, args: seq<seq<T>>)
    ensures var u := Union(a, args);
      && NoDuplicates(u)
      && |u| <= |a| + TotalLength(args)
      && FirstOccurrenceOrdered(u, Concat(a, args))
      && (NoDuplicates(Concat(a, args)) ==> u == Concat(a, args))
  {
    var c := Concat(a, args);
    DedupDistinct(c);
    DedupMembers(c);
    DedupShorter(c);
    DedupFirstOccurrenceOrder(c);
    if NoDuplicates(c) { DedupOfDistinct(c); }
  }
}
