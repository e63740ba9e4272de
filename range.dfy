/**
 * `core/range`: an interval over numbers, characters (by code point) or dates
 * (by millisecond timestamp). Bounds are JavaScript numbers; here they are
 * integers extended with the two infinities and NaN, compared the way
 * JavaScript compares them (every comparison with NaN is false).
 */
module Range {

  /** A JavaScript number restricted to integers, the infinities and NaN. */
  datatype Num = Fin(v: int) | PosInf | NegInf | NaN

  /** JavaScript `a < b`. */
  predicate Lt(a: Num, b: Num) {
    match (a, b)
    case (NaN, _) => false
    case (_, NaN) => false
    case (NegInf, NegInf) => false
    case (NegInf, _) => true
    case (PosInf, _) => false
    case (Fin(x), Fin(y)) => x < y
    case (Fin(_), PosInf) => true
    case (Fin(_), NegInf) => false
  }

  /** JavaScript `a <= b`. */
  predicate Le(a: Num, b: Num) {
    a != NaN && b != NaN && !Lt(b, a)
  }

  /** `Math.max(a, b)`. */
  function Max(a: Num, b: Num): (r: Num)
    ensures a != NaN && b != NaN ==> Le(a, r) && Le(b, r) && (r == a || r == b)
    ensures a == NaN || b == NaN ==> r == NaN
  {
    if a == NaN || b == NaN then NaN else if Lt(a, b) then b else a
  }

  /** `Math.min(a, b)`. */
  function Min(a: Num, b: Num): (r: Num)
    ensures a != NaN && b != NaN ==> Le(r, a) && Le(r, b) && (r == a || r == b)
    ensures a == NaN || b == NaN ==> r == NaN
  {
    if a == NaN || b == NaN then NaN else if Lt(b, a) then b else a
  }

  lemma LeTransitive(a: Num, b: Num, c: Num)
    requires Le(a, b) && Le(b, c)
    ensures Le(a, c)
  {
  }

  /** Number.MAX_SAFE_INTEGER, where `toArray` stops. */
  const MaxSafe: int := 0x1F_FFFF_FFFF_FFFF

  /** What a range was built from. */
  datatype RangeType = NumberType | StringType | DateType

  /** A UTF-16 code unit: JavaScript strings are sequences of these. */
  type CodeUnit = u: int | 0 <= u < 0x1_0000

  /** A constructor argument: a string (its code units), a number, a date (its timestamp), or `undefined`. */
  datatype Arg = Str(s: seq<CodeUnit>) | Number(n: Num) | Date(ms: int) | Undefined

  predicate IsHighSurrogate(u: int) { 0xD800 <= u <= 0xDBFF }
  predicate IsLowSurrogate(u: int) { 0xDC00 <= u <= 0xDFFF }

  /**
   * `charCodeAt(str, pos)`, through `String.prototype.codePointAt`: the code unit at
   * `pos`, or the code point of the surrogate pair that starts there; NaN when `pos`
   * is outside the string.
   */
  function CodeAt(s: seq<CodeUnit>, pos: int): Num {
    if !(0 <= pos < |s|) then NaN
    else if IsHighSurrogate(s[pos]) && pos + 1 < |s| && IsLowSurrogate(s[pos + 1]) then
      Fin((s[pos] as int - 0xD800) * 0x400 + (s[pos + 1] as int - 0xDC00) + 0x1_0000)
    else Fin(s[pos])
  }

  /** A Unicode scalar value. */
  predicate IsScalar(cp: int) {
    0 <= cp <= 0x10_FFFF && !(0xD800 <= cp <= 0xDFFF)
  }

  /** The UTF-16 encoding of one code point, as `String.fromCodePoint` produces it. */
  function Utf16(cp: int): (r: seq<CodeUnit>)
    requires IsScalar(cp)
    ensures |r| == (if cp < 0x1_0000 then 1 else 2)
    ensures cp < 0x1_0000 ==> r[0] == cp && !IsHighSurrogate(r[0]) && !IsLowSurrogate(r[0])
    ensures cp >= 0x1_0000 ==> IsHighSurrogate(r[0]) && IsLowSurrogate(r[1])
  {
    if cp < 0x1_0000 then [cp]
    else [0xD800 + (cp - 0x1_0000) / 0x400, 0xDC00 + (cp - 0x1_0000) % 0x400]
  }

  /** Reading the code point at the start of an encoded character gives the character back, whatever follows it. */
  lemma CodeAtUtf16(cp: int, rest: seq<CodeUnit>)
    requires IsScalar(cp)
    ensures CodeAt(Utf16(cp) + rest, 0) == Fin(cp)
  {
    var s := Utf16(cp) + rest;
    if cp >= 0x1_0000 {
      var q := (cp - 0x1_0000) / 0x400;
      var m := (cp - 0x1_0000) % 0x400;
      assert s[0] == 0xD800 + q && s[1] == 0xDC00 + m;
      assert q * 0x400 + m == cp - 0x1_0000;
    }
  }

  /** The last code unit of a character outside the Basic Multilingual Plane is its low surrogate, and that is what the end of a string range reads. */
  lemma LastUnitOfPair(cp: int, init: seq<CodeUnit>)
    requires IsScalar(cp) && cp >= 0x1_0000
    ensures var s := init + Utf16(cp);
      CodeAt(s, |s| - 1) == Fin(0xDC00 + (cp - 0x1_0000) % 0x400)
  {
  }

  // ---------------------------------------------------------------------------
  // `Number(string)`.

  /** The white space and line terminators that `Number` strips from both ends of a string. */
  predicate IsStrWhiteSpace(u: CodeUnit) {
    u in {0x09, 0x0A, 0x0B, 0x0C, 0x0D, 0x20, 0xA0, 0x1680, 0x2028, 0x2029, 0x202F, 0x205F, 0x3000, 0xFEFF} ||
    (0x2000 <= u <= 0x200A)
  }

  function TrimStart(s: seq<CodeUnit>): (r: seq<CodeUnit>)
    ensures r == [] || !IsStrWhiteSpace(r[0])
    ensures |r| <= |s| && r == s[|s| - |r|..]
  {
    if s != [] && IsStrWhiteSpace(s[0]) then TrimStart(s[1..]) else s
  }

  function TrimEnd(s: seq<CodeUnit>): (r: seq<CodeUnit>)
    ensures r == [] || !IsStrWhiteSpace(r[|r| - 1])
    ensures |r| <= |s| && r == s[..|r|]
  {
    if s != [] && IsStrWhiteSpace(s[|s| - 1]) then TrimEnd(s[..|s| - 1]) else s
  }

  /** The value of a digit in bases up to 16 (either letter case); 16 for a code unit that is no digit. */
  function DigitValue(u: CodeUnit): (r: int)
    ensures 0 <= r <= 16
    ensures r < 10 <==> 0x30 <= u <= 0x39
    ensures r == 16 <==> !(0x30 <= u <= 0x39 || 0x61 <= u <= 0x66 || 0x41 <= u <= 0x46)
  {
    if 0x30 <= u <= 0x39 then u - 0x30
    else if 0x61 <= u <= 0x66 then u - 0x61 + 10
    else if 0x41 <= u <= 0x46 then u - 0x41 + 10
    else 16
  }

  predicate AllDigits(s: seq<CodeUnit>, radix: int) {
    forall k :: 0 <= k < |s| ==> DigitValue(s[k]) < radix
  }

  /** The value of a sequence of digits, most significant first. */
  function DigitsValue(s: seq<CodeUnit>, radix: nat): (r: nat)
    requires AllDigits(s, radix)
  {
    if s == [] then 0 else DigitsValue(s[..|s| - 1], radix) * radix + DigitValue(s[|s| - 1])
  }

  /** "Infinity". */
  const InfinityWord: seq<CodeUnit> := [0x49, 0x6E, 0x66, 0x69, 0x6E, 0x69, 0x74, 0x79]

  /** An unsigned decimal literal: "Infinity" or a run of decimal digits. */
  function Unsigned(t: seq<CodeUnit>): Num {
    if t == InfinityWord then PosInf
    else if |t| > 0 && AllDigits(t, 10) then Fin(DigitsValue(t, 10))
    else NaN
  }

  function Negate(n: Num): Num {
    match n
    case Fin(v) => Fin(-v)
    case PosInf => NegInf
    case NegInf => PosInf
    case NaN => NaN
  }

  /** The base that a `0x`, `0o` or `0b` prefix at the start of `t` selects, or 0 when there is none. */
  function Prefix(t: seq<CodeUnit>): int {
    if |t| < 2 || t[0] != 0x30 then 0
    else if t[1] == 0x78 || t[1] == 0x58 then 16
    else if t[1] == 0x6F || t[1] == 0x4F then 8
    else if t[1] == 0x62 || t[1] == 0x42 then 2
    else 0
  }

  /**
   * JavaScript `Number(str)` on strings whose value is an integer or an infinity:
   * surrounding white space is ignored, an empty string is 0, a `0x`/`0o`/`0b`
   * prefix selects the base, a sign applies to a decimal literal only, and anything
   * else is NaN.
   */
  function StringToNumber(s: seq<CodeUnit>): Num {
    NumberOfTrimmed(TrimEnd(TrimStart(s)))
  }

  /** The value of a string with its white space already trimmed. */
  function NumberOfTrimmed(t: seq<CodeUnit>): Num {
    if t == [] then Fin(0)
    else if Prefix(t) != 0 then
      (if |t| > 2 && AllDigits(t[2..], Prefix(t)) then Fin(DigitsValue(t[2..], Prefix(t))) else NaN)
    else if t[0] == 0x2D then Negate(Unsigned(t[1..]))
    else if t[0] == 0x2B then Unsigned(t[1..])
    else Unsigned(t)
  }

  /** The decimal digits of `n`, as `String(n)` writes them. */
  function Decimal(n: nat): (r: seq<CodeUnit>)
    ensures |r| > 0
  {
    if n < 10 then [0x30 + n] else Decimal(n / 10) + [0x30 + n % 10]
  }

  lemma {:induction false} DecimalDigits(n: nat)
    ensures AllDigits(Decimal(n), 10) && DigitsValue(Decimal(n), 10) == n
  {
    if n >= 10 {
      DecimalDigits(n / 10);
      var s := Decimal(n);
      assert s[..|s| - 1] == Decimal(n / 10);
    }
  }

  /** A string that neither starts nor ends with white space is not trimmed. */
  lemma NoTrim(s: seq<CodeUnit>)
    requires s != [] && !IsStrWhiteSpace(s[0]) && !IsStrWhiteSpace(s[|s| - 1])
    ensures TrimEnd(TrimStart(s)) == s
  {
    assert TrimStart(s) == s;
  }

  /** The decimal form of `m` is an unsigned literal with no prefix, no sign and no white space at its ends. */
  lemma DecimalLiteral(m: nat)
    ensures var d := Decimal(m);
      && Unsigned(d) == Fin(m) && Prefix(d) == 0
      && !IsStrWhiteSpace(d[0]) && !IsStrWhiteSpace(d[|d| - 1]) && d[0] != 0x2D && d[0] != 0x2B
  {
    DecimalDigits(m);
    var d := Decimal(m);
    assert DigitValue(d[0]) < 10 && DigitValue(d[|d| - 1]) < 10;
    assert |d| >= 2 ==> DigitValue(d[1]) < 10;
    assert d != InfinityWord by {
      assert DigitValue(InfinityWord[0]) == 16;
    }
  }

  /** `Number(String(n))` is `n` for every integer. */
  lemma NumberOfString(n: int)
    ensures StringToNumber(if n < 0 then [0x2D] + Decimal(-n) else Decimal(n)) == Fin(n)
  {
    if n < 0 {
      DecimalLiteral(-n);
      SignedLiteral(Decimal(-n), -n);
    } else {
      DecimalLiteral(n);
      UnsignedLiteral(Decimal(n), n);
    }
  }

  lemma UnsignedLiteral(d: seq<CodeUnit>, m: nat)
    requires d != [] && Unsigned(d) == Fin(m) && Prefix(d) == 0
    requires !IsStrWhiteSpace(d[0]) && !IsStrWhiteSpace(d[|d| - 1]) && d[0] != 0x2D && d[0] != 0x2B
    ensures StringToNumber(d) == Fin(m)
  {
    NoTrim(d);
  }

  lemma SignedLiteral(d: seq<CodeUnit>, m: nat)
    requires d != [] && Unsigned(d) == Fin(m) && !IsStrWhiteSpace(d[|d| - 1])
    ensures StringToNumber([0x2D] + d) == Fin(-(m as int))
  {
    var s := [0x2D] + d;
    assert s[0] == 0x2D && s[|s| - 1] == d[|d| - 1] && s[1..] == d;
    assert !IsStrWhiteSpace(s[0]);
    NoTrim(s);
    assert Prefix(s) == 0;
  }

  /** White space around a numeric string does not change its value. */
  lemma NumberIgnoresSpace(s: seq<CodeUnit>)
    ensures StringToNumber([0x20] + s + [0x0A]) == StringToNumber(s)
  {
    SpaceTrim(s);
  }

  lemma SpaceTrim(s: seq<CodeUnit>)
    ensures TrimEnd(TrimStart([0x20] + s + [0x0A])) == TrimEnd(TrimStart(s))
  {
    var t := [0x20] + s + [0x0A];
    assert t[1..] == s + [0x0A];
    assert TrimStart(t) == TrimStart(s + [0x0A]);
    TrimStartEnd(s);
  }

  lemma {:induction false} TrimStartEnd(s: seq<CodeUnit>)
    ensures TrimEnd(TrimStart(s + [0x0A])) == TrimEnd(TrimStart(s))
  {
    if s != [] && IsStrWhiteSpace(s[0]) {
      assert (s + [0x0A])[1..] == s[1..] + [0x0A];
      TrimStartEnd(s[1..]);
    } else if s == [] {
      assert TrimStart([0x0A]) == [];
    } else {
      var t := s + [0x0A];
      assert t[..|t| - 1] == s;
    }
  }

  /** `Number(x)`: a string is parsed, a date gives its timestamp, `undefined` gives NaN. */
  function ToNumber(a: Arg): Num {
    match a
    case Number(n) => n
    case Date(ms) => Fin(ms)
    case Str(s) => StringToNumber(s)
    case Undefined => NaN
  }

  /** Converts a value given to `contains` or `clamp`: a string by its first code point. */
  function ValueOf(a: Arg): Num {
    if a.Str? then CodeAt(a.s, 0) else ToNumber(a)
  }

  /** The bounds read by the constructor, before the swap. */
  function RawBounds(start: Arg, end: Arg): (Num, Num) {
    if start.Str? then (CodeAt(start.s, 0), if end.Str? then CodeAt(end.s, |end.s| - 1) else PosInf)
    else (ToNumber(start), if end.Undefined? then PosInf else ToNumber(end))
  }

  /** The constructor's swap: bounds in ascending order, and whether they were given descending. */
  function Normalize(b: (Num, Num)): (r: (Num, Num, bool))
  {
    if Lt(b.1, b.0) then (b.1, b.0, true) else (b.0, b.1, false)
  }

  /** The swap leaves the bounds ordered, keeps both of them, and sets the flag exactly when they were descending. */
  lemma NormalizeSpec(b: (Num, Num))
    ensures var r := Normalize(b);
      && !Lt(r.1, r.0)
      && (r.2 <==> Lt(b.1, b.0))
      && (r.2 ==> (r.0, r.1) == (b.1, b.0))
      && (!r.2 ==> (r.0, r.1) == (b.0, b.1))
  {
  }

  /** Giving two distinct bounds in either order builds the same interval, with opposite reverse flags. */
  lemma NormalizeSymmetric(x: Num, y: Num)
    requires x != NaN && y != NaN && x != y
    ensures Normalize((x, y)).0 == Normalize((y, x)).0
    ensures Normalize((x, y)).1 == Normalize((y, x)).1
    ensures Normalize((x, y)).2 != Normalize((y, x)).2
  {
  }

  /** Every element of `s` lies in [lo, hi] and the step between neighbours is `step`. */
  ghost predicate Stepped(s: seq<Num>, lo: int, hi: Num, step: int) {
    (forall k :: 0 <= k < |s| ==> Le(Fin(lo), s[k]) && Le(s[k], hi)) &&
    (forall k :: 0 <= k < |s| ==> s[k] == Fin(lo + k * step))
  }

  /** start, start+step, ... for as long as the value stays <= `end`, stopping after the first value at or above MaxSafe. */
  function Steps(i: int, end: Num, step: int): (r: seq<Num>)
    requires step > 0
    decreases if i >= MaxSafe then 0 else MaxSafe - i + 1
  {
    if !Le(Fin(i), end) then []
    else if i >= MaxSafe then [Fin(i)]
    else [Fin(i)] + Steps(i + step, end, step)
  }

  /** Every enumerated value lies within the bounds, one step after the previous. */
  lemma {:induction false} StepsStepped(i: int, end: Num, step: int)
    requires step > 0
    ensures Stepped(Steps(i, end, step), i, end, step)
    decreases if i >= MaxSafe then 0 else MaxSafe - i + 1
  {
    if Le(Fin(i), end) && i < MaxSafe {
      StepsStepped(i + step, end, step);
      var s := Steps(i, end, step);
      forall k | 0 <= k < |s|
        ensures Le(Fin(i), s[k]) && Le(s[k], end) && s[k] == Fin(i + k * step)
      {
        if k > 0 {
          assert s[k] == Steps(i + step, end, step)[k - 1];
          assert i + step + (k - 1) * step == i + k * step;
        }
      }
    }
  }

  /** An enumerated finite range holds every step from the start up to the end: `n` values with the last within one step of the end. */
  lemma {:induction false} StepsCount(i: int, e: int, step: int)
    requires step > 0 && i <= e < MaxSafe
    ensures var n := |Steps(i, Fin(e), step)|;
      n >= 1 && (n - 1) * step <= e - i < n * step
    decreases e - i
  {
    if i + step <= e {
      StepsCount(i + step, e, step);
      var n' := |Steps(i + step, Fin(e), step)|;
      assert |Steps(i, Fin(e), step)| == n' + 1;
      assert (n' + 1) * step == n' * step + step;
    }
  }

  function Reverse<T>(s: seq<T>): (r: seq<T>)
    ensures |r| == |s| && forall k :: 0 <= k < |s| ==> r[k] == s[|s| - 1 - k]
  {
    if s == [] then [] else Reverse(s[1..]) + [s[0]]
  }

  /** The `for` loop of `toArray`: from `first` by `step` while the value is at most `end`, stopping after the first value at or above MaxSafe. */
  method Enumerate(first: int, end: Num, step: int) returns (res: seq<Num>)
    requires step > 0
    ensures res == Steps(first, end, step)
  {
    res := [];
    var i := first;
    while Le(Fin(i), end)
      invariant Steps(first, end, step) == res + Steps(i, end, step)
      decreases if i >= MaxSafe then 0 else MaxSafe - i + 1
    {
      if i >= MaxSafe {
        assert Steps(i, end, step) == [Fin(i)];
        res := res + [Fin(i)];
        return;
      }
      assert Steps(i, end, step) == [Fin(i)] + Steps(i + step, end, step);
      res := res + [Fin(i)];
      i := i + step;
    }
    assert res + [] == res;
  }

  /** "Invalid range". */
  const InvalidRange: seq<CodeUnit> := [0x49, 0x6E, 0x76, 0x61, 0x6C, 0x69, 0x64, 0x20, 0x72, 0x61, 0x6E, 0x67, 0x65]

  /** "..". */
  const Dots: seq<CodeUnit> := [0x2E, 0x2E]

  class Range {
    /** Bottom bound. */
    var start: Num
    /** Top bound. */
    var end: Num
    /** The kind of bound values the range was built from. */
    var rangeType: RangeType
    /** True when the bounds were given in descending order. */
    var reverse: bool

    /** After construction the bounds are never in descending order. */
    ghost predicate Ordered()
      reads this
    {
      !Lt(end, start)
    }

    constructor (startArg: Arg, endArg: Arg)
      ensures rangeType == (if startArg.Str? then StringType else if startArg.Date? then DateType else NumberType)
      ensures (start, end, reverse) == Normalize(RawBounds(startArg, endArg))
      ensures Ordered()
    {
      if startArg.Str? {
        rangeType := StringType;
        start := CodeAt(startArg.s, 0);
        end := if endArg.Str? then CodeAt(endArg.s, |endArg.s| - 1) else PosInf;
      } else {
        rangeType := if startArg.Date? then DateType else NumberType;
        start := ToNumber(startArg);
        end := if !endArg.Undefined? then ToNumber(endArg) else PosInf;
      }
      reverse := false;
      new;
      if Lt(end, start) {
        start, end := end, start;
        reverse := true;
      }
    }

    /** `isValid()`. */
    predicate IsValid()
      reads this
    {
      start != NaN
    }

    /** `clone()`: a new range with the same bounds, type and reverse flag. */
    method Clone() returns (r: Range)
      ensures fresh(r)
      ensures (r.start, r.end) == (Normalize((start, end)).0, Normalize((start, end)).1)
      ensures Ordered() ==> r.start == start && r.end == end
      ensures r.rangeType == rangeType && r.reverse == reverse
    {
      r := new Range(Number(start), Number(end));
      r.rangeType := rangeType;
      r.reverse := reverse;
    }

    /** `contains(el)` for a value that is not a range. */
    function ContainsValue(el: Arg): (b: bool)
      reads this
      ensures b <==> ValueOf(el) != NaN && start != NaN && end != NaN &&
                     Le(start, ValueOf(el)) && Le(ValueOf(el), end)
    {
      var val := ValueOf(el);
      Le(start, val) && Le(val, end)
    }

    /** `contains(range)`: the intersection is valid. */
    function ContainsRange(other: Range): (b: bool)
      reads this, other
    {
      IntersectBounds(start, end, other.start, other.end).0 != NaN
    }

    /** `clamp(el)`, before the result is turned back into the range's type. */
    function Clamp(el: Arg): (r: Num)
      reads this
      ensures !IsValid() ==> r == ValueOf(el)
      ensures IsValid() && Ordered() && end != NaN && ValueOf(el) != NaN ==>
        Le(start, r) && Le(r, end) &&
        (Lt(end, ValueOf(el)) ==> r == end) &&
        (Lt(ValueOf(el), start) ==> r == start) &&
        (Le(start, ValueOf(el)) && Le(ValueOf(el), end) ==> r == ValueOf(el))
    {
      var val := ValueOf(el);
      if !IsValid() then val
      else if Lt(end, val) then end
      else if Lt(val, start) then start
      else val
    }

    /** `span()`: the number of integer points from start to end inclusive. */
    function Span(): (r: Num)
      reads this
      ensures !IsValid() ==> r == NaN
      ensures IsValid() && !end.Fin? ==> r == PosInf
      ensures IsValid() && end.Fin? && start.Fin? ==> r == Fin(end.v - start.v + 1)
      ensures IsValid() && end.Fin? && start == NegInf ==> r == PosInf
      ensures IsValid() && end.Fin? && start == PosInf ==> r == NegInf
      ensures IsValid() && Ordered() && end.Fin? && start.Fin? ==> r.v >= 1
    {
      if !IsValid() then NaN
      else if !end.Fin? then PosInf
      else match start
        case Fin(s) => Fin(end.v - s + 1)
        case NegInf => PosInf
        case PosInf => NegInf
    }

    /** `intersect(range)`: a new range from the later start to the earlier end, invalid when that is empty. */
    method Intersect(other: Range) returns (r: Range)
      ensures fresh(r)
      ensures (r.start, r.end) == IntersectBounds(start, end, other.start, other.end)
      ensures r.rangeType == rangeType && r.reverse == false
    {
      var s := Max(start, other.start);
      var e := Min(end, other.end);
      if Lt(s, e) {
        r := new Range(Number(s), Number(e));
      } else {
        r := new Range(Number(NaN), Number(NaN));
      }
      r.rangeType := rangeType;
    }

    /** `union(range)`: a new range from the earlier start to the later end. */
    method Union(other: Range) returns (r: Range)
      ensures fresh(r)
      ensures (r.start, r.end, r.reverse) == UnionBounds(start, end, other.start, other.end)
      ensures r.rangeType == rangeType
    {
      r := new Range(Number(Min(start, other.start)), Number(Max(end, other.end)));
      r.rangeType := rangeType;
    }

    /** `toArray(step)`, before the elements are turned back into the range's type. */
    method ToArray(step: int) returns (res: seq<Num>)
      requires IsValid() && Le(start, end) && start != PosInf && !(start.Fin? && start.v >= MaxSafe) ==>
        step > 0 && start != NegInf
      ensures !IsValid() || !Le(start, end) ==> res == []
      ensures IsValid() && start.Fin? && step > 0 && !reverse ==> res == Steps(start.v, end, step)
      ensures IsValid() && start.Fin? && step > 0 && reverse ==> res == Reverse(Steps(start.v, end, step))
      ensures IsValid() && Le(start, end) && start.Fin? && start.v >= MaxSafe ==> res == [start]
      ensures IsValid() && start == PosInf ==> res == (if end == PosInf then [PosInf] else [])
      ensures start == NegInf ==> res == []
    {
      res := [];
      if !IsValid() || !Le(start, end) { return; }
      if start == PosInf {
        res := [PosInf];
        return;
      }
      if start.v >= MaxSafe {
        res := [start];
        return;
      }
      res := Enumerate(start.v, end, step);
      if reverse {
        res := Reverse(res);
      }
    }

    /** `toString()`, with `show` the string form of one bound converted to the range's type. */
    method ToString(show: Num -> seq<CodeUnit>) returns (s: seq<CodeUnit>)
      ensures !IsValid() ==> s == InvalidRange
      ensures IsValid() && end.Fin? && !reverse ==> s == show(start) + Dots + show(end)
      ensures IsValid() && end.Fin? && reverse ==> s == show(end) + Dots + show(start)
      ensures IsValid() && !end.Fin? ==> s == show(start) + Dots
    {
      if !IsValid() {
        return InvalidRange;
      }
      var chunks := [start];
      if end.Fin? {
        chunks := chunks + [end];
      }
      var res: seq<seq<CodeUnit>> := [];
      var i := 0;
      while i < |chunks|
        invariant 0 <= i <= |chunks|
        invariant |res| == i && forall k :: 0 <= k < i ==> res[k] == show(chunks[k])
      {
        res := res + [show(chunks[i])];
        i := i + 1;
      }
      if reverse {
        res := Reverse(res);
      }
      s := if |res| == 2 then res[0] + Dots + res[1] else res[0] + Dots;
    }
  }

  /** The bounds of `intersect`: later start and earlier end when the first is strictly below the second, NaN otherwise. */
  function IntersectBounds(s1: Num, e1: Num, s2: Num, e2: Num): (r: (Num, Num))
    ensures Lt(Max(s1, s2), Min(e1, e2)) ==> r == (Max(s1, s2), Min(e1, e2))
    ensures !Lt(Max(s1, s2), Min(e1, e2)) ==> r == (NaN, NaN)
  {
    var s := Max(s1, s2);
    var e := Min(e1, e2);
    if Lt(s, e) then (s, e) else (NaN, NaN)
  }

  /** The bounds and reverse flag of `union`, built by the constructor from the earlier start and the later end. */
  function UnionBounds(s1: Num, e1: Num, s2: Num, e2: Num): (r: (Num, Num, bool))
  {
    Normalize((Min(s1, s2), Max(e1, e2)))
  }

  /** `contains(range)` holds exactly when the later start lies strictly below the earlier end, so touching ranges do not contain each other. */
  lemma ContainsRangeSpec(a: Range, b: Range)
    ensures a.ContainsRange(b) <==> Lt(Max(a.start, b.start), Min(a.end, b.end))
    ensures a.start == b.end ==> !a.ContainsRange(b)
  {
    if a.start == b.end {
      assert !Lt(Max(a.start, b.start), Min(a.end, b.end)) by {
        if a.start != NaN && b.start != NaN && a.end != NaN && b.end != NaN {
          assert Le(a.start, Max(a.start, b.start));
          assert Le(Min(a.end, b.end), b.end);
        }
      }
    }
  }

  /** The union of two ordered ranges with known bounds contains both of them. */
  lemma UnionCovers(s1: Num, e1: Num, s2: Num, e2: Num, x: Num)
    requires s1 != NaN && e1 != NaN && s2 != NaN && e2 != NaN
    requires Le(s1, e1) && Le(s2, e2)
    ensures var u := UnionBounds(s1, e1, s2, e2);
      && !u.2
      && u.0 == Min(s1, s2) && u.1 == Max(e1, e2)
      && ((Le(s1, x) && Le(x, e1)) || (Le(s2, x) && Le(x, e2)) ==> Le(u.0, x) && Le(x, u.1))
  {
    LeTransitive(Min(s1, s2), s1, e1);
    LeTransitive(s1, e1, Max(e1, e2));
    if Le(s1, x) && Le(x, e1) {
      LeTransitive(Min(s1, s2), s1, x);
      LeTransitive(x, e1, Max(e1, e2));
    }
    if Le(s2, x) && Le(x, e2) {
      LeTransitive(Min(s1, s2), s2, x);
      LeTransitive(x, e2, Max(e1, e2));
    }
  }

  /** `span()` of a finite range counts exactly the values `toArray()` lists with the default step of 1. */
  lemma SpanCountsSteps(r: Range)
    requires r.IsValid() && r.Ordered() && r.start.Fin? && r.end.Fin? && r.end.v < MaxSafe
    ensures r.Span() == Fin(|Steps(r.start.v, r.end, 1)|)
  {
    StepsCount(r.start.v, r.end.v, 1);
  }

  /** On a valid range, `clamp` returns a value unchanged exactly when `contains` holds for it. */
  lemma ClampKeepsContained(r: Range, el: Arg)
    requires r.IsValid() && r.Ordered() && r.end != NaN && ValueOf(el) != NaN
    ensures r.ContainsValue(el) <==> r.Clamp(el) == ValueOf(el)
  {
  }
}
