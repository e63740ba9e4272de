/**
 * Localisation helpers of `core/i18n`: the module state (current language and
 * whether it is the default one), the dictionary normalisation done at load
 * time, the base lookup `i18n` and the two template-tag functions `t` and `l`.
 */
module I18n {
  import opened Wrappers

  predicate IsLineBreak(c: char) { c == '\r' || c == '\n' }

  predicate NoLineBreaks(s: string) { forall i :: 0 <= i < |s| ==> !IsLineBreak(s[i]) }

  predicate AllLineBreaks(s: string) { forall i :: 0 <= i < |s| ==> IsLineBreak(s[i]) }

  /** The part of `s` left after its leading run of CR/LF characters. */
  function DropBreaks(s: string): (r: string)
    ensures |r| <= |s| && r == s[|s| - |r|..]
    ensures r == [] || !IsLineBreak(r[0])
    ensures AllLineBreaks(s[..|s| - |r|])
  {
    if s != [] && IsLineBreak(s[0]) then DropBreaks(s[1..]) else s
  }

  /** `s.replace(/[\r\n]+/g, ' ')`: every maximal run of CR/LF becomes one space. */
  function Normalize(s: string): (r: string)
    ensures NoLineBreaks(r)
    ensures |r| <= |s|
    decreases |s|
  {
    if s == [] then []
    else if IsLineBreak(s[0]) then [' '] + Normalize(DropBreaks(s))
    else [s[0]] + Normalize(s[1..])
  }

  /** A string without line breaks is left unchanged. */
  lemma {:induction false} NormalizeClean(s: string)
    requires NoLineBreaks(s)
    ensures Normalize(s) == s
  {
    if s != [] { NormalizeClean(s[1..]); }
  }

  /** Normalising twice is normalising once. */
  lemma NormalizeIdempotent(s: string)
    ensures Normalize(Normalize(s)) == Normalize(s)
  {
    NormalizeClean(Normalize(s));
  }

  /** A clean prefix is kept, a run of breaks becomes one space, and the rest is normalised on its own. */
  lemma {:induction false} NormalizeRun(clean: string, run: string, rest: string)
    requires NoLineBreaks(clean)
    requires run != [] && AllLineBreaks(run)
    requires rest == [] || !IsLineBreak(rest[0])
    ensures Normalize(clean + run + rest) == clean + " " + Normalize(rest)
  {
    var s := clean + run + rest;
    if clean == [] {
      assert s == run + rest && IsLineBreak(s[0]);
      DropRun(run, rest);
      assert Normalize(s) == [' '] + Normalize(rest);
    } else {
      assert s[0] == clean[0] && s[1..] == clean[1..] + run + rest;
      NormalizeRun(clean[1..], run, rest);
      assert Normalize(s) == [clean[0]] + (clean[1..] + " " + Normalize(rest));
    }
  }

  lemma {:induction false} DropRun(run: string, rest: string)
    requires AllLineBreaks(run)
    requires rest == [] || !IsLineBreak(rest[0])
    ensures DropBreaks(run + rest) == rest
  {
    if run != [] {
      assert (run + rest)[1..] == run[1..] + rest;
      DropRun(run[1..], rest);
    }
  }

  /** One language of the `lang` module: an object of translations (in key order) or a non-object value. */
  datatype LangEntry = Table(entries: seq<(string, string)>) | NotAnObject

  /** The reduce at load time: every key and value normalised, a later key winning over an earlier equal one. */
  function NormalizeTable(entries: seq<(string, string)>): (m: map<string, string>)
  {
    if entries == [] then map[]
    else
      var last := entries[|entries| - 1];
      NormalizeTable(entries[..|entries| - 1])[Normalize(last.0) := Normalize(last.1)]
  }

  /** Every key and every value of a normalised table is free of line breaks, and the keys are exactly the normalised source keys. */
  lemma {:induction false} NormalizeTableSpec(entries: seq<(string, string)>)
    ensures forall k :: k in NormalizeTable(entries) ==> NoLineBreaks(k) && NoLineBreaks(NormalizeTable(entries)[k])
    ensures forall k :: k in NormalizeTable(entries) ==> exists i :: 0 <= i < |entries| && Normalize(entries[i].0) == k
    ensures forall i :: 0 <= i < |entries| ==> Normalize(entries[i].0) in NormalizeTable(entries)
  {
    if entries != [] {
      var init := entries[..|entries| - 1];
      NormalizeTableSpec(init);
      forall k | k in NormalizeTable(entries)
        ensures exists i :: 0 <= i < |entries| && Normalize(entries[i].0) == k
      {
        if k != Normalize(entries[|entries| - 1].0) {
          assert k in NormalizeTable(init);
          var i :| 0 <= i < |init| && Normalize(init[i].0) == k;
          assert entries[i] == init[i];
        }
      }
      forall i | 0 <= i < |entries| ensures Normalize(entries[i].0) in NormalizeTable(entries) {
        if i < |init| { assert entries[i] == init[i]; }
      }
    }
  }

  /** The value stored for a key is the normalised value of the last entry whose key normalises to it. */
  lemma {:induction false} NormalizeTableLastWins(entries: seq<(string, string)>, i: nat)
    requires i < |entries|
    requires forall j :: i < j < |entries| ==> Normalize(entries[j].0) != Normalize(entries[i].0)
    ensures Normalize(entries[i].0) in NormalizeTable(entries)
    ensures NormalizeTable(entries)[Normalize(entries[i].0)] == Normalize(entries[i].1)
  {
    if i < |entries| - 1 {
      var init := entries[..|entries| - 1];
      assert init[i] == entries[i];
      NormalizeTableLastWins(init, i);
    }
  }

  function NormalizeLangs(dict: map<string, LangEntry>): (langs: map<string, map<string, string>>)
  {
    map l | l in dict && dict[l].Table? :: NormalizeTable(dict[l].entries)
  }

  /** The argument of a template tag: `null`/`undefined`, a single non-array value (already turned into its string), or the literal segments. */
  datatype TagArg = Nullish | Scalar(s: string) | Segments(parts: seq<string>)

  /** Concatenation of a sequence of strings. */
  function Join(parts: seq<string>): string {
    if parts == [] then "" else Join(parts[..|parts| - 1]) + parts[|parts| - 1]
  }

  /** `exprs[i]` when that index exists, the empty string otherwise. */
  function ExprAt(exprs: seq<string>, i: nat): string {
    if i < |exprs| then exprs[i] else ""
  }

  /** Segment, substitution, segment, substitution, ...: each segment followed by the substitution of its index, if any. */
  function Interleave(parts: seq<string>, exprs: seq<string>): string {
    Join(seq(|parts|, i requires 0 <= i < |parts| => parts[i] + ExprAt(exprs, i)))
  }

  /** Appending one segment appends it and its substitution. */
  lemma InterleaveSnoc(parts: seq<string>, p: string, exprs: seq<string>)
    ensures Interleave(parts + [p], exprs) == Interleave(parts, exprs) + (p + ExprAt(exprs, |parts|))
  {
    var f := seq(|parts| + 1, i requires 0 <= i < |parts| + 1 => (parts + [p])[i] + ExprAt(exprs, i));
    var g := seq(|parts|, i requires 0 <= i < |parts| => parts[i] + ExprAt(exprs, i));
    assert f[..|parts|] == g;
  }

  /** Without substitutions the interleaving is the plain concatenation of the segments. */
  lemma {:induction false} InterleaveNoExprs(parts: seq<string>)
    ensures Interleave(parts, []) == Join(parts)
  {
    if parts != [] {
      var init := parts[..|parts| - 1];
      InterleaveNoExprs(init);
      assert parts == init + [parts[|parts| - 1]];
      InterleaveSnoc(init, parts[|parts| - 1], []);
      assert parts[|parts| - 1] + ExprAt([], |init|) == parts[|parts| - 1];
    }
  }

  /** Substitutions past the last segment are never used. */
  lemma {:induction false} InterleaveIgnoresExtra(parts: seq<string>, exprs: seq<string>, extra: seq<string>)
    requires |parts| <= |exprs|
    ensures Interleave(parts, exprs + extra) == Interleave(parts, exprs)
  {
    if parts != [] {
      var init := parts[..|parts| - 1];
      InterleaveIgnoresExtra(init, exprs, extra);
      assert parts == init + [parts[|parts| - 1]];
      InterleaveSnoc(init, parts[|parts| - 1], exprs);
      InterleaveSnoc(init, parts[|parts| - 1], exprs + extra);
    }
  }

  class Localizer {
    /** The dictionaries of the `lang` module, by language, as loaded. */
    const dict: map<string, LangEntry>
    /** System language (`undefined` before the first `setLang` is modelled as ""). */
    var lang: string
    /** True when the language is the system default one. */
    var isLangDef: bool

    constructor (dict: map<string, LangEntry>, initial: string, def: bool)
      ensures this.dict == dict && lang == initial && isLangDef == def
    {
      this.dict := dict;
      lang := initial;
      isLangDef := def;
    }

    /** `setLang(value, def)`: the state part; `def` absent is passed as false. */
    method SetLang(value: string, def: bool) returns (r: string)
      modifies this
      ensures lang == value && isLangDef == def && r == value
    {
      lang := value;
      isLangDef := def;
      r := lang;
    }

    /** The normalised dictionaries (`langs`), computed once at load time in the source. */
    function Langs(): map<string, map<string, string>> {
      NormalizeLangs(dict)
    }

    /** The base lookup `i18n(str, defLang)`; `None` for `defLang` means the current language. */
    function Translate(str: string, defLang: Option<string>): string
      reads this
    {
      var l := defLang.GetOr(lang);
      var langs := Langs();
      if l != "" && l in langs && str in langs[l] then langs[l][str] else str
    }

    /** Every segment looked up with `i18n` in the current language. */
    function TranslateAll(parts: seq<string>): (r: seq<string>)
      reads this
      ensures |r| == |parts|
      ensures forall i :: 0 <= i < |parts| ==> r[i] == Translate(parts[i], None)
    {
      if parts == [] then [] else TranslateAll(parts[..|parts| - 1]) + [Translate(parts[|parts| - 1], None)]
    }

    lemma TranslateAllSnoc(parts: seq<string>, i: nat)
      requires i < |parts|
      ensures TranslateAll(parts[..i + 1]) == TranslateAll(parts[..i]) + [Translate(parts[i], None)]
    {
      assert parts[..i + 1][..i] == parts[..i];
    }

    /** `t(strings, ...exprs)`. */
    method T(strings: TagArg, exprs: seq<string>) returns (str: string)
      ensures strings.Nullish? ==> str == ""
      ensures strings.Scalar? ==> str == Translate(strings.s, None)
      ensures strings.Segments? ==> str == Interleave(TranslateAll(strings.parts), exprs)
    {
      if strings.Nullish? { return ""; }
      if strings.Scalar? { return Translate(strings.s, None); }
      var parts := strings.parts;
      str := "";
      if |exprs| == 0 {
        var i := 0;
        while i < |parts|
          invariant 0 <= i <= |parts|
          invariant str == Interleave(TranslateAll(parts[..i]), exprs)
        {
          TranslateAllSnoc(parts, i);
          InterleaveSnoc(TranslateAll(parts[..i]), Translate(parts[i], None), exprs);
          str := str + Translate(parts[i], None);
          i := i + 1;
        }
      } else {
        var i := 0;
        while i < |parts|
          invariant 0 <= i <= |parts|
          invariant str == Interleave(TranslateAll(parts[..i]), exprs)
        {
          TranslateAllSnoc(parts, i);
          InterleaveSnoc(TranslateAll(parts[..i]), Translate(parts[i], None), exprs);
          str := str + (Translate(parts[i], None) + (if i < |exprs| then exprs[i] else ""));
          i := i + 1;
        }
      }
      assert parts[..|parts|] == parts;
    }

    /** `l(strings, ...exprs)`: the same interleaving with no translation. */
    method L(strings: TagArg, exprs: seq<string>) returns (str: string)
      ensures strings.Nullish? ==> str == ""
      ensures strings.Scalar? ==> str == strings.s
      ensures strings.Segments? && |strings.parts| == 1 ==> str == strings.parts[0]
      ensures strings.Segments? && |strings.parts| != 1 ==> str == Interleave(strings.parts, exprs)
    {
      if strings.Nullish? { return ""; }
      if strings.Scalar? { return strings.s; }
      var parts := strings.parts;
      if |parts| == 1 { return parts[0]; }
      str := "";
      var i := 0;
      while i < |parts|
        invariant 0 <= i <= |parts|
        invariant str == Interleave(parts[..i], exprs)
      {
        assert parts[..i + 1] == parts[..i] + [parts[i]];
        InterleaveSnoc(parts[..i], parts[i], exprs);
        str := str + (parts[i] + (if i < |exprs| then exprs[i] else ""));
        i := i + 1;
      }
      assert parts[..|parts|] == parts;
    }

    /**
     * `i18n` gives the entry of the chosen language when there is one and the string
     * itself otherwise; a found entry has no line breaks, and a string that has one is
     * never found, so it comes back unchanged.
     */
    lemma TranslateResult(str: string, defLang: Option<string>)
      ensures var l := defLang.GetOr(lang); var r := Translate(str, defLang);
        && (l == "" ==> r == str)
        && (l != "" && l in Langs() && str in Langs()[l] ==> r == Langs()[l][str] && NoLineBreaks(r))
        && (l != "" && !(l in Langs() && str in Langs()[l]) ==> r == str)
        && (!NoLineBreaks(str) ==> r == str)
    {
      var l := defLang.GetOr(lang);
      if l in Langs() {
        NormalizeTableSpec(dict[l].entries);
      }
    }
  }
}
