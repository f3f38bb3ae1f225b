/** The two string operations of Python's `str` that the modelled code
    relies on: the ordering `<` (lexicographic by code point, a proper
    prefix first) and `split(sep)` with its inverse `sep.join(parts)`. */
module Strings {

  /** Python's `a < b` on strings. */
  predicate StrLt(a: string, b: string)
  {
    if |a| == 0 then |b| > 0
    else if |b| == 0 then false
    else a[0] < b[0] || (a[0] == b[0] && StrLt(a[1..], b[1..]))
  }

  lemma StrLtIrreflexive(a: string)
    ensures !StrLt(a, a)
  {
  }

  lemma StrLtAsymmetric(a: string, b: string)
    ensures StrLt(a, b) ==> !StrLt(b, a)
  {
  }

  lemma StrLtTransitive(a: string, b: string, c: string)
    requires StrLt(a, b) && StrLt(b, c)
    ensures StrLt(a, c)
  {
  }

  lemma StrLtTotal(a: string, b: string)
    ensures a == b || StrLt(a, b) || StrLt(b, a)
  {
  }

  /** `sep.join(parts)` */
  function Join(parts: seq<string>, sep: char): string
  {
    if |parts| == 0 then ""
    else if |parts| == 1 then parts[0]
    else parts[0] + [sep] + Join(parts[1..], sep)
  }

  /** `s.split(sep)` with an explicit one-character separator: every
      occurrence of `sep` cuts, so empty fields are kept. The contract
      characterises the result completely: fields free of `sep` that
      join back to `s`. */
  function Split(s: string, sep: char): (parts: seq<string>)
    ensures |parts| >= 1
    ensures forall i :: 0 <= i < |parts| ==> sep !in parts[i]
    ensures Join(parts, sep) == s
    decreases |s|
  {
    if |s| == 0 then [""]
    else
      var rest := Split(s[1..], sep);
      if s[0] == sep then
        assert s == [sep] + s[1..];
        [""] + rest
      else
        var parts := [[s[0]] + rest[0]] + rest[1..];
        assert parts[1..] == rest[1..];
        assert s == [s[0]] + s[1..];
        parts
  }

  lemma {:induction false} JoinSnoc(parts: seq<string>, x: string, sep: char)
    requires |parts| >= 1
    ensures Join(parts + [x], sep) == Join(parts, sep) + [sep] + x
    decreases |parts|
  {
    if |parts| == 1 {
      assert Join(parts + [x], sep) == parts[0] + [sep] + Join([x], sep);
    } else {
      assert (parts + [x])[1..] == parts[1..] + [x];
      JoinSnoc(parts[1..], x, sep);
    }
  }

  lemma {:induction false} JoinHasSep(parts: seq<string>, sep: char)
    requires |parts| >= 2
    ensures sep in Join(parts, sep)
  {
    var j := Join(parts, sep);
    assert j == parts[0] + [sep] + Join(parts[1..], sep);
    assert j[|parts[0]|] == sep;
  }

  /** The last field of `s.split(sep)`: `s.split(sep)[-1]`. */
  function LastField(s: string, sep: char): string
  {
    var parts := Split(s, sep);
    parts[|parts| - 1]
  }

  /** Every field but the last, joined again: `sep.join(s.split(sep)[:-1])`. */
  function AllButLast(s: string, sep: char): string
  {
    var parts := Split(s, sep);
    Join(parts[..|parts| - 1], sep)
  }

  /** Splitting on `sep` and re-joining all fields but the last cuts `s`
      at its LAST separator only: what comes before may itself contain
      separators, what comes after contains none. */
  lemma CutAtLastSeparator(s: string, sep: char)
    ensures sep !in LastField(s, sep)
    ensures sep in s ==> s == AllButLast(s, sep) + [sep] + LastField(s, sep)
    ensures sep !in s ==> AllButLast(s, sep) == "" && LastField(s, sep) == s
  {
    var parts := Split(s, sep);
    var n := |parts|;
    if n >= 2 {
      assert parts == parts[..n - 1] + [parts[n - 1]];
      JoinSnoc(parts[..n - 1], parts[n - 1], sep);
      JoinHasSep(parts, sep);
    } else {
      assert Join(parts, sep) == parts[0];
    }
  }

  lemma NoSeparatorInTail(s: string, sep: char, tail: string, i: int)
    requires |tail| <= |s| && s[|s| - |tail|..] == tail && sep !in tail
    requires |s| - |tail| <= i < |s|
    ensures s[i] != sep
  {
    assert s[i] == tail[i - (|s| - |tail|)];
  }

  /** The cut is the only one whose tail is free of the separator: any
      `a + [sep] + b` with no `sep` in `b` is cut into `a` and `b`. */
  lemma {:induction false} CutIsUnique(s: string, sep: char, a: string, b: string)
    requires s == a + [sep] + b && sep !in b
    ensures AllButLast(s, sep) == a && LastField(s, sep) == b
  {
    assert s[|a|] == sep;
    CutAtLastSeparator(s, sep);
    var x, y := AllButLast(s, sep), LastField(s, sep);
    assert s[|s| - |y| - 1] == sep && s[|s| - |b| - 1] == sep;
    if |y| < |b| {
      NoSeparatorInTail(s, sep, b, |s| - |y| - 1);
    }
    if |b| < |y| {
      NoSeparatorInTail(s, sep, y, |s| - |b| - 1);
    }
    assert y == s[|s| - |y|..] == b;
    assert x == s[..|x|] == a;
  }
}
