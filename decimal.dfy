/** Decimal text and integers as Python converts between them:
    `str(n)`, `int(s)` and `s.isdigit()`. Log and note keys are the
    decimal text of a Unix time, so these conversions decide both how
    records are keyed and how they are ordered. */
module Decimal {
  import opened Common
  import opened Strings

  predicate IsDigit(c: char)
  {
    '0' <= c <= '9'
  }

  predicate AllDigits(s: string)
  {
    forall i :: 0 <= i < |s| ==> IsDigit(s[i])
  }

  /** `s.isdigit()`, restricted to ASCII digits. */
  predicate IsDigits(s: string)
  {
    |s| > 0 && AllDigits(s)
  }

  function DigitValue(c: char): nat
    requires IsDigit(c)
  {
    c as int - '0' as int
  }

  function DigitChar(d: nat): (c: char)
    requires d < 10
    ensures IsDigit(c) && DigitValue(c) == d
  {
    ('0' as int + d) as char
  }

  /** The value of a string of digits, most significant first. */
  function DigitsValue(s: string): nat
    requires AllDigits(s)
  {
    if |s| == 0 then 0 else DigitsValue(s[..|s| - 1]) * 10 + DigitValue(s[|s| - 1])
  }

  /** Digit text without superfluous leading zeros, as `str` writes it. */
  predicate Canonical(s: string)
  {
    IsDigits(s) && (s[0] != '0' || |s| == 1)
  }

  /** `str(n)` for a natural number. */
  function NatToString(n: nat): (s: string)
    ensures Canonical(s) && DigitsValue(s) == n
  {
    if n < 10 then [DigitChar(n)]
    else
      var s := NatToString(n / 10) + [DigitChar(n % 10)];
      assert s[..|s| - 1] == NatToString(n / 10);
      s
  }

  /** `str(n)` */
  function IntToString(n: int): string
  {
    if n < 0 then "-" + NatToString(-n) else NatToString(n)
  }

  /** The ASCII characters Python's `int()` ignores around a number:
      blank, tab to carriage return, and the four separators. */
  predicate IsSpace(c: char)
  {
    c == ' ' || '\t' <= c <= '\r' || '\U{1C}' <= c <= '\U{1F}'
  }

  function StripLeft(s: string): string
  {
    if |s| > 0 && IsSpace(s[0]) then StripLeft(s[1..]) else s
  }

  function StripRight(s: string): string
  {
    if |s| > 0 && IsSpace(s[|s| - 1]) then StripRight(s[..|s| - 1]) else s
  }

  function Strip(s: string): string
  {
    StripRight(StripLeft(s))
  }

  /** Digits, where single underscores may stand between two digits, as
      `int()` accepts them. */
  predicate IsNumeral(t: string)
  {
    && |t| > 0 && DigitsOrUnderscores(t)
    && forall i :: 0 <= i < |t| && t[i] == '_' ==> BetweenDigits(t, i)
  }

  /** Position `i` of `t` has a digit on either side. */
  predicate BetweenDigits(t: string, i: int)
  {
    0 < i < |t| - 1 && IsDigit(t[i - 1]) && IsDigit(t[i + 1])
  }

  predicate DigitsOrUnderscores(t: string)
  {
    forall i :: 0 <= i < |t| ==> IsDigit(t[i]) || t[i] == '_'
  }

  /** The digits of a numeral, its underscores dropped. */
  function DigitsOnly(t: string): (d: string)
    requires DigitsOrUnderscores(t)
    ensures AllDigits(d) && |d| <= |t|
    ensures AllDigits(t) ==> d == t
  {
    if |t| == 0 then ""
    else
      var init := DigitsOnly(t[..|t| - 1]);
      if t[|t| - 1] == '_' then init else init + [t[|t| - 1]]
  }

  /** The value of a numeral. */
  function NumeralValue(t: string): nat
    requires IsNumeral(t)
  {
    DigitsValue(DigitsOnly(t))
  }

  /** `int(s)`: surrounding white space, an optional sign, then a numeral;
      anything else raises ValueError, modelled as None. */
  function ParseInt(s: string): Option<int>
  {
    var t := Strip(s);
    if IsNumeral(t) then Some(NumeralValue(t))
    else if |t| >= 2 && (t[0] == '-' || t[0] == '+') && IsNumeral(t[1..]) then
      var magnitude: int := NumeralValue(t[1..]);
      Some(if t[0] == '-' then -magnitude else magnitude)
    else None
  }

  /** The value `int(s)` gives where it gives one; only ever read at
      strings known to parse. */
  function IntValue(s: string): int
  {
    var v := ParseInt(s);
    if v.Some? then v.value else 0
  }

  /** Plain digits are a numeral of the same value. */
  lemma DigitsAreNumeral(s: string)
    requires IsDigits(s)
    ensures IsNumeral(s) && NumeralValue(s) == DigitsValue(s)
  {
  }

  /** A numeral never starts with a sign. */
  lemma SignIsNoNumeral(s: string)
    requires |s| > 0 && (s[0] == '-' || s[0] == '+')
    ensures !IsNumeral(s)
  {
    assert !IsDigit(s[0]) && s[0] != '_';
  }

  lemma ConcatDigitsOrUnderscores(x: string, y: string)
    requires DigitsOrUnderscores(x) && DigitsOrUnderscores(y)
    ensures DigitsOrUnderscores(x + y)
  {
    var xy := x + y;
    forall i | 0 <= i < |xy|
      ensures IsDigit(xy[i]) || xy[i] == '_'
    {
      if i >= |x| {
        assert xy[i] == y[i - |x|];
      }
    }
  }

  lemma {:induction false} DigitsOnlyConcat(x: string, y: string)
    requires DigitsOrUnderscores(x) && DigitsOrUnderscores(y)
    ensures DigitsOrUnderscores(x + y)
    ensures DigitsOnly(x + y) == DigitsOnly(x) + DigitsOnly(y)
    decreases |y|
  {
    ConcatDigitsOrUnderscores(x, y);
    if |y| == 0 {
      assert x + y == x;
    } else {
      var xy := x + y;
      var init := y[..|y| - 1];
      var c := y[|y| - 1];
      assert DigitsOrUnderscores(init);
      assert xy[..|xy| - 1] == x + init;
      assert xy[|xy| - 1] == c;
      DigitsOnlyConcat(x, init);
      var d := DigitsOnly(x);
      var e := DigitsOnly(init);
      assert DigitsOnly(xy) == if c == '_' then d + e else (d + e) + [c];
      assert DigitsOnly(y) == if c == '_' then e else e + [c];
      assert (d + e) + [c] == d + (e + [c]);
    }
  }

  /** `int()` reads digits with an underscore between two of them as the
      digits alone: `int("1_0") == 10`. */
  lemma UnderscoreIgnored(a: string, b: string)
    requires IsDigits(a) && IsDigits(b)
    ensures ParseInt(a + "_" + b) == ParseInt(a + b)
    ensures ParseInt(a + b).Some?
  {
    var t := a + "_" + b;
    assert IsNumeral(t) by {
      forall i | 0 <= i < |t|
        ensures IsDigit(t[i]) || i == |a|
      {
        if i < |a| {
          assert t[i] == a[i];
        } else if i > |a| {
          assert t[i] == b[i - |a| - 1];
        }
      }
      assert t[|a|] == '_' && t[|a| - 1] == a[|a| - 1] && t[|a| + 1] == b[0];
    }
    assert t[0] == a[0] && t[|t| - 1] == b[|b| - 1];
    StripUnchanged(t);
    StripUnchanged(a + b);
    DigitsOnlyConcat(a + "_", b);
    assert (a + "_")[..|a|] == a;
    DigitsAreNumeral(a + b);
    assert AllDigits(a + b);
  }

  lemma StripUnchanged(s: string)
    requires |s| > 0 && !IsSpace(s[0]) && !IsSpace(s[|s| - 1])
    ensures Strip(s) == s
  {
  }

  /** `int(str(n)) == n`: a record's key gives back its time stamp. */
  lemma {:induction false} ParseShowsInverse(n: int)
    ensures ParseInt(IntToString(n)) == Some(n)
  {
    var t := IntToString(n);
    var digits := NatToString(if n < 0 then -n else n);
    assert IsDigit(digits[|digits| - 1]);
    StripUnchanged(t);
    DigitsAreNumeral(digits);
    if n < 0 {
      assert t[1..] == digits;
      SignIsNoNumeral(t);
    }
  }

  /** Different numbers have different keys. */
  lemma IntToStringInjective(m: int, n: int)
    requires IntToString(m) == IntToString(n)
    ensures m == n
  {
    ParseShowsInverse(m);
    ParseShowsInverse(n);
  }

  lemma {:induction false} LeadingDigitPositive(s: string)
    requires IsDigits(s) && s[0] != '0'
    ensures DigitsValue(s) >= 1
    decreases |s|
  {
    if |s| > 1 {
      LeadingDigitPositive(s[..|s| - 1]);
    }
  }

  /** `str(int(s)) == s` for canonical digit text: the two conversions are
      inverse bijections between naturals and canonical text. */
  lemma {:induction false} ShowParsesInverse(s: string)
    requires Canonical(s)
    ensures NatToString(DigitsValue(s)) == s
    decreases |s|
  {
    var v := DigitsValue(s);
    if |s| > 1 {
      var init := s[..|s| - 1];
      LeadingDigitPositive(init);
      assert v / 10 == DigitsValue(init) && v % 10 == DigitValue(s[|s| - 1]);
      ShowParsesInverse(init);
      assert s == init + [s[|s| - 1]];
    }
  }

  function Pow10(k: nat): (p: nat)
    ensures p >= 1
  {
    if k == 0 then 1 else 10 * Pow10(k - 1)
  }

  lemma {:induction false} DigitsBound(s: string)
    requires AllDigits(s)
    ensures DigitsValue(s) < Pow10(|s|)
    decreases |s|
  {
    if |s| > 0 {
      DigitsBound(s[..|s| - 1]);
    }
  }

  lemma ShiftDigit(d: int, p: int, r: int, last: int)
    ensures (d * p + r) * 10 + last == d * (10 * p) + (r * 10 + last)
  {
  }

  /** The value split at the most significant digit. */
  lemma {:induction false} DigitsFront(s: string)
    requires IsDigits(s)
    ensures DigitsValue(s) == DigitValue(s[0]) * Pow10(|s| - 1) + DigitsValue(s[1..])
    decreases |s|
  {
    if |s| > 1 {
      var init := s[..|s| - 1];
      DigitsFront(init);
      assert init[1..] == s[1..][..|s| - 2];
      ShiftDigit(DigitValue(s[0]), Pow10(|s| - 2), DigitsValue(init[1..]), DigitValue(s[|s| - 1]));
    }
  }

  lemma {:induction false} MulAtLeast(k: int, p: int)
    requires k >= 1 && p >= 0
    ensures k * p >= p
    decreases k
  {
    if k > 1 {
      MulAtLeast(k - 1, p);
      assert k * p == (k - 1) * p + p;
    }
  }

  /** Division with remainder is unique. */
  lemma DivUnique(m: int, p: int, q: int, r: int)
    requires p >= 1 && 0 <= r < p && m == q * p + r
    ensures m / p == q && m % p == r
  {
    var q', r' := m / p, m % p;
    assert q' * p + r' == q * p + r;
    if q' > q {
      MulAtLeast(q' - q, p);
    } else if q' < q {
      MulAtLeast(q - q', p);
    }
  }

  /** One more divisor's worth adds one to the quotient. */
  lemma DivStep(n: int, p: int)
    requires p >= 1
    ensures (n + p) / p == n / p + 1 && (n + p) % p == n % p
  {
    DivUnique(n + p, p, n / p + 1, n % p);
  }

  lemma LeadingDigitDecides(x: int, y: int, p: int, a: int, b: int)
    requires x < y && 0 <= a < p && 0 <= b
    ensures x * p + a < y * p + b
  {
    MulAtLeast(y - x, p);
    assert y * p == x * p + (y - x) * p;
  }

  /** Between digit strings of equal length, string order is numeric
      order. */
  lemma {:induction false} StrLtIsNumericLt(a: string, b: string)
    requires AllDigits(a) && AllDigits(b) && |a| == |b|
    ensures StrLt(a, b) <==> DigitsValue(a) < DigitsValue(b)
    decreases |a|
  {
    if |a| > 0 {
      DigitsFront(a);
      DigitsFront(b);
      DigitsBound(a[1..]);
      DigitsBound(b[1..]);
      StrLtIsNumericLt(a[1..], b[1..]);
      var p := Pow10(|a| - 1);
      var x, y := DigitValue(a[0]), DigitValue(b[0]);
      if x < y {
        LeadingDigitDecides(x, y, p, DigitsValue(a[1..]), DigitsValue(b[1..]));
      } else if y < x {
        LeadingDigitDecides(y, x, p, DigitsValue(b[1..]), DigitsValue(a[1..]));
      }
    }
  }
}
