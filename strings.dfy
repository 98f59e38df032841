/**
 * The few Python string operations the crawler relies on: `str(int)`, `int(str)`,
 * `s[:n]`, `os.path.basename` and `os.path.join` (POSIX flavour).
 */
module Strings {
  import opened Wrappers

  predicate IsDigit(c: char) { '0' <= c <= '9' }

  function DigitChar(d: nat): (c: char)
    requires d < 10
    ensures IsDigit(c)
  {
    (d + '0' as int) as char
  }

  function DigitValue(c: char): (d: nat)
    requires IsDigit(c)
    ensures d < 10
  {
    c as int - '0' as int
  }

  /** Decimal digits of a natural number, most significant first, no leading zero. */
  function Digits(n: nat): (r: string)
    ensures |r| > 0
    ensures forall i :: 0 <= i < |r| ==> IsDigit(r[i])
  {
    if n < 10 then [DigitChar(n)] else Digits(n / 10) + [DigitChar(n % 10)]
  }

  /** Python's `str(n)` for an integer. */
  function Decimal(n: int): (r: string)
    ensures |r| > 0
    ensures forall i :: 0 <= i < |r| ==> IsDigit(r[i]) || r[i] == '-'
    ensures IsDigit(r[|r| - 1])
  {
    if n < 0 then "-" + Digits(-n) else Digits(n)
  }

  /** The number a non-empty run of decimal digits denotes. */
  function DigitsValue(s: string): nat
    requires forall i :: 0 <= i < |s| ==> IsDigit(s[i])
  {
    if s == [] then 0 else DigitsValue(s[..|s| - 1]) * 10 + DigitValue(s[|s| - 1])
  }

  lemma {:induction false} DigitsRoundTrip(n: nat)
    ensures DigitsValue(Digits(n)) == n
  {
    if n >= 10 {
      var s := Digits(n);
      assert s[..|s| - 1] == Digits(n / 10);
      DigitsRoundTrip(n / 10);
    }
  }

  /** The whitespace `int()` strips around its argument (ASCII part). */
  predicate IsSpace(c: char) {
    c == ' ' || c == '\t' || c == '\n' || c == '\r' || c == '\U{000B}' || c == '\U{000C}'
    || '\U{001C}' <= c <= '\U{001F}'
  }

  function TrimLeft(s: string): string {
    if s != [] && IsSpace(s[0]) then TrimLeft(s[1..]) else s
  }

  function TrimRight(s: string): string {
    if s != [] && IsSpace(s[|s| - 1]) then TrimRight(s[..|s| - 1]) else s
  }

  predicate AllDigits(s: string) { forall i :: 0 <= i < |s| ==> IsDigit(s[i]) }

  /**
   * Python's `int(s)` on a base-10 string: surrounding whitespace is ignored, an optional
   * sign is followed by at least one digit; anything else raises (here: None).
   */
  function ParseInt(s: string): Option<int> {
    ParseSigned(TrimRight(TrimLeft(s)))
  }

  /** `int` of text already stripped of surrounding whitespace. */
  function ParseSigned(t: string): Option<int> {
    if t != [] && (t[0] == '-' || t[0] == '+') then
      if |t| > 1 && AllDigits(t[1..]) then
        var v: int := DigitsValue(t[1..]);
        Some(if t[0] == '-' then -v else v)
      else None
    else if t != [] && AllDigits(t) then Some(DigitsValue(t))
    else None
  }

  /** `int` accepts exactly digits, after an optional sign, between optional whitespace. */
  lemma ParseIntShape(s: string)
    ensures ParseInt(s).Some? <==>
      exists t :: t != [] && AllDigits(t) && TrimRight(TrimLeft(s)) in {t, "-" + t, "+" + t}
  {
    var u := TrimRight(TrimLeft(s));
    if ParseInt(s).Some? {
      if u[0] == '-' || u[0] == '+' {
        assert u == [u[0]] + u[1..];
        assert u in {u[1..], "-" + u[1..], "+" + u[1..]};
      } else {
        assert u in {u, "-" + u, "+" + u};
      }
    } else {
      forall t | t != [] && AllDigits(t) ensures u !in {t, "-" + t, "+" + t} {
        if u == "-" + t || u == "+" + t {
          assert false;
        }
      }
    }
  }

  /** `int(str(n)) == n`. */
  lemma DecimalRoundTrip(n: int)
    ensures ParseInt(Decimal(n)) == Some(n)
  {
    if n < 0 {
      var d := Digits(-n);
      assert d[0] != '-';
      ParseIntSigned(d);
      DigitsRoundTrip(-n);
    } else {
      ParseIntDigits(Digits(n));
      DigitsRoundTrip(n);
    }
  }

  /** Text with no whitespace at either end is left as it is by the trimming. */
  lemma TrimNothing(s: string)
    requires s != [] && !IsSpace(s[0]) && !IsSpace(s[|s| - 1])
    ensures TrimRight(TrimLeft(s)) == s
  {
    assert TrimLeft(s) == s;
  }

  /** `int` of an unsigned run of digits. */
  lemma ParseIntDigits(t: string)
    requires t != [] && AllDigits(t)
    ensures ParseInt(t) == Some(DigitsValue(t))
  {
    TrimNothing(t);
  }

  /** `int` of a run of digits after a minus sign. */
  lemma ParseIntSigned(t: string)
    requires t != [] && AllDigits(t)
    ensures ParseInt("-" + t) == Some(-(DigitsValue(t) as int))
  {
    var s := "-" + t;
    assert s[1..] == t;
    assert ParseSigned(s) == Some(-(DigitsValue(t) as int));
    assert s[|s| - 1] == t[|t| - 1];
    TrimNothing(s);
  }

  /** Decimal numerals are distinct for distinct numbers. */
  lemma DecimalInjective(a: int, b: int)
    requires Decimal(a) == Decimal(b)
    ensures a == b
  {
    DecimalRoundTrip(a);
    DecimalRoundTrip(b);
  }

  /** Python's `s[:n]` for `n >= 0`. */
  function Prefix(s: string, n: nat): (r: string)
    ensures |r| == if |s| < n then |s| else n
    ensures r == s[..|r|]
  {
    if |s| <= n then s else s[..n]
  }

  /** `os.path.basename`: the part after the last `/`, the whole path when it has none. */
  function Basename(p: string): (r: string)
    ensures |r| <= |p| && r == p[|p| - |r|..]
    ensures '/' !in r
    ensures |r| < |p| ==> p[|p| - |r| - 1] == '/'
  {
    if p == [] || p[|p| - 1] == '/' then [] else Basename(p[..|p| - 1]) + [p[|p| - 1]]
  }

  /** The basename of a path whose last `/` precedes `t` is `t`. */
  lemma {:induction false} BasenameAfterSlash(a: string, t: string)
    requires a != [] && a[|a| - 1] == '/' && '/' !in t
    ensures Basename(a + t) == t
    decreases |t|
  {
    if t == [] {
      assert a + t == a;
    } else {
      assert (a + t)[..|a + t| - 1] == a + t[..|t| - 1];
      BasenameAfterSlash(a, t[..|t| - 1]);
    }
  }

  /** `os.path.join(a, b)`: an absolute `b` wins, otherwise one `/` separates the parts. */
  function Join(a: string, b: string): (r: string)
    ensures b != [] && b[0] == '/' ==> r == b
    ensures (b == [] || b[0] != '/') ==> |r| >= |a| + |b| && r[..|a|] == a && r[|r| - |b|..] == b
    ensures (b == [] || b[0] != '/') && (a == [] || a[|a| - 1] == '/') ==> |r| == |a| + |b|
    ensures (b == [] || b[0] != '/') && a != [] && a[|a| - 1] != '/' ==> |r| == |a| + 1 + |b| && r[|a|] == '/'
  {
    if b != [] && b[0] == '/' then b
    else if a == [] || a[|a| - 1] == '/' then a + b
    else a + "/" + b
  }

  /** For a fixed directory, joining is injective in the relative name. */
  lemma JoinInjective(a: string, b1: string, b2: string)
    requires b1 != [] && b1[0] != '/' && b2 != [] && b2[0] != '/'
    requires Join(a, b1) == Join(a, b2)
    ensures b1 == b2
  {
    var r := Join(a, b1);
    if a == [] || a[|a| - 1] == '/' {
      assert b1 == r[|a|..] == b2;
    } else {
      assert b1 == r[|a| + 1..] == b2;
    }
  }
}
