/**
 * `html.unescape` restricted to the character references a Hacker News comment body uses:
 * every numeric reference (`&#NN;`, `&#xHH;`, the `;` optional as in Python) with the
 * replacements of the WHATWG HTML Living Standard's numeric character reference rules,
 * and the named references `&amp;`, `&lt;`, `&gt;`, `&quot;` (section 13.5 of the WHATWG HTML
 * Living Standard lists them with and without the trailing `;`). Any other `&` is left as it is.
 */
module Html {
  import opened Wrappers
  import opened Strings

  /** A character reference found at the start of a text: its length and its replacement. */
  datatype CharRef = CharRef(len: nat, text: string)

  predicate IsHexDigit(c: char) { IsDigit(c) || 'a' <= c <= 'f' || 'A' <= c <= 'F' }

  function HexDigitValue(c: char): (d: nat)
    requires IsHexDigit(c)
    ensures d < 16
  {
    if IsDigit(c) then DigitValue(c)
    else if 'a' <= c <= 'f' then c as int - 'a' as int + 10
    else c as int - 'A' as int + 10
  }

  /** The number a run of hexadecimal digits denotes. */
  function HexValue(s: string): nat
    requires forall i :: 0 <= i < |s| ==> IsHexDigit(s[i])
  {
    if s == [] then 0 else HexValue(s[..|s| - 1]) * 16 + HexDigitValue(s[|s| - 1])
  }

  /** Length of the longest run of decimal digits starting at `k`. */
  function DigitRun(s: string, k: nat): (n: nat)
    requires k <= |s|
    ensures k + n <= |s|
    ensures forall i :: k <= i < k + n ==> IsDigit(s[i])
    ensures k + n == |s| || !IsDigit(s[k + n])
    decreases |s| - k
  {
    if k < |s| && IsDigit(s[k]) then 1 + DigitRun(s, k + 1) else 0
  }

  /** Length of the longest run of hexadecimal digits starting at `k`. */
  function HexRun(s: string, k: nat): (n: nat)
    requires k <= |s|
    ensures k + n <= |s|
    ensures forall i :: k <= i < k + n ==> IsHexDigit(s[i])
    ensures k + n == |s| || !IsHexDigit(s[k + n])
    decreases |s| - k
  {
    if k < |s| && IsHexDigit(s[k]) then 1 + HexRun(s, k + 1) else 0
  }

  /** Code points 0x00, 0x0D and 0x80-0x9F are read as Windows-1252 bytes. */
  const INVALID_CHARREFS: map<int, char> := map[
    0x00 := '\U{FFFD}', 0x0D := '\r',
    0x80 := '\U{20AC}', 0x81 := '\U{0081}', 0x82 := '\U{201A}', 0x83 := '\U{0192}',
    0x84 := '\U{201E}', 0x85 := '\U{2026}', 0x86 := '\U{2020}', 0x87 := '\U{2021}',
    0x88 := '\U{02C6}', 0x89 := '\U{2030}', 0x8A := '\U{0160}', 0x8B := '\U{2039}',
    0x8C := '\U{0152}', 0x8D := '\U{008D}', 0x8E := '\U{017D}', 0x8F := '\U{008F}',
    0x90 := '\U{0090}', 0x91 := '\U{2018}', 0x92 := '\U{2019}', 0x93 := '\U{201C}',
    0x94 := '\U{201D}', 0x95 := '\U{2022}', 0x96 := '\U{2013}', 0x97 := '\U{2014}',
    0x98 := '\U{02DC}', 0x99 := '\U{2122}', 0x9A := '\U{0161}', 0x9B := '\U{203A}',
    0x9C := '\U{0153}', 0x9D := '\U{009D}', 0x9E := '\U{017E}', 0x9F := '\U{0178}'
  ]

  /** Control characters and non-characters, which a numeric reference turns into nothing. */
  predicate InvalidCodePoint(n: int) {
    (0x1 <= n <= 0x8) || n == 0xB || (0xE <= n <= 0x1F) || (0x7F <= n <= 0x9F)
    || (0xFDD0 <= n <= 0xFDEF) || (0xFFFE <= n <= 0x10FFFF && n % 0x10000 >= 0xFFFE)
  }

  /** What a numeric reference to code point `n` becomes. */
  function NumericText(n: nat): (r: string)
    ensures |r| <= 1
    ensures n == 0x2F ==> r == "/"
    ensures n == 0x22 ==> r == "\""
    ensures n == 0x27 ==> r == "'"
  {
    if n in INVALID_CHARREFS then [INVALID_CHARREFS[n]]
    else if (0xD800 <= n <= 0xDFFF) || n > 0x10FFFF then ['\U{FFFD}']
    else if InvalidCodePoint(n) then []
    else [n as char]
  }

  /** A numeric reference `&#` digits `;`? or `&#x` hex digits `;`? at the start of `s`. */
  function Numeric(s: string): (r: Option<CharRef>)
    requires |s| >= 2 && s[0] == '&' && s[1] == '#'
    ensures r.Some? ==> 3 <= r.value.len <= |s| && |r.value.text| <= 1
  {
    if |s| > 2 && (s[2] == 'x' || s[2] == 'X') then
      var n := HexRun(s, 3);
      if n == 0 then None
      else
        var end := 3 + n;
        Some(CharRef(if end < |s| && s[end] == ';' then end + 1 else end, NumericText(HexValue(s[3..end]))))
    else
      var n := DigitRun(s, 2);
      if n == 0 then None
      else
        var end := 2 + n;
        Some(CharRef(if end < |s| && s[end] == ';' then end + 1 else end, NumericText(DigitsValue(s[2..end]))))
  }

  /** The named references modelled, each with the character it stands for. */
  const NAMED: seq<(string, char)> := [("amp", '&'), ("lt", '<'), ("gt", '>'), ("quot", '"')]

  /**
   * A named reference at the start of `s`: the name, then the `;` when it follows at once.
   * With only these four names in the table, Python's longest-prefix fallback reduces to
   * "the name is a prefix of what follows the `&`".
   */
  function Named(s: string, k: nat): (r: Option<CharRef>)
    requires |s| >= 1 && s[0] == '&' && k <= |NAMED|
    ensures r.Some? ==> 3 <= r.value.len <= |s| && |r.value.text| == 1
    decreases |NAMED| - k
  {
    if k == |NAMED| then None
    else
      var (name, c) := NAMED[k];
      var end := 1 + |name|;
      if end <= |s| && s[1..end] == name then
        Some(CharRef(if end < |s| && s[end] == ';' then end + 1 else end, [c]))
      else Named(s, k + 1)
  }

  /** The character reference at the start of `s`, if there is one. */
  function RefAt(s: string): (r: Option<CharRef>)
    requires |s| >= 1 && s[0] == '&'
    ensures r.Some? ==> 3 <= r.value.len <= |s| && |r.value.text| < r.value.len
  {
    if |s| >= 2 && s[1] == '#' then Numeric(s) else Named(s, 0)
  }

  /** `html.unescape(s)`: every character reference replaced, left to right, without rescanning. */
  function Unescape(s: string): (r: string)
    ensures |r| <= |s|
    ensures '&' !in s ==> r == s
    decreases |s|
  {
    if s == [] then []
    else if s[0] != '&' then [s[0]] + Unescape(s[1..])
    else match RefAt(s)
      case Some(m) => m.text + Unescape(s[m.len..])
      case None => "&" + Unescape(s[1..])
  }

  /** Text without `&` passes through unchanged, and the rest is unescaped on its own. */
  lemma {:induction false} UnescapeAppend(p: string, q: string)
    requires '&' !in p
    ensures Unescape(p + q) == p + Unescape(q)
    decreases |p|
  {
    if p == [] {
      assert p + q == q;
    } else {
      var s := p + q;
      assert p[0] in p;
      assert s[0] == p[0] != '&';
      assert s[1..] == p[1..] + q;
      assert Unescape(s) == [p[0]] + Unescape(p[1..] + q);
      UnescapeAppend(p[1..], q);
      var u := Unescape(q);
      assert [p[0]] + (p[1..] + u) == ([p[0]] + p[1..]) + u;
      assert [p[0]] + p[1..] == p;
    }
  }

  /** The escaped slash Hacker News writes in links, `&#x2F;`, becomes `/` whatever follows. */
  lemma EscapedSlash(q: string)
    ensures Unescape("&#x2F;" + q) == "/" + Unescape(q)
  {
    var s := "&#x2F;" + q;
    assert s[3] == '2' && s[4] == 'F' && s[5] == ';';
    assert HexRun(s, 5) == 0;
    assert HexRun(s, 3) == 2;
    assert s[3..5] == "2F";
    assert HexValue("2F") == 0x2F by {
      assert "2F"[..1] == "2";
      assert "2"[..0] == "";
    }
    assert s[6..] == q;
  }

  /** `&quot;` becomes a double quote whatever follows. */
  lemma EscapedQuote(q: string)
    ensures Unescape("&quot;" + q) == "\"" + Unescape(q)
  {
    var s := "&quot;" + q;
    assert s[1] == 'q';
    assert s[1..4] != "amp" && s[1..3] != "lt" && s[1..3] != "gt";
    assert s[1..5] == "quot";
    assert s[6..] == q;
  }

  /** `&amp;` becomes `&` whatever follows, and that `&` is not read again. */
  lemma EscapedAmp(q: string)
    ensures Unescape("&amp;" + q) == "&" + Unescape(q)
  {
    var s := "&amp;" + q;
    assert s[1..4] == "amp";
    assert s[5..] == q;
  }

  /** The escaped apostrophe Hacker News writes, `&#x27;`, becomes `'` whatever follows. */
  lemma EscapedApos(q: string)
    ensures Unescape("&#x27;" + q) == "'" + Unescape(q)
  {
    var s := "&#x27;" + q;
    assert s[3] == '2' && s[4] == '7' && s[5] == ';';
    assert HexRun(s, 5) == 0;
    assert HexRun(s, 3) == 2;
    assert s[3..5] == "27";
    assert HexValue("27") == 0x27 by {
      assert "27"[..1] == "2";
      assert "2"[..0] == "";
    }
    assert s[6..] == q;
  }
}
