/**
 * `find_refs_in_comment`: unescape a comment body, then collect every capture of the pattern
 * `<a[^>]* href="([^"]*)"` found by a left-to-right, non-overlapping scan (`re.findall`).
 *
 * The pattern is matched explicitly: after `<a`, the greedy `[^>]*` first takes the whole run
 * of characters up to the next `>`, then gives characters back until ` href="` follows and a
 * closing `"` exists further on; the capture runs up to the first `"` after ` href="`.
 */
module Links {
  import opened Wrappers
  import opened Html

  const HREF: string := " href=\""

  /** `<a` starts at position `i`. */
  predicate AnchorAt(s: string, i: nat) { i + 2 <= |s| && s[i] == '<' && s[i + 1] == 'a' }

  /** ` href="` starts at position `k`. */
  predicate HrefAt(s: string, k: nat) { k + 7 <= |s| && s[k..k + 7] == HREF }

  /** First position at or after `k` holding `c`, or `|s|` when there is none. */
  function Next(s: string, k: nat, c: char): (e: nat)
    requires k <= |s|
    ensures k <= e <= |s|
    ensures forall j :: k <= j < e ==> s[j] != c
    ensures e == |s| || s[e] == c
    decreases |s| - k
  {
    if k == |s| || s[k] == c then k else Next(s, k + 1, c)
  }

  /** ` href="` at `k` can finish the match: a closing `"` follows it. */
  predicate Completes(s: string, k: nat) { HrefAt(s, k) && Next(s, k + 7, '"') < |s| }

  /**
   * The backtracking of the greedy `[^>]*`: the largest `k` in `[lo, hi)` at which the rest of
   * the pattern matches, trying `hi - 1` first and moving left.
   */
  function LastHref(s: string, lo: nat, hi: nat): (r: Option<nat>)
    requires lo <= hi <= |s|
    ensures r.Some? ==> lo <= r.value < hi && Completes(s, r.value)
    ensures r.Some? ==> forall k :: r.value < k < hi ==> !Completes(s, k)
    ensures r.None? ==> forall k :: lo <= k < hi ==> !Completes(s, k)
    decreases hi
  {
    if hi == lo then None
    else if Completes(s, hi - 1) then Some(hi - 1)
    else LastHref(s, lo, hi - 1)
  }

  /** One match: the captured URL and the position just after the closing `"`. */
  datatype Match = Match(url: string, end: nat)

  /**
   * The pattern `<a[^>]* href="([^"]*)"` matched at an `<a` at position `i`: it matches exactly
   * when some ` href="` inside the `>`-free run after `<a` is followed by a `"`, and the
   * greedy run settles on the last such ` href="`.
   */
  function MatchAt(s: string, i: nat): (r: Option<Match>)
    requires AnchorAt(s, i)
    ensures r.Some? ==> i + 2 < r.value.end <= |s|
    ensures r.Some? ==> '"' !in r.value.url
  {
    var runEnd := Next(s, i + 2, '>');
    match LastHref(s, i + 2, runEnd)
    case None => None
    case Some(k) =>
      var q := Next(s, k + 7, '"');
      Some(Match(s[k + 7..q], q + 1))
  }

  /**
   * Both directions of "the pattern matches at `i`": some ` href="` inside the `>`-free run
   * after `<a` is followed by a `"`; and then it is the last such one that is taken.
   */
  lemma MatchAtIff(s: string, i: nat)
    requires AnchorAt(s, i)
    ensures MatchAt(s, i).Some? <==> exists k :: i + 2 <= k < Next(s, i + 2, '>') && Completes(s, k)
    ensures MatchAt(s, i).Some? ==>
      (exists k :: i + 2 <= k < Next(s, i + 2, '>') && Completes(s, k)
        && MatchAt(s, i).value.url == s[k + 7..Next(s, k + 7, '"')]
        && (forall k' :: k < k' < Next(s, i + 2, '>') ==> !Completes(s, k')))
  {
  }

  /**
   * `re.findall`: the captures in text order, duplicates kept. After a match the search
   * resumes where the match ended, otherwise one character further on; the pattern looks at
   * nothing before its `<a`, so searching the remaining text alone finds the same.
   */
  function FindAll(s: string): (r: seq<string>)
    ensures forall n :: 0 <= n < |r| ==> '"' !in r[n]
    decreases |s|
  {
    if s == [] then []
    else if AnchorAt(s, 0) && MatchAt(s, 0).Some? then
      var m := MatchAt(s, 0).value;
      [m.url] + FindAll(s[m.end..])
    else FindAll(s[1..])
  }

  /**
   * What a capture means: an `<a` at `a`, a `>`-free stretch up to ` href="` at `k`, then the
   * URL `u`, free of `"`, and a closing `"`.
   */
  ghost predicate IsHrefMatch(s: string, a: nat, k: nat, u: string) {
    AnchorAt(s, a) && a + 2 <= k && HrefAt(s, k) && (forall j :: a + 2 <= j < k ==> s[j] != '>')
    && k + 7 + |u| < |s| && s[k + 7..k + 7 + |u|] == u && s[k + 7 + |u|] == '"'
    && '"' !in u
  }

  /** A single match is an anchor with a double-quoted `href`. */
  lemma MatchAtSound(s: string, i: nat) returns (k: nat)
    requires AnchorAt(s, i) && MatchAt(s, i).Some?
    ensures IsHrefMatch(s, i, k, MatchAt(s, i).value.url)
  {
    var runEnd := Next(s, i + 2, '>');
    k := LastHref(s, i + 2, runEnd).value;
    var q := Next(s, k + 7, '"');
    var u := s[k + 7..q];
    assert MatchAt(s, i).value.url == u;
    assert q == k + 7 + |u|;
  }

  /** A match in the text after position `d` is a match in the whole text. */
  lemma IsHrefMatchShift(s: string, d: nat, a: nat, k: nat, u: string, a2: nat, k2: nat)
    requires d <= |s| && IsHrefMatch(s[d..], a, k, u) && a2 == d + a && k2 == d + k
    ensures IsHrefMatch(s, a2, k2, u)
  {
    var t := s[d..];
    assert s[d + a] == t[a] && s[d + a + 1] == t[a + 1];
    assert s[d + k..d + k + 7] == t[k..k + 7];
    assert s[d + k + 7..d + k + 7 + |u|] == t[k + 7..k + 7 + |u|];
    assert s[d + k + 7 + |u|] == t[k + 7 + |u|];
    forall j | d + a + 2 <= j < d + k ensures s[j] != '>' {
      assert s[j] == t[j - d];
    }
  }

  /** Every capture comes from an anchor with a double-quoted `href`. */
  lemma {:induction false} FindAllSound(s: string, n: nat) returns (a: nat, k: nat)
    requires n < |FindAll(s)|
    ensures IsHrefMatch(s, a, k, FindAll(s)[n])
    decreases |s|, 2
  {
    if AnchorAt(s, 0) && MatchAt(s, 0).Some? {
      a, k := FindAllSoundAtMatch(s, n);
    } else {
      assert s != [] && FindAll(s) == FindAll(s[1..]);
      a, k := FindAllSoundAfter(s, 1, n);
    }
  }

  /** `FindAllSound` when the text starts with a match. */
  lemma {:induction false} FindAllSoundAtMatch(s: string, n: nat) returns (a: nat, k: nat)
    requires AnchorAt(s, 0) && MatchAt(s, 0).Some? && n < |FindAll(s)|
    ensures IsHrefMatch(s, a, k, FindAll(s)[n])
    decreases |s|, 1
  {
    var m := MatchAt(s, 0).value;
    FindAllAtMatch(s);
    if n == 0 {
      a := 0;
      k := MatchAtSound(s, 0);
    } else {
      a, k := FindAllSoundAfter(s, m.end, n - 1);
    }
  }

  /** `FindAllSound` for the search resumed at `d`, read back into the whole text. */
  lemma {:induction false} FindAllSoundAfter(s: string, d: nat, n: nat) returns (a: nat, k: nat)
    requires 0 < d <= |s| && n < |FindAll(s[d..])|
    ensures IsHrefMatch(s, a, k, FindAll(s[d..])[n])
    decreases |s|, 0
  {
    var a', k' := FindAllSound(s[d..], n);
    a, k := d + a', d + k';
    IsHrefMatchShift(s, d, a', k', FindAll(s[d..])[n], a, k);
  }

  /** A match at the start contributes its URL, and the scan resumes after it. */
  lemma FindAllAtMatch(s: string)
    requires AnchorAt(s, 0) && MatchAt(s, 0).Some?
    ensures FindAll(s) == [MatchAt(s, 0).value.url] + FindAll(s[MatchAt(s, 0).value.end..])
  {
  }

  /** A text with no `<a` yields no capture. */
  lemma NoAnchorNoMatch(s: string)
    requires forall a: nat :: !AnchorAt(s, a)
    ensures FindAll(s) == []
  {
    if |FindAll(s)| > 0 {
      var a, k := FindAllSound(s, 0);
    }
  }

  /** The first occurrence of every element, in order. */
  function Dedup(xs: seq<string>): (r: seq<string>)
    ensures forall u :: u in r <==> u in xs
    ensures forall m, n :: 0 <= m < n < |r| ==> r[m] != r[n]
  {
    if xs == [] then []
    else
      var d := Dedup(xs[..|xs| - 1]);
      var last := xs[|xs| - 1];
      assert xs == xs[..|xs| - 1] + [last];
      if last in d then d else d + [last]
  }

  /** A list without repetitions has as many elements as its set. */
  lemma {:induction false} DistinctCard(xs: seq<string>)
    requires forall m, n :: 0 <= m < n < |xs| ==> xs[m] != xs[n]
    ensures |set u | u in xs| == |xs|
  {
    if xs != [] {
      var last := xs[|xs| - 1];
      var init := xs[..|xs| - 1];
      DistinctCard(init);
      assert (set u | u in xs) == (set u | u in init) + {last};
      assert last !in init;
    }
  }

  /** `find_refs_in_comment(text)`: the set of URLs the comment links to. */
  function FindRefs(text: string): (r: set<string>)
    ensures forall u :: u in r ==> '"' !in u
  {
    var xs := FindAll(Unescape(text));
    set u | u in xs
  }

  /** The same URLs as a list without repetitions, in order of first appearance. */
  function RefList(text: string): (r: seq<string>)
  {
    Dedup(FindAll(Unescape(text)))
  }

  /** The list holds exactly the URLs of the set, each once, so their sizes agree. */
  lemma RefListMatchesSet(text: string)
    ensures forall u :: u in RefList(text) <==> u in FindRefs(text)
    ensures |RefList(text)| == |FindRefs(text)|
  {
    var r := RefList(text);
    DistinctCard(r);
    assert (set u | u in r) == FindRefs(text);
  }

  /** Every returned URL stands in the unescaped text inside `<a ... href="` and `"`. */
  lemma RefsAreHrefs(text: string, u: string)
    requires u in FindRefs(text)
    ensures exists a, k :: IsHrefMatch(Unescape(text), a, k, u)
  {
    var xs := FindAll(Unescape(text));
    var n :| 0 <= n < |xs| && xs[n] == u;
    var a, k := FindAllSound(Unescape(text), n);
  }

  /** Plain text with no `<a` anywhere (after unescaping) has no links. */
  lemma NoAnchorNoRefs(text: string)
    requires forall a: nat :: !AnchorAt(Unescape(text), a)
    ensures FindRefs(text) == {}
  {
    NoAnchorNoMatch(Unescape(text));
  }

  /** The first `c` from `k` is at `e` when `s[e]` is `c` and none comes before it. */
  lemma {:induction false} NextAt(s: string, k: nat, c: char, e: nat)
    requires k <= e < |s| && s[e] == c && forall j :: k <= j < e ==> s[j] != c
    ensures Next(s, k, c) == e
    decreases e - k
  {
    if k < e {
      NextAt(s, k + 1, c, e);
    }
  }

  /** Text in which every `<` is followed, within the text, by something other than `a`. */
  predicate NoAnchorIn(t: string) {
    forall j :: 0 <= j < |t| && t[j] == '<' ==> j + 1 < |t| && t[j + 1] != 'a'
  }

  lemma NoAnchorInAppend(a: string, b: string)
    requires NoAnchorIn(a) && NoAnchorIn(b)
    ensures NoAnchorIn(a + b)
  {
    var t := a + b;
    forall j | 0 <= j < |t| && t[j] == '<' ensures j + 1 < |t| && t[j + 1] != 'a' {
      if j < |a| {
        assert t[j] == a[j];
      } else {
        assert t[j] == b[j - |a|];
        assert j + 1 < |t| && t[j + 1] == b[j + 1 - |a|];
      }
    }
  }

  /** Text without `<a` in front of `x` contributes no URL. */
  lemma {:induction false} PlainThen(t: string, x: string)
    requires NoAnchorIn(t)
    ensures FindAll(t + x) == FindAll(x)
    decreases |t|
  {
    if t == [] {
      assert t + x == x;
    } else {
      var s := t + x;
      assert !AnchorAt(s, 0) by {
        if s[0] == '<' {
          assert t[0] == '<' && s[1] == t[1];
        }
      }
      assert s[1..] == t[1..] + x;
      var t' := t[1..];
      forall j | 0 <= j < |t'| && t'[j] == '<' ensures j + 1 < |t'| && t'[j + 1] != 'a' {
        assert t[j + 1] == '<';
      }
      PlainThen(t', x);
    }
  }

  /** Where the pieces of `<a href="u"ATTRS>` lie. */
  lemma AnchorLayout(u: string, attrs: string)
    ensures var s := "<a" + HREF + u + "\"" + attrs + ">";
      var p := 9 + |u|;
      var g := p + 1 + |attrs|;
      && |s| == g + 1
      && s[..2] == "<a" && s[2..9] == HREF && s[9..p] == u && s[p] == '"' && s[g] == '>'
      && (forall j :: 9 <= j < p ==> s[j] == u[j - 9])
      && (forall j :: p < j < g ==> s[j] == attrs[j - p - 1])
  {
  }

  /** In `<a href="u"ATTRS>`, no other ` href="` starts before the `>`. */
  lemma OnlyFirstHref(s: string, p: nat, g: nat)
    requires 9 <= p < g < |s| && s[2..9] == HREF && s[g] == '>'
    requires forall j :: 9 <= j <= p ==> s[j] != ' '
    requires forall j :: p < j < g - 1 ==> !(s[j] == ' ' && s[j + 1] == 'h')
    ensures forall k :: 2 < k < g ==> !HrefAt(s, k)
  {
    forall k | 2 < k < g ensures s[k] != ' ' || s[k + 1] != 'h' {
      if k < 9 {
        assert s[k] == s[2..9][k - 2];
      }
    }
    forall k | 2 < k < g ensures !HrefAt(s, k) {
      if k + 7 <= |s| {
        assert s[k..k + 7][0] == s[k] && s[k..k + 7][1] == s[k + 1];
      }
    }
  }

  /** The match at an `<a href="u"` whose run to the next `>` holds no other ` href="`. */
  lemma FirstHrefTaken(s: string, p: nat, g: nat)
    requires AnchorAt(s, 0) && 9 <= p < g < |s| && s[2..9] == HREF && s[g] == '>' && s[p] == '"'
    requires forall j :: 2 <= j < g ==> s[j] != '>'
    requires forall j :: 9 <= j < p ==> s[j] != '"'
    requires forall k :: 2 < k < g ==> !HrefAt(s, k)
    ensures MatchAt(s, 0) == Some(Match(s[9..p], p + 1))
  {
    NextAt(s, 2, '>', g);
    NextAt(s, 9, '"', p);
    assert Completes(s, 2);
    assert LastHref(s, 2, g) == Some(2);
  }

  /**
   * An anchor whose first attribute is a double-quoted `href` yields that URL, and the scan
   * goes on after the anchor's `>`: the `>`-free run after `<a` holds no other ` href="`,
   * and the URL holds no quote, space or `>`.
   */
  lemma AnchorThen(u: string, attrs: string, x: string)
    requires '"' !in u && ' ' !in u && '>' !in u
    requires '>' !in attrs && '<' !in attrs
    requires forall j :: 0 <= j < |attrs| - 1 ==> !(attrs[j] == ' ' && attrs[j + 1] == 'h')
    ensures FindAll("<a" + HREF + u + "\"" + attrs + ">" + x) == [u] + FindAll(x)
  {
    var tag := "<a" + HREF + u + "\"" + attrs + ">";
    var s := tag + x;
    var p := 9 + |u|;
    var g := p + 1 + |attrs|;
    AnchorLayout(u, attrs);
    TagFacts(tag, u, attrs, p, g);
    assert forall j :: 0 <= j < |tag| ==> s[j] == tag[j];
    assert s[2..9] == tag[2..9] && s[9..p] == tag[9..p];
    OnlyFirstHref(s, p, g);
    FirstHrefTaken(s, p, g);
    assert s[p + 1..] == (attrs + ">") + x;
    assert NoAnchorIn(attrs + ">") by {
      var t := attrs + ">";
      forall j | 0 <= j < |t| ensures t[j] != '<' {
        if j < |attrs| {
          assert t[j] in attrs;
        }
      }
    }
    PlainThen(attrs + ">", x);
  }

  /** The characters of `<a href="u"ATTRS>` that the match depends on. */
  lemma TagFacts(tag: string, u: string, attrs: string, p: nat, g: nat)
    requires '"' !in u && ' ' !in u && '>' !in u && '>' !in attrs && '<' !in attrs
    requires forall j :: 0 <= j < |attrs| - 1 ==> !(attrs[j] == ' ' && attrs[j + 1] == 'h')
    requires p == 9 + |u| && g == p + 1 + |attrs| && |tag| == g + 1
    requires tag[..2] == "<a" && tag[2..9] == HREF && tag[p] == '"' && tag[g] == '>'
    requires forall j :: 9 <= j < p ==> tag[j] == u[j - 9]
    requires forall j :: p < j < g ==> tag[j] == attrs[j - p - 1]
    ensures forall j :: 2 <= j < g ==> tag[j] != '>'
    ensures forall j :: 9 <= j < p ==> tag[j] != '"'
    ensures forall j :: 9 <= j <= p ==> tag[j] != ' '
    ensures forall j :: p < j < g - 1 ==> !(tag[j] == ' ' && tag[j + 1] == 'h')
    ensures forall a :: p + 1 <= a <= g ==> tag[a] != '<'
  {
    forall j | 2 <= j < g ensures tag[j] != '>' {
      if j < 9 {
        assert tag[2..9][j - 2] == tag[j];
      } else if j < p {
        assert u[j - 9] in u;
      } else if p < j {
        assert attrs[j - p - 1] in attrs;
      }
    }
    forall j | 9 <= j < p ensures tag[j] != '"' && tag[j] != ' ' {
      assert u[j - 9] in u;
    }
    forall a | p + 1 <= a < g ensures tag[a] != '<' {
      assert attrs[a - p - 1] in attrs;
    }
  }
}
