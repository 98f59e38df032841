/**
 * Comment bodies as Hacker News stores them: plain text interrupted by the character
 * references it writes for `/`, `&`, `'` and `"`. A comment made of plain text followed by
 * anchors `<a href="URL" rel="nofollow">` yields exactly the anchors' URLs; the two comments
 * checked in `test_main.py` are written this way and their links are worked out here.
 */
module Comments {
  import opened Html
  import opened Links

  /** A stretch of a stored comment: text without `&`, or one character reference. */
  datatype Chunk = Plain(s: string) | Slash | Amp | Apos | Quot

  function RawChunk(c: Chunk): string {
    match c
    case Plain(s) => s
    case Slash => "&#x2F;"
    case Amp => "&amp;"
    case Apos => "&#x27;"
    case Quot => "&quot;"
  }

  function CookedChunk(c: Chunk): string {
    match c
    case Plain(s) => s
    case Slash => "/"
    case Amp => "&"
    case Apos => "'"
    case Quot => "\""
  }

  /** The text as stored. */
  function Raw(cs: seq<Chunk>): string {
    if cs == [] then [] else RawChunk(cs[0]) + Raw(cs[1..])
  }

  /** The text as read, every reference replaced by its character. */
  function Cooked(cs: seq<Chunk>): string {
    if cs == [] then [] else CookedChunk(cs[0]) + Cooked(cs[1..])
  }

  /** What a chunk is checked for. */
  datatype Test = NoAmp | NoAnchor | Lacks(c: char) | UrlPart

  predicate Passes(t: Test, c: Chunk) {
    match t
    case NoAmp => '&' !in PlainText(c)
    case NoAnchor => NoAnchorIn(CookedChunk(c))
    case Lacks(ch) => ch !in CookedChunk(c)
    case UrlPart => (match c case Plain(s) => UrlText(s) case Slash => true case _ => false)
  }

  /** Letters, digits and `.`, `-`, `_`, `:`: what the host and path segments of the URLs here hold. */
  predicate UrlChar(c: char) {
    'a' <= c <= 'z' || 'A' <= c <= 'Z' || '0' <= c <= '9' || c == '.' || c == '-' || c == '_' || c == ':'
  }

  predicate UrlText(s: string) { forall k :: 0 <= k < |s| ==> UrlChar(s[k]) }

  function PlainText(c: Chunk): string {
    match c
    case Plain(s) => s
    case _ => ""
  }

  /** Every chunk passes the test. */
  predicate All(cs: seq<Chunk>, t: Test) {
    forall i :: 0 <= i < |cs| ==> Passes(t, cs[i])
  }

  /** `All` from position `i` on, chunk by chunk: the form that is checked on a given comment. */
  predicate AllFrom(cs: seq<Chunk>, t: Test, i: nat)
    decreases |cs| - i
  {
    i >= |cs| || (Passes(t, cs[i]) && AllFrom(cs, t, i + 1))
  }

  lemma {:induction false} AllFromAll(cs: seq<Chunk>, t: Test, i: nat)
    requires AllFrom(cs, t, i)
    ensures forall j :: i <= j < |cs| ==> Passes(t, cs[j])
    decreases |cs| - i
  {
    if i < |cs| {
      AllFromAll(cs, t, i + 1);
    }
  }

  lemma AllTail(cs: seq<Chunk>, t: Test)
    requires cs != [] && All(cs, t)
    ensures All(cs[1..], t)
  {
    forall i | 0 <= i < |cs| - 1 ensures Passes(t, cs[1..][i]) {
      assert cs[1..][i] == cs[i + 1];
    }
  }

  lemma AllAppend(a: seq<Chunk>, b: seq<Chunk>, t: Test)
    requires All(a, t) && All(b, t)
    ensures All(a + b, t)
  {
    forall i | 0 <= i < |a + b| ensures Passes(t, (a + b)[i]) {
      if i < |a| {
        assert (a + b)[i] == a[i];
      } else {
        assert (a + b)[i] == b[i - |a|];
      }
    }
  }

  /** Plain chunks hold no `&`, so that every `&` of the stored text starts a reference. */
  predicate WellFormed(cs: seq<Chunk>) { All(cs, NoAmp) }

  /** No chunk, once unescaped, holds `<a`. */
  predicate NoAnchors(cs: seq<Chunk>) { All(cs, NoAnchor) }

  /** No chunk, once unescaped, holds the character `c`. */
  predicate Avoids(cs: seq<Chunk>, c: char) { All(cs, Lacks(c)) }

  /** One chunk unescapes to its character, whatever follows it. */
  lemma UnescapeChunk(c: Chunk, tail: string)
    requires Passes(NoAmp, c)
    ensures Unescape(RawChunk(c) + tail) == CookedChunk(c) + Unescape(tail)
  {
    match c
    case Plain(s) => UnescapeAppend(s, tail);
    case Slash => EscapedSlash(tail);
    case Amp => EscapedAmp(tail);
    case Apos => EscapedApos(tail);
    case Quot => EscapedQuote(tail);
  }

  /** The first chunk is unescaped on its own, then the stored text after it. */
  lemma UnescapeFirst(cs: seq<Chunk>, tail: string)
    requires cs != [] && Passes(NoAmp, cs[0])
    requires Unescape(Raw(cs[1..]) + tail) == Cooked(cs[1..]) + Unescape(tail)
    ensures Unescape(Raw(cs) + tail) == Cooked(cs) + Unescape(tail)
  {
    var r := Raw(cs[1..]);
    assert Raw(cs) + tail == RawChunk(cs[0]) + (r + tail);
    UnescapeChunk(cs[0], r + tail);
  }

  /** Unescaping the stored text gives the text as read, whatever follows it. */
  lemma {:induction false} UnescapeRaw(cs: seq<Chunk>, tail: string)
    requires WellFormed(cs)
    ensures Unescape(Raw(cs) + tail) == Cooked(cs) + Unescape(tail)
  {
    if cs == [] {
      assert Raw(cs) + tail == tail;
    } else {
      AllTail(cs, NoAmp);
      UnescapeRaw(cs[1..], tail);
      UnescapeFirst(cs, tail);
    }
  }

  lemma {:induction false} CookedAppend(a: seq<Chunk>, b: seq<Chunk>)
    ensures Cooked(a + b) == Cooked(a) + Cooked(b)
  {
    if a == [] {
      assert a + b == b;
    } else {
      assert (a + b)[1..] == a[1..] + b;
      CookedAppend(a[1..], b);
    }
  }

  lemma {:induction false} WellFormedAppend(a: seq<Chunk>, b: seq<Chunk>)
    requires WellFormed(a) && WellFormed(b)
    ensures WellFormed(a + b)
  {
    if a == [] {
      assert a + b == b;
    } else {
      assert (a + b)[0] == a[0] && (a + b)[1..] == a[1..] + b;
      WellFormedAppend(a[1..], b);
    }
  }

  lemma {:induction false} NoAnchorsCooked(cs: seq<Chunk>)
    requires NoAnchors(cs)
    ensures NoAnchorIn(Cooked(cs))
  {
    if cs != [] {
      NoAnchorsCooked(cs[1..]);
      NoAnchorInAppend(CookedChunk(cs[0]), Cooked(cs[1..]));
    }
  }

  lemma {:induction false} AvoidsCooked(cs: seq<Chunk>, c: char)
    requires Avoids(cs, c)
    ensures c !in Cooked(cs)
  {
    if cs != [] {
      AvoidsCooked(cs[1..], c);
    }
  }

  /** The attributes Hacker News gives every link after its `href`. */
  const ATTRS: string := " rel=\"nofollow\""

  const OPEN: Chunk := Plain("<a" + HREF)
  const CLOSE: Chunk := Plain("\"" + ATTRS + ">")

  /** One anchor: the URL in its `href`, then the text that follows its start tag. */
  datatype Anchor = Anchor(href: seq<Chunk>, after: seq<Chunk>)

  function AnchorChunks(a: Anchor): seq<Chunk> {
    [OPEN] + a.href + [CLOSE] + a.after
  }

  /** Anchors one after the other. */
  function Anchors(as_: seq<Anchor>): seq<Chunk> {
    if as_ == [] then [] else AnchorChunks(as_[0]) + Anchors(as_[1..])
  }

  /** The URLs of the anchors, as read. */
  function Targets(as_: seq<Anchor>): (r: seq<string>)
    ensures |r| == |as_|
  {
    if as_ == [] then [] else [Cooked(as_[0].href)] + Targets(as_[1..])
  }

  /**
   * The shape Hacker News gives a link: a URL without quote, space or `>`, and no further
   * `<a` in the text up to the next anchor.
   */
  predicate Regular(a: Anchor) {
    && WellFormed(a.href) && WellFormed(a.after)
    && Avoids(a.href, '"') && Avoids(a.href, ' ') && Avoids(a.href, '>')
    && NoAnchors(a.after)
  }

  predicate AllRegular(as_: seq<Anchor>) {
    forall i :: 0 <= i < |as_| ==> Regular(as_[i])
  }

  /** The text of an anchor as read: the start tag around the URL, then what follows. */
  lemma CookedAnchor(a: Anchor, rest: seq<Chunk>)
    ensures Cooked(AnchorChunks(a) + rest)
      == "<a" + HREF + Cooked(a.href) + "\"" + ATTRS + ">" + (Cooked(a.after) + Cooked(rest))
  {
    var u, x := a.href, a.after;
    assert AnchorChunks(a) + rest == [OPEN] + (u + ([CLOSE] + (x + rest)));
    CookedAppend([OPEN], u + ([CLOSE] + (x + rest)));
    CookedAppend(u, [CLOSE] + (x + rest));
    CookedAppend([CLOSE], x + rest);
    CookedAppend(x, rest);
    assert Cooked([OPEN]) == "<a" + HREF;
    assert Cooked([CLOSE]) == "\"" + ATTRS + ">";
    Regroup("<a", HREF, Cooked(u), "\"", ATTRS, ">", Cooked(x) + Cooked(rest));
  }

  lemma Regroup(a: string, b: string, u: string, c: string, t: string, d: string, x: string)
    ensures (a + b) + (u + ((c + t + d) + x)) == a + b + u + c + t + d + x
  {
  }

  lemma AttrsShape()
    ensures '>' !in ATTRS && '<' !in ATTRS
    ensures forall j :: 0 <= j < |ATTRS| - 1 ==> !(ATTRS[j] == ' ' && ATTRS[j + 1] == 'h')
  {
  }

  /** One anchor yields its URL, and the scan resumes after its start tag. */
  lemma AnchorFound(a: Anchor, rest: seq<Chunk>)
    requires Regular(a)
    ensures FindAll(Cooked(AnchorChunks(a) + rest)) == [Cooked(a.href)] + FindAll(Cooked(rest))
  {
    var cu, cx, cr := Cooked(a.href), Cooked(a.after), Cooked(rest);
    CookedAnchor(a, rest);
    AvoidsCooked(a.href, '"');
    AvoidsCooked(a.href, ' ');
    AvoidsCooked(a.href, '>');
    NoAnchorsCooked(a.after);
    AttrsShape();
    AnchorThen(cu, ATTRS, cx + cr);
    PlainThen(cx, cr);
  }

  /** Regular anchors yield their URLs, in order. */
  lemma {:induction false} AnchorsFound(as_: seq<Anchor>)
    requires AllRegular(as_)
    ensures FindAll(Cooked(Anchors(as_))) == Targets(as_)
  {
    if as_ != [] {
      AnchorFound(as_[0], Anchors(as_[1..]));
      AnchorsFound(as_[1..]);
    }
  }

  lemma {:induction false} AnchorsWellFormed(as_: seq<Anchor>)
    requires AllRegular(as_)
    ensures WellFormed(Anchors(as_))
  {
    if as_ != [] {
      AnchorWellFormed(as_[0]);
      assert AllRegular(as_[1..]) by {
        forall i | 0 <= i < |as_| - 1 ensures Regular(as_[1..][i]) {
          assert as_[1..][i] == as_[i + 1];
        }
      }
      AnchorsWellFormed(as_[1..]);
      WellFormedAppend(AnchorChunks(as_[0]), Anchors(as_[1..]));
    }
  }

  lemma AnchorWellFormed(a: Anchor)
    requires Regular(a)
    ensures WellFormed(AnchorChunks(a))
  {
    assert WellFormed([OPEN]) && WellFormed([CLOSE]);
    WellFormedAppend([OPEN], a.href);
    WellFormedAppend([OPEN] + a.href, [CLOSE]);
    WellFormedAppend([OPEN] + a.href + [CLOSE], a.after);
  }

  /**
   * `find_refs_in_comment` on a stored comment made of text without anchors followed by
   * regular anchors: exactly the anchors' URLs, unescaped.
   */
  lemma CommentRefs(lead: seq<Chunk>, as_: seq<Anchor>)
    requires WellFormed(lead) && NoAnchors(lead) && AllRegular(as_)
    ensures FindRefs(Raw(lead + Anchors(as_))) == set u | u in Targets(as_)
  {
    var cs := lead + Anchors(as_);
    AnchorsWellFormed(as_);
    WellFormedAppend(lead, Anchors(as_));
    UnescapeRaw(cs, []);
    assert Raw(cs) + [] == Raw(cs);
    assert Cooked(cs) + Unescape([]) == Cooked(cs);
    CookedAppend(lead, Anchors(as_));
    NoAnchorsCooked(lead);
    PlainThen(Cooked(lead), Cooked(Anchors(as_)));
    AnchorsFound(as_);
  }

  /** The text as read from position `i` on, chunk by chunk. */
  function CookedFrom(cs: seq<Chunk>, i: nat): string
    decreases |cs| - i
  {
    if i >= |cs| then [] else CookedChunk(cs[i]) + CookedFrom(cs, i + 1)
  }

  lemma {:induction false} CookedFromSuffix(cs: seq<Chunk>, i: nat)
    requires i <= |cs|
    ensures Cooked(cs[i..]) == CookedFrom(cs, i)
    decreases |cs| - i
  {
    if i < |cs| {
      assert cs[i..][0] == cs[i] && cs[i..][1..] == cs[i + 1..];
      CookedFromSuffix(cs, i + 1);
    } else {
      assert cs[i..] == [];
    }
  }

  /** `scheme://host/` in front of the rest of a URL. */
  lemma UrlHead(scheme: string, host: string, y: string)
    ensures scheme + ("/" + ("/" + (host + ("/" + y)))) == scheme + "//" + host + "/" + y
  {
  }

  /** The text of `https://host/rest` as read, from chunks `https:`, `/`, `/`, host, `/`, rest. */
  lemma CookedUrl(cs: seq<Chunk>)
    requires 5 <= |cs| && cs[0].Plain? && cs[1] == Slash && cs[2] == Slash && cs[3].Plain? && cs[4] == Slash
    ensures Cooked(cs) == cs[0].s + "//" + cs[3].s + "/" + CookedFrom(cs, 5)
  {
    CookedFromSuffix(cs, 0);
    assert cs[0..] == cs;
    assert CookedFrom(cs, 0) == cs[0].s + CookedFrom(cs, 1);
    assert CookedFrom(cs, 1) == "/" + CookedFrom(cs, 2);
    assert CookedFrom(cs, 2) == "/" + CookedFrom(cs, 3);
    assert CookedFrom(cs, 3) == cs[3].s + CookedFrom(cs, 4);
    assert CookedFrom(cs, 4) == "/" + CookedFrom(cs, 5);
    UrlHead(cs[0].s, cs[3].s, CookedFrom(cs, 5));
  }

  /** Two path segments, each followed by a slash, in front of the rest. */
  lemma PathSteps(cs: seq<Chunk>, i: nat)
    requires i + 4 <= |cs| && cs[i].Plain? && cs[i + 1] == Slash && cs[i + 2].Plain? && cs[i + 3] == Slash
    ensures CookedFrom(cs, i) == cs[i].s + "/" + cs[i + 2].s + "/" + CookedFrom(cs, i + 4)
  {
    assert CookedFrom(cs, i) == cs[i].s + CookedFrom(cs, i + 1);
    assert CookedFrom(cs, i + 1) == "/" + CookedFrom(cs, i + 2);
    assert CookedFrom(cs, i + 2) == cs[i + 2].s + CookedFrom(cs, i + 3);
    assert CookedFrom(cs, i + 3) == "/" + CookedFrom(cs, i + 4);
  }

  lemma Concat5(x: string, a: string, b: string, c: string, d: string, e: string)
    ensures x + (a + b + c + d + e) == x + a + b + c + d + e
  {
  }

  // The comments of `test_main.py`, chunk by chunk.

  const DEV_HREF: seq<Chunk> := [
    Plain("https:"), Slash, Slash, Plain("developers.facebook.com"), Slash, Plain("docs"), Slash,
    Plain("marketing-api"), Slash, Plain("app-event-api"), Slash]

  /** The link's text, cut short by Hacker News. */
  const DEV_TEXT: seq<Chunk> := [
    Plain("https:"), Slash, Slash, Plain("developers.facebook.com"), Slash, Plain("docs"), Slash,
    Plain("marketing-api"), Slash, Plain("app-event...")]

  /** The link's text, then the end tag. */
  const DEV_SHOWN: seq<Chunk> := DEV_TEXT + [Plain("</a>")]

  /** The first comment: a single anchor. */
  const ONE_LINK: seq<Anchor> := [Anchor(DEV_HREF, DEV_SHOWN)]

  /** Chunks of URL characters and slashes pass every check a link's URL needs. */
  lemma UrlPartSafe(cs: seq<Chunk>)
    requires All(cs, UrlPart)
    ensures WellFormed(cs) && Avoids(cs, '"') && Avoids(cs, ' ') && Avoids(cs, '>')
    ensures NoAnchors(cs)
  {
    forall i | 0 <= i < |cs|
      ensures Passes(NoAmp, cs[i]) && Passes(Lacks('"'), cs[i])
      ensures Passes(Lacks(' '), cs[i]) && Passes(Lacks('>'), cs[i])
      ensures Passes(NoAnchor, cs[i])
    {
      assert Passes(UrlPart, cs[i]);
      if cs[i].Plain? {
        var s := cs[i].s;
        forall k | 0 <= k < |s|
          ensures s[k] != '&' && s[k] != '"' && s[k] != ' ' && s[k] != '>' && s[k] != '<'
        {
          assert UrlChar(s[k]);
        }
      }
    }
  }

  lemma DevHrefChecked()
    ensures WellFormed(DEV_HREF) && Avoids(DEV_HREF, '"') && Avoids(DEV_HREF, ' ') && Avoids(DEV_HREF, '>')
  {
    DevHrefHost();
    assert AllFrom(DEV_HREF, UrlPart, 0);
    AllFromAll(DEV_HREF, UrlPart, 0);
    UrlPartSafe(DEV_HREF);
  }

  lemma DevHrefPath()
    ensures AllFrom(DEV_HREF, UrlPart, 5)
  {
  }

  lemma DevHostChecked()
    ensures UrlText("developers.facebook.com")
  {
  }

  lemma DevHrefHost()
    ensures AllFrom(DEV_HREF, UrlPart, 3)
  {
    DevHrefPath();
    DevHostChecked();
  }

  lemma FbHrefChecked()
    ensures WellFormed(FB_HREF) && Avoids(FB_HREF, '"') && Avoids(FB_HREF, ' ') && Avoids(FB_HREF, '>')
  {
    FbHrefHost();
    assert AllFrom(FB_HREF, UrlPart, 0);
    AllFromAll(FB_HREF, UrlPart, 0);
    UrlPartSafe(FB_HREF);
  }

  lemma FbHrefPath()
    ensures AllFrom(FB_HREF, UrlPart, 5)
  {
  }

  lemma FbHrefHost()
    ensures AllFrom(FB_HREF, UrlPart, 3)
  {
    FbHrefPath();
  }

  lemma BizHrefChecked()
    ensures WellFormed(BIZ_HREF) && Avoids(BIZ_HREF, '"') && Avoids(BIZ_HREF, ' ') && Avoids(BIZ_HREF, '>')
  {
    BizHrefHost();
    assert AllFrom(BIZ_HREF, UrlPart, 0);
    AllFromAll(BIZ_HREF, UrlPart, 0);
    UrlPartSafe(BIZ_HREF);
  }

  lemma BizHrefPath()
    ensures AllFrom(BIZ_HREF, UrlPart, 5)
  {
  }

  lemma BizHrefHost()
    ensures AllFrom(BIZ_HREF, UrlPart, 3)
  {
    BizHrefPath();
  }

  lemma DevPath()
    ensures CookedFrom(DEV_HREF, 5) == "docs" + "/" + "marketing-api" + "/" + "app-event-api/"
  {
    PathSteps(DEV_HREF, 5);
    assert CookedFrom(DEV_HREF, 9) == "app-event-api/";
  }

  lemma DevUrl()
    ensures Cooked(DEV_HREF)
      == "https:" + "//" + "developers.facebook.com" + "/" + "docs" + "/" + "marketing-api" + "/" + "app-event-api/"
  {
    DevPath();
    CookedUrl(DEV_HREF);
    Concat5("https:" + "//" + "developers.facebook.com" + "/", "docs", "/", "marketing-api", "/", "app-event-api/");
  }

  lemma DevShownChecked()
    ensures WellFormed(DEV_SHOWN) && NoAnchors(DEV_SHOWN)
  {
    var end := [Plain("</a>")];
    DevTextChecked();
    assert NoAnchorIn("</a>");
    assert WellFormed(end) && NoAnchors(end);
    AllAppend(DEV_TEXT, end, NoAmp);
    AllAppend(DEV_TEXT, end, NoAnchor);
  }

  lemma DevTextChecked()
    ensures WellFormed(DEV_TEXT) && NoAnchors(DEV_TEXT)
  {
    DevTextHost();
    assert AllFrom(DEV_TEXT, UrlPart, 0);
    AllFromAll(DEV_TEXT, UrlPart, 0);
    UrlPartSafe(DEV_TEXT);
  }

  lemma DevTextPath()
    ensures AllFrom(DEV_TEXT, UrlPart, 5)
  {
  }

  lemma DevTextHost()
    ensures AllFrom(DEV_TEXT, UrlPart, 3)
  {
    DevTextPath();
    DevHostChecked();
  }

  /** The first test: the one link, its slashes unescaped. */
  lemma OneLinkComment()
    ensures FindRefs(Raw(Anchors(ONE_LINK)))
      == {"https:" + "//" + "developers.facebook.com" + "/" + "docs" + "/" + "marketing-api" + "/" + "app-event-api/"}
  {
    DevHrefChecked();
    DevShownChecked();
    assert Regular(ONE_LINK[0]);
    CommentRefs([], ONE_LINK);
    assert [] + Anchors(ONE_LINK) == Anchors(ONE_LINK);
    assert Targets(ONE_LINK) == [Cooked(DEV_HREF)];
    DevUrl();
  }

  const FB_HREF: seq<Chunk> := [
    Plain("http:"), Slash, Slash, Plain("www.facebook.com"), Slash, Plain("analytics")]

  const BIZ_HREF: seq<Chunk> := [
    Plain("https:"), Slash, Slash, Plain("business.facebook.com"), Slash, Plain("events_manager"),
    Slash, Plain("app"), Slash, Plain("events")]

  lemma FbPath()
    ensures CookedFrom(FB_HREF, 5) == "analytics"
  {
  }

  lemma FbUrl()
    ensures Cooked(FB_HREF) == "http:" + "//" + "www.facebook.com" + "/" + "analytics"
  {
    FbPath();
    CookedUrl(FB_HREF);
  }

  lemma BizPath()
    ensures CookedFrom(BIZ_HREF, 5) == "events_manager" + "/" + "app" + "/" + "events"
  {
    PathSteps(BIZ_HREF, 5);
    assert CookedFrom(BIZ_HREF, 9) == "events";
  }

  lemma BizUrl()
    ensures Cooked(BIZ_HREF)
      == "https:" + "//" + "business.facebook.com" + "/" + "events_manager" + "/" + "app" + "/" + "events"
  {
    BizPath();
    CookedUrl(BIZ_HREF);
    Concat5("https:" + "//" + "business.facebook.com" + "/", "events_manager", "/", "app", "/", "events");
  }

  lemma SetOfThree(a: string, b: string, c: string)
    ensures (set u | u in [a, b, c]) == {b, a, c}
  {
  }

  /** The anchors of the second comment, each followed by the given text. */
  function SecondLinks(shown1: seq<Chunk>, shown2: seq<Chunk>, rest: seq<Chunk>): seq<Anchor> {
    [Anchor(DEV_HREF, shown1), Anchor(FB_HREF, shown2), Anchor(BIZ_HREF, rest)]
  }

  /**
   * The second test: a paragraph, then anchors to three URLs, the last followed by more text.
   * Whatever that text holds, as long as it has no `<a` and only the references modelled
   * here, the comment yields exactly the three URLs.
   */
  lemma ThreeLinkComment(lead: seq<Chunk>, shown1: seq<Chunk>, shown2: seq<Chunk>, rest: seq<Chunk>)
    requires WellFormed(lead) && NoAnchors(lead)
    requires WellFormed(shown1) && NoAnchors(shown1)
    requires WellFormed(shown2) && NoAnchors(shown2)
    requires WellFormed(rest) && NoAnchors(rest)
    ensures FindRefs(Raw(lead + Anchors(SecondLinks(shown1, shown2, rest)))) == {
      "http:" + "//" + "www.facebook.com" + "/" + "analytics",
      "https:" + "//" + "developers.facebook.com" + "/" + "docs" + "/" + "marketing-api" + "/" + "app-event-api/",
      "https:" + "//" + "business.facebook.com" + "/" + "events_manager" + "/" + "app" + "/" + "events"}
  {
    SecondTargets(lead, shown1, shown2, rest);
    DevUrl();
    FbUrl();
    BizUrl();
  }

  lemma SecondTargets(lead: seq<Chunk>, shown1: seq<Chunk>, shown2: seq<Chunk>, rest: seq<Chunk>)
    requires WellFormed(lead) && NoAnchors(lead)
    requires WellFormed(shown1) && NoAnchors(shown1)
    requires WellFormed(shown2) && NoAnchors(shown2)
    requires WellFormed(rest) && NoAnchors(rest)
    ensures FindRefs(Raw(lead + Anchors(SecondLinks(shown1, shown2, rest))))
      == {Cooked(FB_HREF), Cooked(DEV_HREF), Cooked(BIZ_HREF)}
  {
    DevHrefChecked();
    FbHrefChecked();
    BizHrefChecked();
    ThreeAnchors(lead, Anchor(DEV_HREF, shown1), Anchor(FB_HREF, shown2), Anchor(BIZ_HREF, rest));
  }

  /** The same link written twice in a comment is returned once. */
  lemma RepeatedHrefOnce(lead: seq<Chunk>, a: Anchor, b: Anchor)
    requires WellFormed(lead) && NoAnchors(lead) && Regular(a) && Regular(b)
    requires Cooked(a.href) == Cooked(b.href)
    ensures FindRefs(Raw(lead + Anchors([a, b]))) == {Cooked(a.href)}
    ensures |FindRefs(Raw(lead + Anchors([a, b])))| == 1
  {
    var links := [a, b];
    assert AllRegular(links);
    CommentRefs(lead, links);
    assert links[1..] == [b];
    assert Targets([b]) == [Cooked(b.href)];
    assert Targets(links) == [Cooked(a.href), Cooked(a.href)];
  }

  /** Three regular anchors after text without anchors yield their three URLs. */
  lemma ThreeAnchors(lead: seq<Chunk>, a: Anchor, b: Anchor, c: Anchor)
    requires WellFormed(lead) && NoAnchors(lead) && Regular(a) && Regular(b) && Regular(c)
    ensures FindRefs(Raw(lead + Anchors([a, b, c]))) == {Cooked(b.href), Cooked(a.href), Cooked(c.href)}
  {
    var links := [a, b, c];
    assert AllRegular(links);
    CommentRefs(lead, links);
    assert links[1..] == [b, c] && [b, c][1..] == [c];
    assert Targets([c]) == [Cooked(c.href)];
    assert Targets([b, c]) == [Cooked(b.href)] + Targets([c]);
    assert Targets(links) == [Cooked(a.href)] + Targets([b, c]);
    SetOfThree(Cooked(a.href), Cooked(b.href), Cooked(c.href));
  }
}
