/**
 * The on-disk ledger `list.txt`: one tab-separated record `id<TAB>title<TAB>url` per story,
 * appended by `create_dir_and_add_to_list` and read back by `init_list`, which keeps the
 * integer before the first tab of every line.
 */
module Ledger {
  import opened Wrappers
  import opened Strings

  const CONTENT_FILE: string := "list.txt"

  /** `'\t'.join([str(story_id), title, url]) + '\n'`: a line whose first field is the id. */
  function RecordLine(id: int, title: string, url: string): (r: string)
    ensures r != [] && r[|r| - 1] == '\n'
    ensures FirstField(r) == Decimal(id)
  {
    var d := Decimal(id);
    var line := d + "\t" + title + "\t" + url + "\n";
    assert line[..|d|] == d && line[|d|] == '\t';
    assert forall i :: 0 <= i < |d| ==> d[i] != '\t';
    line
  }

  predicate IsLineBreak(c: char) { c == '\n' || c == '\r' }

  /** Text that a line break would cut: a title or URL must not hold one to survive a re-read. */
  predicate SingleLine(t: string) { forall i :: 0 <= i < |t| ==> !IsLineBreak(t[i]) }

  /** First line break at or after `k`, or `|s|`. */
  function LineEnd(s: string, k: nat): (e: nat)
    requires k <= |s|
    ensures k <= e <= |s|
    ensures forall j :: k <= j < e ==> !IsLineBreak(s[j])
    ensures e == |s| || IsLineBreak(s[e])
    decreases |s| - k
  {
    if k == |s| || IsLineBreak(s[k]) then k else LineEnd(s, k + 1)
  }

  /**
   * `f.readlines()` on a file opened in text mode: `\r\n`, `\r` and `\n` all end a line and
   * read as `\n`; the last line keeps no terminator when the file does not end with one.
   */
  function ReadLines(s: string): (r: seq<string>)
    ensures (r == []) == (s == [])
    decreases |s|
  {
    if s == [] then []
    else
      var e := LineEnd(s, 0);
      if e == |s| then [s] else [s[..e] + "\n"] + ReadLines(s[AfterBreak(s, e)..])
  }

  /** A line as `readlines` gives it: non-empty, with no line break before its last character. */
  predicate LineShaped(line: string) {
    line != [] && SingleLine(line[..|line| - 1])
  }

  /** Every line shaped, and every line but the last ending with `\n`. */
  predicate LinesShaped(r: seq<string>) {
    forall i :: 0 <= i < |r| ==> LineShaped(r[i]) && (i < |r| - 1 ==> r[i][|r[i]| - 1] == '\n')
  }

  /**
   * `readlines` keeps each line's terminator, as `\n`: every line is non-empty, holds no line
   * break before its last character, and every line but the last ends with `\n`.
   */
  lemma {:induction false} ReadLinesShape(s: string)
    ensures LinesShaped(ReadLines(s))
    decreases |s|
  {
    if s != [] {
      var e := LineEnd(s, 0);
      if e < |s| {
        var first := s[..e] + "\n";
        assert first[..|first| - 1] == s[..e];
        var rest := s[AfterBreak(s, e)..];
        ReadLinesShape(rest);
        LinesShapedCons(first, ReadLines(rest));
      } else {
        assert s[..|s| - 1] == s[..e - 1];
      }
    }
  }

  lemma LinesShapedCons(first: string, tail: seq<string>)
    requires LineShaped(first) && first[|first| - 1] == '\n' && LinesShaped(tail)
    ensures LinesShaped([first] + tail)
  {
    var r := [first] + tail;
    forall i | 0 < i < |r| ensures r[i] == tail[i - 1] { }
  }

  /** Where the next line starts after the line break at `e` (`\r\n` counts as one break). */
  function AfterBreak(s: string, e: nat): (r: nat)
    requires e < |s| && IsLineBreak(s[e])
    ensures e < r <= |s|
  {
    if s[e] == '\r' && e + 1 < |s| && s[e + 1] == '\n' then e + 2 else e + 1
  }

  /** `item.split('\t')[0]`: the text before the first tab. */
  function FirstField(line: string): (r: string)
    ensures |r| <= |line| && r == line[..|r|]
    ensures '\t' !in r
    ensures |r| < |line| ==> line[|r|] == '\t'
  {
    if line == [] || line[0] == '\t' then [] else [line[0]] + FirstField(line[1..])
  }

  /** The ids of `lines`, or None as soon as one line does not start with an integer. */
  function ParseIds(lines: seq<string>): (r: Option<seq<int>>)
    ensures r.Some? <==> forall i :: 0 <= i < |lines| ==> ParseInt(FirstField(lines[i])).Some?
    ensures r.Some? ==> |r.value| == |lines|
    ensures r.Some? ==> forall i :: 0 <= i < |lines| ==> r.value[i] == ParseInt(FirstField(lines[i])).value
  {
    if lines == [] then Some([])
    else match ParseIds(lines[..|lines| - 1])
      case None => None
      case Some(ids) =>
        match ParseInt(FirstField(lines[|lines| - 1]))
        case None => None
        case Some(v) => Some(ids + [v])
  }

  /** Reading one more line: it fails, or it adds its id. */
  lemma ParseIdsStep(lines: seq<string>, i: nat)
    requires i < |lines|
    ensures ParseIds(lines[..i + 1]) ==
      match ParseIds(lines[..i])
      case None => None
      case Some(ids) =>
        match ParseInt(FirstField(lines[i]))
        case None => None
        case Some(v) => Some(ids + [v])
  {
    assert lines[..i + 1][..i] == lines[..i];
  }

  /** A line that fails makes the whole read fail, whatever follows it. */
  lemma {:induction false} ParseIdsFailureSticks(lines: seq<string>, n: nat)
    requires n <= |lines| && ParseIds(lines[..n]) == None
    ensures ParseIds(lines) == None
    decreases |lines| - n
  {
    if n < |lines| {
      assert lines[..n + 1][..n] == lines[..n];
      ParseIdsFailureSticks(lines, n + 1);
    } else {
      assert lines[..n] == lines;
    }
  }

  /** The ids `init_list` reads from the ledger's text. */
  function LedgerIds(text: string): (r: Option<seq<int>>)
    ensures text == [] ==> r == Some([])
    ensures r.Some? ==> |r.value| == |ReadLines(text)|
  {
    ParseIds(ReadLines(text))
  }

  /** The record's first field parses back to the id. */
  lemma RecordFirstField(id: int, title: string, url: string)
    ensures ParseInt(FirstField(RecordLine(id, title, url))) == Some(id)
  {
    DecimalRoundTrip(id);
  }

  /** Text that is empty or ends a line. */
  predicate Terminated(t: string) { t == [] || t[|t| - 1] == '\n' }

  /** A whole line appended after terminated text reads back as one more line. */
  lemma {:induction false} ReadLinesAppend(t: string, x: string)
    requires Terminated(t) && SingleLine(x)
    ensures ReadLines(t + (x + "\n")) == ReadLines(t) + [x + "\n"]
    decreases |t|
  {
    if t == [] {
      ReadLinesSingle(x);
      assert t + (x + "\n") == x + "\n";
    } else {
      var next := AfterBreak(t, LineEnd(t, 0));
      ReadLinesFirst(t, x + "\n");
      ReadLinesAppend(t[next..], x);
    }
  }

  /** A single terminated line reads back as itself. */
  lemma ReadLinesSingle(x: string)
    requires SingleLine(x)
    ensures ReadLines(x + "\n") == [x + "\n"]
  {
    var s := x + "\n";
    LineEndAt(s, 0, |x|);
    assert s[..|x|] == x;
    assert s[|x| + 1..] == [];
  }

  /** The first line of terminated text comes first, whatever is appended after the text. */
  lemma ReadLinesFirst(t: string, u: string)
    requires Terminated(t) && t != []
    ensures var e := LineEnd(t, 0); var next := AfterBreak(t, e);
      ReadLines(t + u) == [t[..e] + "\n"] + ReadLines(t[next..] + u)
      && ReadLines(t) == [t[..e] + "\n"] + ReadLines(t[next..])
      && Terminated(t[next..])
  {
    var e := LineEnd(t, 0);
    var next := AfterBreak(t, e);
    ExtendLine(t, u, e);
    if next < |t| { assert t[next..][|t[next..]| - 1] == t[|t| - 1]; }
  }

  /** The first line of terminated text is unaffected by what is appended after it. */
  lemma ExtendLine(t: string, u: string, e: nat)
    requires Terminated(t) && t != [] && e == LineEnd(t, 0)
    ensures e < |t|
    ensures LineEnd(t + u, 0) == e
    ensures AfterBreak(t + u, e) == AfterBreak(t, e)
    ensures (t + u)[..e] == t[..e]
    ensures (t + u)[AfterBreak(t, e)..] == t[AfterBreak(t, e)..] + u
  {
    var s := t + u;
    assert IsLineBreak(t[|t| - 1]);
    assert forall j :: 0 <= j < |t| ==> s[j] == t[j];
    LineEndPrefix(s, t, 0);
    if t[e] == '\r' {
      assert e + 1 < |t|;
    }
  }

  /** The first line break from `k` is at `e` when none comes before it. */
  lemma {:induction false} LineEndAt(s: string, k: nat, e: nat)
    requires k <= e < |s| && IsLineBreak(s[e]) && forall j :: k <= j < e ==> !IsLineBreak(s[j])
    ensures LineEnd(s, k) == e
    decreases e - k
  {
    if k < e {
      LineEndAt(s, k + 1, e);
    }
  }

  /** A record line holds exactly one line break, its last character. */
  lemma RecordSingleLine(id: int, title: string, url: string)
    requires SingleLine(title) && SingleLine(url)
    ensures SingleLine(Decimal(id) + "\t" + title + "\t" + url)
  {
    var d := Decimal(id);
    var x := d + "\t" + title + "\t" + url;
    forall i | 0 <= i < |x| ensures !IsLineBreak(x[i]) {
      if i < |d| {
        assert x[i] == d[i];
      } else if i == |d| {
      } else if i < |d| + 1 + |title| {
        assert x[i] == title[i - |d| - 1];
      } else if i == |d| + 1 + |title| {
      } else {
        assert x[i] == url[i - |d| - 2 - |title|];
      }
    }
  }

  /** Searching for a line break in a prefix that holds one gives the same position. */
  lemma {:induction false} LineEndPrefix(s: string, t: string, k: nat)
    requires |t| <= |s| && k <= |t| && (forall j :: 0 <= j < |t| ==> s[j] == t[j])
    requires LineEnd(t, k) < |t|
    ensures LineEnd(s, k) == LineEnd(t, k)
    decreases |t| - k
  {
    if !IsLineBreak(t[k]) {
      LineEndPrefix(s, t, k + 1);
    }
  }

  /**
   * Appending one record to a ledger that reads back as `ids` makes it read back as
   * `ids + [id]`, provided the title and URL hold no line break.
   */
  lemma LedgerAppend(t: string, ids: seq<int>, id: int, title: string, url: string)
    requires Terminated(t) && LedgerIds(t) == Some(ids)
    requires SingleLine(title) && SingleLine(url)
    ensures LedgerIds(t + RecordLine(id, title, url)) == Some(ids + [id])
    ensures Terminated(t + RecordLine(id, title, url))
  {
    var line := RecordLine(id, title, url);
    var x := Decimal(id) + "\t" + title + "\t" + url;
    assert line == x + "\n";
    RecordSingleLine(id, title, url);
    ReadLinesAppend(t, x);
    RecordFirstField(id, title, url);
    ParseIdsSnoc(ReadLines(t), line);
  }

  /** One more line that starts with an integer adds that integer to the ids. */
  lemma ParseIdsSnoc(lines: seq<string>, line: string)
    requires ParseIds(lines).Some? && ParseInt(FirstField(line)).Some?
    ensures ParseIds(lines + [line]) == Some(ParseIds(lines).value + [ParseInt(FirstField(line)).value])
  {
    assert (lines + [line])[..|lines|] == lines;
  }

  /** A ledger record: what one story's line holds. */
  datatype Record = Record(id: int, title: string, url: string)

  /** The ledger text after appending `rs` in order to an empty file. */
  function LedgerText(rs: seq<Record>): string {
    if rs == [] then []
    else
      var r := rs[|rs| - 1];
      LedgerText(rs[..|rs| - 1]) + RecordLine(r.id, r.title, r.url)
  }

  function Ids(rs: seq<Record>): (r: seq<int>)
    ensures |r| == |rs| && forall i :: 0 <= i < |rs| ==> r[i] == rs[i].id
  {
    if rs == [] then [] else Ids(rs[..|rs| - 1]) + [rs[|rs| - 1].id]
  }

  /** Round trip: the ids written by successive appends read back in file order, one per line. */
  lemma {:induction false} LedgerRoundTrip(rs: seq<Record>)
    requires forall i :: 0 <= i < |rs| ==> SingleLine(rs[i].title) && SingleLine(rs[i].url)
    ensures LedgerIds(LedgerText(rs)) == Some(Ids(rs))
    ensures Terminated(LedgerText(rs))
  {
    if rs != [] {
      var init := rs[..|rs| - 1];
      var r := rs[|rs| - 1];
      LedgerRoundTrip(init);
      LedgerAppend(LedgerText(init), Ids(init), r.id, r.title, r.url);
    }
  }
}
