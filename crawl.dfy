/**
 * `post_download_page_with_refs_in_comments`: fetch a post, download the story page or the
 * pages a comment links to, then visit every kid, and return
 * `(number_of_comments, number_of_refs)` for the subtree.
 *
 * The source visits siblings concurrently and joins them with `asyncio.gather`; the results are
 * only summed, so visiting them one after the other, in `kids` order, gives the same numbers.
 */
module Crawl {
  import opened Wrappers
  import opened Strings
  import opened Names
  import opened Links
  import Disk
  import Storage
  import Fetcher

  /** Download URL of a story that has no `url` of its own; the id follows. */
  const STORY_TEMPLATE: string := HN_ROOT + ITEM_QUERY
  const HN_ROOT: string := "https://news.ycombinator.com/"
  const ITEM_QUERY: string := "item?id="

  /** The `kids` field of an item: missing, or the kids' ids each with what fetching it returns. */
  datatype Kids = Absent | Present(posts: seq<Post>)

  /** An item's JSON object: `type`, `title`, `url`, `text` (each possibly missing) and `kids`. */
  datatype Item = Item(kind: Option<string>, title: Option<string>, url: Option<string>,
                       text: Option<string>, kids: Kids)

  /**
   * A post id and the answer fetching it gives: the item, or None (a `null` item, or a timed-out
   * request under `Fetcher.FetchIntended`).
   */
  datatype Post = Post(id: int, reply: Option<Item>)

  function KidsOf(p: Post): seq<Post> {
    if p.reply.Some? && p.reply.value.kids.Present? then p.reply.value.kids.posts else []
  }

  predicate IsStory(it: Item) { it.kind == Some("story") }
  predicate IsComment(it: Item) { it.kind == Some("comment") }

  /** `response.get('url', STORY_TEMPLATE.format(post_id))`: without a `url`, the item's own page, whose id reads back. */
  function StoryUrl(id: int, it: Item): (r: string)
    ensures it.url.Some? ==> r == it.url.value
    ensures it.url.None? ==> |STORY_TEMPLATE| <= |r| && r[..|STORY_TEMPLATE|] == STORY_TEMPLATE
    ensures it.url.None? ==> ParseInt(r[|STORY_TEMPLATE|..]) == Some(id)
  {
    DecimalRoundTrip(id);
    var r := it.url.GetOr(STORY_TEMPLATE + Decimal(id));
    assert it.url.None? ==> r[|STORY_TEMPLATE|..] == Decimal(id);
    r
  }

  /** `response.get('title', 'untitled')`. */
  function TitleOf(it: Item): (r: string)
    ensures it.title.Some? ==> r == it.title.value
    ensures it.title.None? ==> r == "untitled"
  {
    it.title.GetOr("untitled")
  }
  /** `response.get('text', '')`. */
  function TextOf(it: Item): string { it.text.GetOr("") }

  /** What a page download returns: the body, or None when none arrives (`Fetcher.FetchIntended`). */
  function Lookup(web: map<string, string>, url: string): Option<string> {
    if url in web then Some(web[url]) else None
  }

  /** The refs a post contributes itself: the distinct links of a comment, nothing otherwise. */
  function OwnRefs(it: Item): nat {
    if IsComment(it) then |FindRefs(TextOf(it))| else 0
  }

  /** Page downloads a fetched post issues itself: its page for a story, one per link for a comment. */
  function PageFetches(it: Item): nat {
    if IsStory(it) then 1 else if IsComment(it) then |FindRefs(TextOf(it))| else 0
  }

  function Sum(xs: seq<nat>): nat {
    if xs == [] then 0 else Sum(xs[..|xs| - 1]) + xs[|xs| - 1]
  }

  /** `unpack_result(results, index)`: the `index`-th component of every pair. */
  function UnpackResult(results: seq<(nat, nat)>, index: nat): (r: seq<nat>)
    requires index < 2
    ensures |r| == |results|
    ensures forall i :: 0 <= i < |results| ==> r[i] == if index == 0 then results[i].0 else results[i].1
  {
    seq(|results|, i requires 0 <= i < |results| => if index == 0 then results[i].0 else results[i].1)
  }

  /** `(number_of_comments, number_of_refs)` returned for post `p`. */
  function Visit(p: Post): (r: (nat, nat))
    ensures p.reply.None? ==> r == (0, 0)
    decreases p, 1
  {
    match p.reply
    case None => (0, 0)
    case Some(it) =>
      match it.kids
      case Absent => (0, OwnRefs(it))
      case Present(ks) =>
        var results := KidVisits(p, |ks|);
        (|ks| + Sum(UnpackResult(results, 0)), OwnRefs(it) + Sum(UnpackResult(results, 1)))
  }

  /** Requests the visit of `p` issues: the item itself, its own pages, and its kids' requests. */
  function Fetches(p: Post): (r: nat)
    ensures p.reply.None? ==> r == 1
    ensures p.reply.Some? ==> r >= 1 + PageFetches(p.reply.value)
    decreases p, 1
  {
    match p.reply
    case None => 1
    case Some(it) =>
      match it.kids
      case Absent => 1 + PageFetches(it)
      case Present(ks) => 1 + PageFetches(it) + Sum(KidFetches(p, |ks|))
  }

  /** Downloading `urls` in order into `dest`. */
  function WritePages(d: Disk.State, urls: seq<string>, dest: string, web: map<string, string>): Disk.State {
    if urls == [] then d
    else
      var url := urls[|urls| - 1];
      Disk.WriteToDisk(WritePages(d, urls[..|urls| - 1], dest, web), Lookup(web, url), url, dest)
  }

  /**
   * What a fetched post does to the disk before its kids are visited, and the directory its
   * kids inherit: a story gets (or finds) its own directory and its page saved there; a comment
   * saves its links' pages into the inherited directory.
   */
  function NodeEffect(id: int, it: Item, dir: string, web: map<string, string>, d: Disk.State): (Disk.State, string) {
    if IsStory(it) then
      var url := StoryUrl(id, it);
      var (d1, path) := Disk.GetDirNameForStory(d, dir, TitleOf(it), id, url);
      (Disk.WriteToDisk(d1, Lookup(web, url), url, path), path)
    else if IsComment(it) then (WritePages(d, RefList(TextOf(it)), dir, web), dir)
    else (d, dir)
  }

  /** The disk after visiting `p` with inherited directory `dir`, kids in `kids` order. */
  function CrawlState(p: Post, dir: string, web: map<string, string>, d: Disk.State): Disk.State
    decreases p, |KidsOf(p)| + 1
  {
    match p.reply
    case None => d
    case Some(it) =>
      var (d1, dir1) := NodeEffect(p.id, it, dir, web, d);
      if it.kids.Present? then CrawlKids(p, |KidsOf(p)|, dir1, web, d1) else d1
  }

  /** The disk after visiting the first `n` kids of `parent`, one after the other. */
  function CrawlKids(parent: Post, n: nat, dir: string, web: map<string, string>, d: Disk.State): Disk.State
    requires n <= |KidsOf(parent)|
    decreases parent, n
  {
    if n == 0 then d else CrawlState(KidsOf(parent)[n - 1], dir, web, CrawlKids(parent, n - 1, dir, web, d))
  }

  /**
   * The first half of a visit to a fetched post: a story gets its directory and its page, a
   * comment has every distinct link it holds downloaded. Returns the directory the kids inherit
   * and the post's own ref count.
   */
  method DownloadOwnPages(fetcher: Fetcher.URLFetcher, store: Storage.Store, web: map<string, string>,
                          id: int, it: Item, storyDir: string)
    returns (dir: string, ownRefs: nat)
    modifies fetcher, store
    ensures (store.State(), dir) == NodeEffect(id, it, storyDir, web, old(store.State()))
    ensures fetcher.fetchCounter == old(fetcher.fetchCounter) + PageFetches(it)
    ensures ownRefs == OwnRefs(it)
  {
    dir := storyDir;
    ownRefs := 0;
    if IsStory(it) {
      var storyUrl := StoryUrl(id, it);
      dir := store.GetDirNameForStory(storyDir, TitleOf(it), id, storyUrl);
      fetcher.FetchPage(store, storyUrl, dir, Lookup(web, storyUrl));
    } else if IsComment(it) {
      var found := RefList(TextOf(it));
      RefListMatchesSet(TextOf(it));
      ownRefs := |found|;
      DownloadPages(fetcher, store, web, found, dir);
    }
  }

  /** `fetcher.fetch_page` for every URL of `urls` in turn, each saved into `dir`. */
  method DownloadPages(fetcher: Fetcher.URLFetcher, store: Storage.Store, web: map<string, string>,
                       urls: seq<string>, dir: string)
    modifies fetcher, store
    ensures fetcher.fetchCounter == old(fetcher.fetchCounter) + |urls|
    ensures store.State() == WritePages(old(store.State()), urls, dir, web)
  {
    var d0, c0 := store.State(), fetcher.fetchCounter;
    var j := 0;
    while j < |urls|
      invariant 0 <= j <= |urls|
      invariant fetcher.fetchCounter == c0 + j
      invariant store.State() == WritePages(d0, urls[..j], dir, web)
    {
      WritePagesSnoc(d0, urls, j, dir, web);
      fetcher.FetchPage(store, urls[j], dir, Lookup(web, urls[j]));
      j := j + 1;
    }
    assert urls[..j] == urls;
  }

  /** One page more: it is written after the others. */
  lemma WritePagesSnoc(d: Disk.State, urls: seq<string>, j: nat, dir: string, web: map<string, string>)
    requires j < |urls|
    ensures WritePages(d, urls[..j + 1], dir, web)
         == Disk.WriteToDisk(WritePages(d, urls[..j], dir, web), Lookup(web, urls[j]), urls[j], dir)
  {
    assert urls[..j + 1][..j] == urls[..j];
  }

  /**
   * `post_download_page_with_refs_in_comments(fetcher, post_id, story_dir)`, with the kids
   * visited one after the other. It returns the subtree's counts, issues exactly `Fetches(p)`
   * requests and leaves the disk as `CrawlState` describes.
   */
  method PostDownloadPageWithRefsInComments(fetcher: Fetcher.URLFetcher, store: Storage.Store,
                                             web: map<string, string>, p: Post, storyDir: string)
    returns (comments: nat, refs: nat)
    modifies fetcher, store
    ensures (comments, refs) == Visit(p)
    ensures fetcher.fetchCounter == old(fetcher.fetchCounter) + Fetches(p)
    ensures store.State() == CrawlState(p, storyDir, web, old(store.State()))
    decreases p, 3
  {
    var response := fetcher.FetchJson(p.reply);
    if response.None? {
      return 0, 0;
    }
    comments, refs := VisitFetched(fetcher, store, web, p, response.value, storyDir);
  }

  /** The rest of a visit once the post's item has arrived: its own pages, then its kids. */
  method VisitFetched(fetcher: Fetcher.URLFetcher, store: Storage.Store, web: map<string, string>,
                      p: Post, it: Item, storyDir: string)
    returns (comments: nat, refs: nat)
    requires p.reply == Some(it)
    modifies fetcher, store
    ensures (comments, refs) == Visit(p)
    ensures fetcher.fetchCounter == old(fetcher.fetchCounter) + Fetches(p) - 1
    ensures store.State() == CrawlState(p, storyDir, web, old(store.State()))
    decreases p, 2
  {
    ghost var d0 := store.State();
    var dir, ownRefs := DownloadOwnPages(fetcher, store, web, p.id, it, storyDir);
    ghost var d1 := store.State();
    comments, refs := VisitBelow(fetcher, store, web, p, it, dir, ownRefs);
    NodeUnfold(p, storyDir, web, d0, d1, dir, store.State());
    VisitUnfold(p, it, ownRefs, comments, refs);
    FetchesUnfold(p, it);
  }

  /**
   * The second half of a visit: a post without `kids` returns no comment and its own refs;
   * otherwise its kids are visited (`asyncio.gather`), and it returns the kid count plus their
   * comment counts, and its own refs plus their ref counts.
   */
  method VisitBelow(fetcher: Fetcher.URLFetcher, store: Storage.Store, web: map<string, string>,
                    p: Post, it: Item, dir: string, ownRefs: nat)
    returns (comments: nat, refs: nat)
    requires p.reply == Some(it)
    modifies fetcher, store
    ensures it.kids.Absent? ==> comments == 0 && refs == ownRefs
    ensures it.kids.Present? ==> var vs := KidVisits(p, |KidsOf(p)|);
      comments == |KidsOf(p)| + Sum(UnpackResult(vs, 0)) && refs == ownRefs + Sum(UnpackResult(vs, 1))
    ensures fetcher.fetchCounter == old(fetcher.fetchCounter) + Sum(KidFetches(p, |KidsOf(p)|))
    ensures store.State() == CrawlKids(p, |KidsOf(p)|, dir, web, old(store.State()))
    decreases p, 1
  {
    if it.kids.Absent? {
      return 0, ownRefs;
    }
    var results := VisitKids(fetcher, store, web, p, dir);
    comments := |it.kids.posts| + Sum(UnpackResult(results, 0));
    refs := ownRefs + Sum(UnpackResult(results, 1));
  }

  /** The disk after a fetched post's visit: its own step (`NodeEffect`), then its kids' crawl. */
  lemma NodeUnfold(p: Post, dir: string, web: map<string, string>, d0: Disk.State, d1: Disk.State,
                   dir1: string, d2: Disk.State)
    requires p.reply.Some? && (d1, dir1) == NodeEffect(p.id, p.reply.value, dir, web, d0)
    requires d2 == CrawlKids(p, |KidsOf(p)|, dir1, web, d1)
    ensures d2 == CrawlState(p, dir, web, d0)
  {
  }

  /**
   * A fetched post's answer: no comment and its own refs when it has no `kids`, otherwise its
   * kid count plus the kids' comment counts, and its own refs plus the kids' ref counts.
   */
  lemma VisitUnfold(p: Post, it: Item, ownRefs: nat, comments: nat, refs: nat)
    requires p.reply == Some(it) && ownRefs == OwnRefs(it)
    requires it.kids.Absent? ==> comments == 0 && refs == ownRefs
    requires it.kids.Present? ==> var vs := KidVisits(p, |KidsOf(p)|);
      comments == |KidsOf(p)| + Sum(UnpackResult(vs, 0)) && refs == ownRefs + Sum(UnpackResult(vs, 1))
    ensures (comments, refs) == Visit(p)
  {
    if it.kids.Present? {
      assert KidsOf(p) == it.kids.posts;
    }
  }

  /** A fetched post's requests: the item request, its own pages, then its kids' requests. */
  lemma FetchesUnfold(p: Post, it: Item)
    requires p.reply == Some(it)
    ensures Fetches(p) == 1 + PageFetches(it) + Sum(KidFetches(p, |KidsOf(p)|))
  {
    if it.kids.Absent? {
      assert KidsOf(p) == [];
    }
  }

  /**
   * The kids of `parent` visited one after the other, each with the inherited directory `dir`:
   * the answers in `kids` order, as `asyncio.gather` returns them.
   */
  method VisitKids(fetcher: Fetcher.URLFetcher, store: Storage.Store, web: map<string, string>,
                   parent: Post, dir: string)
    returns (results: seq<(nat, nat)>)
    modifies fetcher, store
    ensures results == KidVisits(parent, |KidsOf(parent)|)
    ensures fetcher.fetchCounter == old(fetcher.fetchCounter) + Sum(KidFetches(parent, |KidsOf(parent)|))
    ensures store.State() == CrawlKids(parent, |KidsOf(parent)|, dir, web, old(store.State()))
    decreases parent, 0
  {
    var ks := KidsOf(parent);
    results := [];
    var i := 0;
    while i < |ks|
      invariant 0 <= i <= |ks|
      invariant results == KidVisits(parent, i)
      invariant fetcher.fetchCounter == old(fetcher.fetchCounter) + Sum(KidFetches(parent, i))
      invariant store.State() == CrawlKids(parent, i, dir, web, old(store.State()))
    {
      var c, r := PostDownloadPageWithRefsInComments(fetcher, store, web, ks[i], dir);
      KidsSnoc(parent, i);
      results := results + [(c, r)];
      i := i + 1;
    }
  }

  /** Requests issued for the first `n` kids of `parent`, kid by kid. */
  function KidFetches(parent: Post, n: nat): (r: seq<nat>)
    requires n <= |KidsOf(parent)|
    ensures |r| == n
    decreases parent, 0
  {
    seq(n, i requires 0 <= i < n => Fetches(KidsOf(parent)[i]))
  }

  /** One kid more: its answer and its requests come last. */
  lemma KidsSnoc(parent: Post, n: nat)
    requires n < |KidsOf(parent)|
    ensures KidVisits(parent, n + 1) == KidVisits(parent, n) + [Visit(KidsOf(parent)[n])]
    ensures Sum(KidFetches(parent, n + 1)) == Sum(KidFetches(parent, n)) + Fetches(KidsOf(parent)[n])
  {
    assert KidFetches(parent, n + 1)[..n] == KidFetches(parent, n);
  }

  /** Every post fetched below `p`, each before its own kids, siblings in `kids` order. */
  function Descendants(p: Post): seq<Post>
    decreases p, |KidsOf(p)| + 1
  {
    DescKids(p, |KidsOf(p)|)
  }

  /** The first `n` kids of `parent`, each followed by its descendants. */
  function DescKids(parent: Post, n: nat): seq<Post>
    requires n <= |KidsOf(parent)|
    decreases parent, n
  {
    if n == 0 then []
    else
      var k := KidsOf(parent)[n - 1];
      DescKids(parent, n - 1) + [k] + Descendants(k)
  }

  function Total(ps: seq<Post>, f: Post -> nat): nat {
    if ps == [] then 0 else Total(ps[..|ps| - 1], f) + f(ps[|ps| - 1])
  }

  lemma {:induction false} TotalAppend(a: seq<Post>, b: seq<Post>, f: Post -> nat)
    ensures Total(a + b, f) == Total(a, f) + Total(b, f)
    decreases |b|
  {
    if b == [] {
      assert a + b == a;
    } else {
      assert (a + b)[..|a + b| - 1] == a + b[..|b| - 1];
      TotalAppend(a, b[..|b| - 1], f);
    }
  }

  /** The refs a post counts itself (0 when its fetch failed). */
  function NodeRefs(q: Post): nat { if q.reply.Some? then OwnRefs(q.reply.value) else 0 }

  /** 1 for a fetched story, else 0. */
  function NodeStory(q: Post): nat { if q.reply.Some? && IsStory(q.reply.value) then 1 else 0 }

  /** Requests a post issues itself: the item request, then its own pages. */
  function NodeFetches(q: Post): nat { 1 + if q.reply.Some? then PageFetches(q.reply.value) else 0 }

  /**
   * What `post_download_page_with_refs_in_comments` returns is a census of the tree below the
   * post: `number_of_comments` counts every post reached below it (failed fetches included,
   * since a kid is counted by its parent), and `number_of_refs` adds up the distinct links of
   * every fetched comment in the subtree, the post itself included.
   */
  lemma {:induction false} VisitCounts(p: Post)
    ensures Visit(p) == (|Descendants(p)|, NodeRefs(p) + Total(Descendants(p), NodeRefs))
    decreases p, |KidsOf(p)| + 1
  {
    if p.reply.Some? && p.reply.value.kids.Present? {
      KidsCounts(p, |KidsOf(p)|);
      assert Descendants(p) == DescKids(p, |KidsOf(p)|);
      ParentCounts(p, |Descendants(p)|, Total(Descendants(p), NodeRefs));
    } else {
      LeafCounts(p);
    }
  }

  /** A post with kids returns `comments` and its own refs plus `refs` when its kids' sums make up those. */
  lemma ParentCounts(p: Post, comments: nat, refs: nat)
    requires p.reply.Some? && p.reply.value.kids.Present?
    requires var n := |KidsOf(p)|;
      && n + Sum(UnpackResult(KidVisits(p, n), 0)) == comments
      && Sum(UnpackResult(KidVisits(p, n), 1)) == refs
    ensures Visit(p) == (comments, NodeRefs(p) + refs)
  {
    var own := OwnRefs(p.reply.value);
    assert NodeRefs(p) == own;
    VisitUnfold(p, p.reply.value, own, comments, own + refs);
  }

  /** A post with no kids reaches nothing below it and returns its own refs. */
  lemma LeafCounts(p: Post)
    requires !(p.reply.Some? && p.reply.value.kids.Present?)
    ensures Visit(p) == (|Descendants(p)|, NodeRefs(p) + Total(Descendants(p), NodeRefs))
  {
    assert KidsOf(p) == [];
    assert Descendants(p) == [];
  }

  /** The answers of the first `n` kids of `parent`, as `asyncio.gather` collects them. */
  function KidVisits(parent: Post, n: nat): (r: seq<(nat, nat)>)
    requires n <= |KidsOf(parent)|
    ensures |r| == n
    decreases parent, 0
  {
    seq(n, i requires 0 <= i < n => Visit(KidsOf(parent)[i]))
  }

  /**
   * As written, a post whose item request runs out of time makes `fetch` raise, so the visit
   * raises instead of returning; a post whose item is `null` returns `(0, 0)`.
   */
  lemma TimeoutEscapes(id: int)
    ensures Fetcher.FetchAsWritten<Item>(Fetcher.TimedOut) == Fetcher.Raises
    ensures Fetcher.FetchAsWritten<Item>(Fetcher.Arrived(None)) == Fetcher.Returned(None)
    ensures Visit(Post(id, None)) == (0, 0)
  {
  }

  /**
   * As the timeout handler intends: a post whose item request runs out of time counts no
   * comment and no ref, costs that one request, and leaves the disk as it was.
   */
  lemma TimedOutPostCountsNothing(id: int, dir: string, web: map<string, string>, d: Disk.State)
    ensures var p := Post(id, Fetcher.FetchIntended<Item>(Fetcher.TimedOut));
      Visit(p) == (0, 0) && Fetches(p) == 1 && CrawlState(p, dir, web, d) == d && Descendants(p) == []
  {
  }

  lemma {:induction false} KidsCounts(parent: Post, n: nat)
    requires n <= |KidsOf(parent)|
    ensures n + Sum(UnpackResult(KidVisits(parent, n), 0)) == |DescKids(parent, n)|
    ensures Sum(UnpackResult(KidVisits(parent, n), 1)) == Total(DescKids(parent, n), NodeRefs)
    decreases parent, n
  {
    if n > 0 {
      var k := KidsOf(parent)[n - 1];
      KidsCounts(parent, n - 1);
      VisitCounts(k);
      KidVisitsLast(parent, n);
      TotalAppend(DescKids(parent, n - 1) + [k], Descendants(k), NodeRefs);
      TotalAppend(DescKids(parent, n - 1), [k], NodeRefs);
      assert Total([k], NodeRefs) == NodeRefs(k) by {
        assert [k][..0] == [];
      }
    }
  }

  /** Unpacking `n` answers: the first `n - 1` answers unpacked, then the last kid's. */
  lemma KidVisitsLast(parent: Post, n: nat)
    requires 0 < n <= |KidsOf(parent)|
    ensures var vs := KidVisits(parent, n); var v := Visit(KidsOf(parent)[n - 1]);
      Sum(UnpackResult(vs, 0)) == Sum(UnpackResult(KidVisits(parent, n - 1), 0)) + v.0
      && Sum(UnpackResult(vs, 1)) == Sum(UnpackResult(KidVisits(parent, n - 1), 1)) + v.1
  {
    var vs := KidVisits(parent, n);
    var prev := KidVisits(parent, n - 1);
    assert UnpackResult(vs, 0)[..n - 1] == UnpackResult(prev, 0);
    assert UnpackResult(vs, 1)[..n - 1] == UnpackResult(prev, 1);
  }

  /**
   * `fetch_counter` after a visit: one item request for `p` and every post below it, plus
   * every fetched post's own pages.
   */
  lemma {:induction false} FetchesCounts(p: Post)
    ensures Fetches(p) == NodeFetches(p) + Total(Descendants(p), NodeFetches)
    decreases p, |KidsOf(p)| + 1
  {
    if p.reply.Some? && p.reply.value.kids.Present? {
      KidsFetches(p, |KidsOf(p)|);
    }
  }

  lemma {:induction false} KidsFetches(parent: Post, n: nat)
    requires n <= |KidsOf(parent)|
    ensures Sum(seq(n, i requires 0 <= i < n => Fetches(KidsOf(parent)[i])))
         == Total(DescKids(parent, n), NodeFetches)
    decreases parent, n
  {
    if n > 0 {
      var ks := KidsOf(parent);
      var k := ks[n - 1];
      var fs := seq(n, i requires 0 <= i < n => Fetches(ks[i]));
      KidsFetches(parent, n - 1);
      FetchesCounts(k);
      assert fs[..n - 1] == seq(n - 1, i requires 0 <= i < n - 1 => Fetches(ks[i]));
      TotalAppend(DescKids(parent, n - 1) + [k], Descendants(k), NodeFetches);
      TotalAppend(DescKids(parent, n - 1), [k], NodeFetches);
      assert Total([k], NodeFetches) == NodeFetches(k) by {
        assert [k][..0] == [];
      }
    }
  }

  /** Per post, requests split into the item request, the story page, and the comment's links. */
  lemma {:induction false} TotalFetchesSplit(ps: seq<Post>)
    ensures Total(ps, NodeFetches) == |ps| + Total(ps, NodeStory) + Total(ps, NodeRefs)
  {
    if ps != [] {
      TotalFetchesSplit(ps[..|ps| - 1]);
    }
  }

  /**
   * The fetch count of a whole visit, in the returned numbers: one request for the post and
   * one per comment counted, one per story page, and one per ref counted.
   */
  lemma FetchesTally(p: Post)
    ensures Fetches(p) == 1 + Visit(p).0 + Total([p] + Descendants(p), NodeStory) + Visit(p).1
  {
    VisitCounts(p);
    FetchesCounts(p);
    TotalFetchesSplit(Descendants(p));
    TotalAppend([p], Descendants(p), NodeStory);
    assert Total([p], NodeStory) == NodeStory(p) by {
      assert [p][..0] == [];
    }
  }

  /** Nothing is removed: directories and files stay, `DOWNLOADED_STORIES` is only appended to. */
  predicate Grows(d: Disk.State, r: Disk.State) {
    d.dirs <= r.dirs && d.files.Keys <= r.files.Keys
    && |d.downloaded| <= |r.downloaded| && r.downloaded[..|d.downloaded|] == d.downloaded
  }

  /** The ids of the fetched stories among `ps`. */
  function StoryIds(ps: seq<Post>): set<int> {
    set i | 0 <= i < |ps| && NodeStory(ps[i]) == 1 :: ps[i].id
  }

  /** `r` extends `d`, and every id it appends to `DOWNLOADED_STORIES` is in `ids`. */
  predicate AddsOnly(d: Disk.State, r: Disk.State, ids: set<int>) {
    Grows(d, r) && forall i :: |d.downloaded| <= i < |r.downloaded| ==> r.downloaded[i] in ids
  }

  /** An id in the list stays in it while the list only grows. */
  lemma StaysDownloaded(d: Disk.State, r: Disk.State, id: int)
    requires Grows(d, r) && id in d.downloaded
    ensures id in r.downloaded
  {
    var k :| 0 <= k < |d.downloaded| && d.downloaded[k] == id;
    assert r.downloaded[..|d.downloaded|][k] == id;
  }

  lemma GrowsTrans(d0: Disk.State, d1: Disk.State, d2: Disk.State)
    requires Grows(d0, d1) && Grows(d1, d2)
    ensures Grows(d0, d2)
  {
    assert d2.downloaded[..|d0.downloaded|] == d1.downloaded[..|d0.downloaded|];
  }

  lemma AddsOnlyTrans(d0: Disk.State, d1: Disk.State, d2: Disk.State, a: set<int>, b: set<int>)
    requires AddsOnly(d0, d1, a) && AddsOnly(d1, d2, b)
    ensures AddsOnly(d0, d2, a + b)
  {
    assert d2.downloaded[..|d0.downloaded|] == d1.downloaded[..|d0.downloaded|];
    forall i | |d0.downloaded| <= i < |d2.downloaded|
      ensures d2.downloaded[i] in a + b
    {
      if i < |d1.downloaded| {
        assert d2.downloaded[i] == d1.downloaded[i];
      }
    }
  }

  lemma StoryIdsAppend(a: seq<Post>, b: seq<Post>)
    ensures StoryIds(a + b) == StoryIds(a) + StoryIds(b)
  {
    var ab := a + b;
    forall x | x in StoryIds(a) ensures x in StoryIds(a + b) {
      var i :| 0 <= i < |a| && NodeStory(a[i]) == 1 && a[i].id == x;
      assert ab[i] == a[i];
    }
    forall x | x in StoryIds(a + b) ensures x in StoryIds(a) + StoryIds(b) {
      var i :| 0 <= i < |ab| && NodeStory(ab[i]) == 1 && ab[i].id == x;
      if i >= |a| {
        assert b[i - |a|] == ab[i];
      }
    }
    forall x | x in StoryIds(b) ensures x in StoryIds(a + b) {
      var i :| 0 <= i < |b| && NodeStory(b[i]) == 1 && b[i].id == x;
      assert ab[|a| + i] == b[i];
    }
  }

  lemma {:induction false} WritePagesGrows(d: Disk.State, urls: seq<string>, dest: string, web: map<string, string>)
    ensures Grows(d, WritePages(d, urls, dest, web))
    ensures WritePages(d, urls, dest, web).downloaded == d.downloaded
  {
    if urls != [] {
      WritePagesGrows(d, urls[..|urls| - 1], dest, web);
    }
  }

  /** A post's own step adds at most its own id, and only when it is a story. */
  lemma NodeEffectGrows(id: int, it: Item, dir: string, web: map<string, string>, d: Disk.State)
    ensures AddsOnly(d, NodeEffect(id, it, dir, web, d).0, if IsStory(it) then {id} else {})
  {
    if IsStory(it) {
      var d1 := Disk.GetDirNameForStory(d, dir, TitleOf(it), id, StoryUrl(id, it)).0;
      assert d1.downloaded[..|d.downloaded|] == d.downloaded;
    } else if IsComment(it) {
      WritePagesGrows(d, RefList(TextOf(it)), dir, web);
    }
  }

  /** Only the ids listed may be added, so any larger set of ids also bounds what is added. */
  lemma AddsOnlyWiden(d: Disk.State, r: Disk.State, a: set<int>, b: set<int>)
    requires AddsOnly(d, r, a) && a <= b
    ensures AddsOnly(d, r, b)
  {
  }

  /**
   * Crawling a subtree never removes a directory, a file or a list entry, and every id it adds
   * to `DOWNLOADED_STORIES` is that of a story fetched in the subtree.
   */
  lemma {:induction false} CrawlGrows(p: Post, dir: string, web: map<string, string>, d: Disk.State)
    ensures AddsOnly(d, CrawlState(p, dir, web, d), StoryIds([p] + Descendants(p)))
    decreases p, |KidsOf(p)| + 1
  {
    if p.reply.Some? {
      var it := p.reply.value;
      var (d1, dir1) := NodeEffect(p.id, it, dir, web, d);
      var own: set<int> := if IsStory(it) then {p.id} else {};
      NodeEffectGrows(p.id, it, dir, web, d);
      StoryIdsAppend([p], Descendants(p));
      assert own <= StoryIds([p]) by {
        assert [p][0] == p;
      }
      if it.kids.Present? {
        KidsGrow(p, |KidsOf(p)|, dir1, web, d1);
        AddsOnlyTrans(d, d1, CrawlState(p, dir, web, d), own, StoryIds(Descendants(p)));
        AddsOnlyWiden(d, CrawlState(p, dir, web, d), own + StoryIds(Descendants(p)), StoryIds([p] + Descendants(p)));
      } else {
        AddsOnlyWiden(d, d1, own, StoryIds([p] + Descendants(p)));
      }
    }
  }

  lemma {:induction false} KidsGrow(parent: Post, n: nat, dir: string, web: map<string, string>, d: Disk.State)
    requires n <= |KidsOf(parent)|
    ensures AddsOnly(d, CrawlKids(parent, n, dir, web, d), StoryIds(DescKids(parent, n)))
    decreases parent, n
  {
    if n > 0 {
      var k := KidsOf(parent)[n - 1];
      var mid := CrawlKids(parent, n - 1, dir, web, d);
      KidsGrow(parent, n - 1, dir, web, d);
      CrawlGrows(k, dir, web, mid);
      AddsOnlyTrans(d, mid, CrawlKids(parent, n, dir, web, d), StoryIds(DescKids(parent, n - 1)), StoryIds([k] + Descendants(k)));
      StoryIdsAppend(DescKids(parent, n - 1), [k] + Descendants(k));
      assert DescKids(parent, n) == DescKids(parent, n - 1) + ([k] + Descendants(k));
    }
  }

  /**
   * A story without a `url` is downloaded from its item page, whose basename is
   * `item?id=<id>`; so its directory is named after that, never after its title.
   */
  lemma UrlLessStoryDir(id: int, it: Item)
    requires it.url.None?
    ensures DirName(id, TitleOf(it), StoryUrl(id, it)) == Decimal(id) + " " + Prefix(ITEM_QUERY + Decimal(id), DIR_NAME_LIMIT)
  {
    ItemUrlBasename(id);
  }

  /** The basename of an item's page address is its query, `item?id=<id>`. */
  lemma ItemUrlBasename(id: int)
    ensures Basename(STORY_TEMPLATE + Decimal(id)) == ITEM_QUERY + Decimal(id)
  {
    var tail := ITEM_QUERY + Decimal(id);
    assert STORY_TEMPLATE + Decimal(id) == HN_ROOT + tail;
    assert HN_ROOT[|HN_ROOT| - 1] == '/';
    assert '/' !in tail by {
      assert '/' !in ITEM_QUERY;
      forall i | 0 <= i < |tail| ensures tail[i] != '/' {
        if i >= |ITEM_QUERY| {
          assert tail[i] == Decimal(id)[i - |ITEM_QUERY|];
        }
      }
    }
    BasenameAfterSlash(HN_ROOT, tail);
  }

  /**
   * After a fetched story is visited, its id is in `DOWNLOADED_STORIES`, unless its directory
   * already existed (then nothing was recorded, and a later cycle will select it again).
   */
  lemma StoryRemembered(q: Post, dir: string, web: map<string, string>, d: Disk.State)
    requires q.reply.Some? && IsStory(q.reply.value)
    ensures var it := q.reply.value;
      q.id in CrawlState(q, dir, web, d).downloaded
      || Disk.Exists(d, Disk.StoryPath(dir, TitleOf(it), q.id, StoryUrl(q.id, it)))
  {
    var it := q.reply.value;
    var (d1, dir1) := NodeEffect(q.id, it, dir, web, d);
    if !Disk.Exists(d, Disk.StoryPath(dir, TitleOf(it), q.id, StoryUrl(q.id, it))) {
      StoryStepRecords(q.id, it, dir, web, d);
      var d2 := CrawlKids(q, |KidsOf(q)|, dir1, web, d1);
      NodeUnfold(q, dir, web, d, d1, dir1, d2);
      KidsGrow(q, |KidsOf(q)|, dir1, web, d1);
      StaysDownloaded(d1, d2, q.id);
    }
  }

  /** A story whose directory is new has its id appended to `DOWNLOADED_STORIES` by its own step. */
  lemma StoryStepRecords(id: int, it: Item, dir: string, web: map<string, string>, d: Disk.State)
    requires IsStory(it) && !Disk.Exists(d, Disk.StoryPath(dir, TitleOf(it), id, StoryUrl(id, it)))
    ensures id in NodeEffect(id, it, dir, web, d).0.downloaded
  {
    var d1 := Disk.GetDirNameForStory(d, dir, TitleOf(it), id, StoryUrl(id, it)).0;
    assert d1.downloaded == d.downloaded + [id];
    assert d1.downloaded[|d.downloaded|] == id;
  }

}
