/**
 * One poll cycle, `download_top_stories_with_refs_in_comment`: fetch the top-stories list,
 * keep the first `limit` ids not yet in `DOWNLOADED_STORIES`, visit each, and report the
 * number of requests issued.
 */
module Cycle {
  import opened Wrappers
  import opened Crawl
  import Disk
  import Storage
  import Fetcher

  /** `response[:limit]` with Python's slice rules: a negative limit drops that many from the end. */
  function TakeLimit(top: seq<Post>, limit: int): (r: seq<Post>)
    ensures r <= top
    ensures limit >= 0 ==> |r| == if limit < |top| then limit else |top|
    ensures limit < 0 ==> |r| == if |top| + limit > 0 then |top| + limit else 0
  {
    if limit >= |top| then top
    else if limit >= 0 then top[..limit]
    else if |top| + limit > 0 then top[..|top| + limit]
    else []
  }

  /** The posts of `ps` whose id is not in `downloaded`, in order. */
  function Unvisited(ps: seq<Post>, downloaded: seq<int>): (r: seq<Post>)
    ensures |r| <= |ps|
    ensures forall q :: q in r ==> q in ps && q.id !in downloaded
  {
    if ps == [] then []
    else
      var q := ps[|ps| - 1];
      Unvisited(ps[..|ps| - 1], downloaded) + if q.id in downloaded then [] else [q]
  }

  /** The posts a cycle visits, chosen against the list as it stood when the cycle began. */
  function Selected(top: seq<Post>, limit: int, downloaded: seq<int>): seq<Post> {
    Unvisited(TakeLimit(top, limit), downloaded)
  }

  /** A post is visited exactly when it is within the limit and its id was not yet downloaded. */
  lemma {:induction false} UnvisitedIff(ps: seq<Post>, downloaded: seq<int>, q: Post)
    ensures q in Unvisited(ps, downloaded) <==> q in ps && q.id !in downloaded
  {
    if ps != [] {
      var init := ps[..|ps| - 1];
      UnvisitedIff(init, downloaded, q);
      assert ps == init + [ps[|ps| - 1]];
    }
  }

  lemma SelectedIff(top: seq<Post>, limit: int, downloaded: seq<int>, q: Post)
    ensures q in Selected(top, limit, downloaded) <==> q in TakeLimit(top, limit) && q.id !in downloaded
  {
    UnvisitedIff(TakeLimit(top, limit), downloaded, q);
  }

  /** The disk after visiting `ps` one after the other, each with the stories folder as its directory. */
  function CrawlAll(ps: seq<Post>, path: string, web: map<string, string>, d: Disk.State): Disk.State {
    if ps == [] then d
    else CrawlState(ps[|ps| - 1], path, web, CrawlAll(ps[..|ps| - 1], path, web, d))
  }

  /**
   * `download_top_stories_with_refs_in_comment`, with the selected posts visited one after the
   * other. `top` is the top-stories answer: each listed id with what fetching it returns, or
   * None when it gives no list (a timed-out request under `Fetcher.FetchIntended`), in which
   * case slicing it raises and no count is returned.
   */
  method DownloadTopStories(store: Storage.Store, web: map<string, string>, limit: int, path: string,
                            top: Option<seq<Post>>)
    returns (fetchCount: Option<nat>, results: seq<(nat, nat)>)
    modifies store
    ensures top.None? ==> fetchCount == None && results == [] && store.State() == old(store.State())
    ensures top.Some? ==>
      var chosen := Selected(top.value, limit, old(store.downloadedStories));
      && fetchCount == Some(1 + Total(chosen, Fetches))
      && |results| == |chosen|
      && (forall i :: 0 <= i < |chosen| ==> results[i] == Visit(chosen[i]))
      && store.State() == CrawlAll(chosen, path, web, old(store.State()))
  {
    var fetcher := new Fetcher.URLFetcher();
    var response := fetcher.FetchJson(top);
    if response.None? {
      return None, [];
    }
    var window := TakeLimit(response.value, limit);
    var chosen := SelectUnvisited(window, store.downloadedStories);
    assert chosen == Selected(top.value, limit, old(store.downloadedStories));
    assert fetcher.fetchCounter == 1;
    results := VisitAll(fetcher, store, web, chosen, path);
    fetchCount := Some(fetcher.fetchCounter);
  }

  /** The loop that keeps the ids of `window` not in `downloaded`, in order. */
  method SelectUnvisited(window: seq<Post>, downloaded: seq<int>) returns (chosen: seq<Post>)
    ensures chosen == Unvisited(window, downloaded)
  {
    chosen := [];
    var i := 0;
    while i < |window|
      invariant 0 <= i <= |window|
      invariant chosen == Unvisited(window[..i], downloaded)
    {
      assert window[..i + 1][..i] == window[..i];
      if window[i].id !in downloaded {
        chosen := chosen + [window[i]];
      }
      i := i + 1;
    }
    assert window[..i] == window;
  }

  /** Every chosen post visited in turn with the stories folder as its directory. */
  method VisitAll(fetcher: Fetcher.URLFetcher, store: Storage.Store, web: map<string, string>,
                  chosen: seq<Post>, path: string)
    returns (results: seq<(nat, nat)>)
    modifies fetcher, store
    ensures results == Visits(chosen)
    ensures fetcher.fetchCounter == old(fetcher.fetchCounter) + Total(chosen, Fetches)
    ensures store.State() == CrawlAll(chosen, path, web, old(store.State()))
  {
    var d0, c0 := store.State(), fetcher.fetchCounter;
    results := [];
    var j := 0;
    while j < |chosen|
      invariant 0 <= j <= |chosen|
      invariant results == Visits(chosen[..j])
      invariant fetcher.fetchCounter == c0 + Total(chosen[..j], Fetches)
      invariant store.State() == CrawlAll(chosen[..j], path, web, d0)
    {
      PrefixSnoc(chosen, j, path, web, d0);
      var c, r := PostDownloadPageWithRefsInComments(fetcher, store, web, chosen[j], path);
      results := results + [(c, r)];
      j := j + 1;
    }
    assert chosen[..j] == chosen;
  }

  /** The answers of `ps`, one per post, in order, as `asyncio.gather` collects them. */
  function Visits(ps: seq<Post>): (r: seq<(nat, nat)>)
    ensures |r| == |ps| && forall k :: 0 <= k < |ps| ==> r[k] == Visit(ps[k])
  {
    seq(|ps|, k requires 0 <= k < |ps| => Visit(ps[k]))
  }

  /** One post more: its answer and its requests are added, and its crawl follows the others'. */
  lemma PrefixSnoc(ps: seq<Post>, j: nat, path: string, web: map<string, string>, d: Disk.State)
    requires j < |ps|
    ensures Visits(ps[..j + 1]) == Visits(ps[..j]) + [Visit(ps[j])]
    ensures Total(ps[..j + 1], Fetches) == Total(ps[..j], Fetches) + Fetches(ps[j])
    ensures CrawlAll(ps[..j + 1], path, web, d) == CrawlState(ps[j], path, web, CrawlAll(ps[..j], path, web, d))
  {
    assert ps[..j + 1][..j] == ps[..j];
  }

  /** Stories fetched in the subtree of `q`, `q` included. */
  function StoriesIn(q: Post): nat { Total([q] + Descendants(q), NodeStory) }

  /**
   * A cycle's fetch count in the numbers it logs: the top-stories request, then per visited
   * post one request for it and one per comment, story page and ref it reports.
   */
  lemma {:induction false} CycleTally(chosen: seq<Post>)
    ensures 1 + Total(chosen, Fetches)
         == 1 + |chosen| + Total(chosen, q => Visit(q).0) + Total(chosen, StoriesIn) + Total(chosen, q => Visit(q).1)
  {
    if chosen != [] {
      CycleTally(chosen[..|chosen| - 1]);
      FetchesTally(chosen[|chosen| - 1]);
    }
  }

  /** A cycle only extends the list: what was downloaded stays downloaded. */
  lemma {:induction false} CrawlAllGrows(ps: seq<Post>, path: string, web: map<string, string>, d: Disk.State)
    ensures Grows(d, CrawlAll(ps, path, web, d))
  {
    if ps != [] {
      var mid := CrawlAll(ps[..|ps| - 1], path, web, d);
      CrawlAllGrows(ps[..|ps| - 1], path, web, d);
      CrawlGrows(ps[|ps| - 1], path, web, mid);
      GrowsTrans(d, mid, CrawlAll(ps, path, web, d));
    }
  }

  /**
   * A story visited in one cycle is recorded in `DOWNLOADED_STORIES`, so no answer the next
   * cycle gets for the same id is selected, whatever new comments it carries; the exception is
   * a story whose directory already existed when it was visited.
   */
  lemma NotSelectedAgain(ps: seq<Post>, n: nat, path: string, web: map<string, string>, d: Disk.State,
                         top: seq<Post>, limit: int)
    requires n < |ps| && ps[n].reply.Some? && IsStory(ps[n].reply.value)
    ensures var it := ps[n].reply.value;
      var before := CrawlAll(ps[..n], path, web, d);
      var final := CrawlAll(ps, path, web, d);
      Disk.Exists(before, Disk.StoryPath(path, TitleOf(it), ps[n].id, StoryUrl(ps[n].id, it)))
      || (ps[n].id in final.downloaded
          && forall q' :: q' in Selected(top, limit, final.downloaded) ==> q'.id != ps[n].id)
  {
    var q := ps[n];
    var it := q.reply.value;
    var before := CrawlAll(ps[..n], path, web, d);
    var after := CrawlState(q, path, web, before);
    var final := CrawlAll(ps, path, web, d);
    StoryRemembered(q, path, web, before);
    CrawlAllAt(ps, n, path, web, d);
    CrawlAllGrows(ps[n + 1..], path, web, after);
    if q.id in after.downloaded {
      StaysDownloaded(after, final, q.id);
      forall q' | q' in Selected(top, limit, final.downloaded) ensures q'.id != q.id {
        SelectedIff(top, limit, final.downloaded, q');
      }
    }
  }

  /** Crawling `ps` is crawling the posts before `ps[n]`, then `ps[n]`, then the rest. */
  lemma CrawlAllAt(ps: seq<Post>, n: nat, path: string, web: map<string, string>, d: Disk.State)
    requires n < |ps|
    ensures CrawlAll(ps, path, web, d)
         == CrawlAll(ps[n + 1..], path, web, CrawlState(ps[n], path, web, CrawlAll(ps[..n], path, web, d)))
  {
    assert ps[..n + 1][..n] == ps[..n];
    assert ps == ps[..n + 1] + ps[n + 1..];
    CrawlAllSplit(ps[..n + 1], ps[n + 1..], path, web, d);
  }

  lemma {:induction false} CrawlAllSplit(a: seq<Post>, b: seq<Post>, path: string, web: map<string, string>, d: Disk.State)
    ensures CrawlAll(a + b, path, web, d) == CrawlAll(b, path, web, CrawlAll(a, path, web, d))
    decreases |b|
  {
    if b == [] {
      assert a + b == a;
    } else {
      assert (a + b)[..|a + b| - 1] == a + b[..|b| - 1];
      CrawlAllSplit(a, b[..|b| - 1], path, web, d);
    }
  }
}
