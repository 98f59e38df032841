# Ycrawler core in Dafny

Ycrawler polls the Hacker News top-stories list. For every story not yet downloaded, it
saves the story's page into a directory of its own and records the story in a ledger file,
`list.txt`. It then walks the comment tree and saves every page a comment links to into the
same directory. This project models that core of `main.py` and proves what the code promises
about it:

- **Link extraction**, `find_refs_in_comment`:
  - `html.unescape` (module `Html`).
  - The regular expression `<a[^>]* href="([^"]*)"` as a left-to-right scan that keeps the
    greedy `[^>]*` (module `Links`).
  - Comments as Hacker News stores them, and the two comments of `test_main.py` (module
    `Comments`).
- **Name derivation**: the file name of a downloaded page and the directory name of a story
  (modules `Strings`, `Names`).
- **The story ledger**:
  - The record line and its read-back by `init_list` (module `Ledger`).
  - The directories, files and `DOWNLOADED_STORIES` as a value (module `Disk`).
  - The same state as an object updated in place (class `Storage.Store`).
- **The request counter**, `URLFetcher.fetch_counter`: class `Fetcher.URLFetcher`, whose
  `fetch` is given the answer of the request instead of performing it.
- **Crawl traversal**, `post_download_page_with_refs_in_comments` (module `Crawl`). The crawl
  runs over a tree of posts in which each kid carries the answer its fetch gives. The model
  proves:
  - the `(comments, refs)` it returns;
  - the number of requests it issues;
  - what it does to the disk.
- **One poll cycle**, `download_top_stories_with_refs_in_comment` (module `Cycle`). This is
  the choice of the posts to visit, and the count the cycle returns.

Siblings are visited one after the other in `kids` order, where the source gathers them
concurrently. The results are only summed, so the numbers are the same.

## Model

| member | source | states |
|---|---|---|
| Html.Unescape | main.py:89 | text without `&` comes back unchanged; unescaping never lengthens the text |
| Html.NumericText | main.py:89 | the references to code points 0x2F, 0x22 and 0x27 become `/`, `"` and `'`; a numeric reference yields at most one character |
| Html.UnescapeAppend | main.py:89 | text without `&` passes through, and what follows is unescaped on its own |
| Html.EscapedSlash | main.py:89 | `&#x2F;` becomes `/` whatever follows it |
| Html.EscapedAmp | main.py:89 | `&amp;` becomes `&`, and that `&` is not read again |
| Html.EscapedApos | main.py:89 | `&#x27;` becomes `'` whatever follows it |
| Html.EscapedQuote | main.py:89 | `&quot;` becomes `"` whatever follows it |
| Links.MatchAtIff | main.py:17 | the pattern matches at an `<a` exactly when some ` href="` in the `>`-free run after it is followed by a closing `"`; the capture is then the URL of the last such ` href="` (greedy `[^>]*`) |
| Links.FindAll | main.py:17 | no capture of `re.findall` contains `"` |
| Links.FindAllSound | main.py:17 | every capture stands in the text as `<a`, a `>`-free stretch, ` href="`, the URL, `"` |
| Links.NoAnchorNoMatch | main.py:17 | a text with no `<a` yields no capture |
| Links.PlainThen | main.py:17 | text in which no `<` is followed by `a` contributes no capture and does not change what follows |
| Links.AnchorThen | main.py:17 | a start tag `<a href="u" attrs>` yields `u`, then the scan continues after the tag |
| Links.FindRefs | main.py:88-89 | no returned URL contains `"` |
| Links.Dedup | main.py:89 | the same URLs as the list, each listed once |
| Links.RefListMatchesSet | main.py:123-124 | the list of URLs downloaded for a comment holds exactly the set's URLs, so its length is `len(refs)` |
| Links.RefsAreHrefs | main.py:88-89 | every returned URL is the `href` of an anchor in the unescaped comment |
| Links.NoAnchorNoRefs | main.py:88-89 | a comment with no `<a` after unescaping has no refs |
| Comments.UnescapeRaw | main.py:89 | a stored comment unescapes to its text as read, each reference replaced by its character |
| Comments.AnchorsFound | main.py:17 | the anchors Hacker News writes yield their URLs in order |
| Comments.CommentRefs | main.py:88-89 | text without anchors followed by anchors yields exactly the anchors' unescaped URLs; links in plain text are not picked up |
| Comments.RepeatedHrefOnce | main.py:89 | the same URL linked twice is returned once |
| Comments.OneLinkComment | test_main.py:7-13 | the first test comment yields exactly `https://developers.facebook.com/docs/marketing-api/app-event-api/` |
| Comments.ThreeLinkComment | test_main.py:15-33 | the three anchors of the second test comment yield exactly the three expected URLs |
| Strings.Basename | main.py:64 | `os.path.basename` is the suffix after the last `/` and holds no `/` |
| Strings.Join | main.py:74 | `os.path.join`: an absolute second part wins; otherwise the result is the directory, then exactly one `/` unless the directory is empty or already ends with one, then the name |
| Strings.Prefix | main.py:73 | `s[:n]` is the prefix of `s` of length exactly `min(n, len(s))` |
| Strings.DecimalRoundTrip | main.py:96 | `int(str(n)) == n` for every integer |
| Strings.DecimalInjective | main.py:73 | distinct integers have distinct decimal numerals |
| Strings.ParseIntShape | main.py:96 | `int` succeeds exactly on digits, after an optional sign, between optional whitespace |
| Strings.JoinInjective | main.py:74 | for a fixed directory, distinct relative names give distinct paths |
| Names.Sanitize | main.py:65 | every `/` becomes `-` and every `.` becomes `_`, the rest is kept, so neither character remains |
| Names.FileName | main.py:64-66 | the first `min(30, len)` characters of the basename when that is not empty, else of the sanitised URL; never holds `/` |
| Names.DirName | main.py:72-73 | the decimal id, a space, then the first 25 characters of the basename (or of the title when the basename is empty) |
| Names.DirNameRelative | main.py:73-74 | a directory name never starts with `/`, so `os.path.join` keeps the story folder in front of it |
| Names.DirNameInjective | main.py:73 | the id can be read back from the directory name |
| Ledger.RecordLine | main.py:85 | a record ends with a newline and its first tab-separated field, as `init_list` reads it, is `str(id)` |
| Ledger.ReadLines | main.py:96 | empty text reads as no lines, any other text as at least one |
| Ledger.ReadLinesShape | main.py:96 | `readlines` keeps each terminator as `\n`: every line is non-empty, holds no break before its end, and all but the last end with `\n` |
| Ledger.LedgerIds | main.py:96 | an empty ledger reads as no ids; a successful read gives one id per line |
| Ledger.FirstField | main.py:96 | `item.split('\t')[0]`: the longest prefix without a tab |
| Ledger.ParseIds | main.py:96 | the read succeeds exactly when every line's first field parses as an integer, and then id `i` is that integer for line `i` |
| Ledger.ParseIdsFailureSticks | main.py:96 | one line that does not start with an integer makes the whole read fail |
| Ledger.RecordFirstField | main.py:85 | the first field of a record line parses back to `id` |
| Ledger.ReadLinesAppend | main.py:96 | a line appended to terminated text reads back as one more line |
| Ledger.LedgerAppend | main.py:84-85 | appending a record to a ledger that reads back as `ids` makes it read back as `ids + [id]` |
| Ledger.LedgerRoundTrip | main.py:92-98 | the ids written by successive appends read back in file order, one per line |
| Disk.AppendText | main.py:84-85 | append mode adds the text at the end of the file, creating the file when it is missing, and leaves other files alone |
| Disk.CreateDirAndAddToList | main.py:81-85 | the directory is added, the id is appended to `DOWNLOADED_STORIES`, and the record is appended to the ledger |
| Disk.GetDirNameForStory | main.py:71-78 | returns `join(dest, dir_name)`; creates it with its record exactly when nothing exists there; the path exists afterwards |
| Disk.WriteToDisk | main.py:60-68 | a `None` body writes nothing; a body is written to `join(dest, file_name)` and no other file changes |
| Disk.InitList | main.py:92-98 | no ledger gives `[]`; a directory at its path fails; otherwise id `i` is `int` of the first field of line `i` |
| Disk.CreateOnce | main.py:75-76 | a second call with the same arguments returns the same path and changes nothing; at most one record and one list entry are added |
| Disk.DistinctStoriesDistinctPaths | main.py:72-74 | stories with different ids never share a directory path, compared as text |
| Disk.StoryPathNotLedger | main.py:74 | a story directory is never the ledger file beside it |
| Disk.GetDirKeepsSynced | main.py:81-85 | when ledger and list agree, creating a story directory keeps them in agreement |
| Disk.SyncedRestart | main.py:92-98 | when ledger and list agree, `init_list` restores the list exactly; a missing ledger gives `[]` |
| Storage.Store.CreateDirAndAddToList | main.py:81-85 | the in-place step equals `Disk.CreateDirAndAddToList` on the old state |
| Storage.Store.GetDirNameForStory | main.py:71-78 | the in-place step and its path equal `Disk.GetDirNameForStory` on the old state |
| Storage.Store.WriteToDisk | main.py:60-68 | the in-place step equals `Disk.WriteToDisk` on the old state |
| Storage.Store.InitList | main.py:92-98 | the line-by-line read returns `Disk.InitList` of the current state |
| Fetcher.URLFetcher.constructor | main.py:39-40 | a new fetcher has counted no request |
| Fetcher.FetchAsWritten | main.py:46-57 | as written, a request that runs out of time raises out of `fetch`; an arrived body, `null` included, is returned |
| Fetcher.FetchIntended | main.py:56-57 | as the handler intends, a request that runs out of time gives `None`; an arrived body is returned |
| Fetcher.URLFetcher.FetchJson | main.py:42-57 | the counter goes up by exactly one, and the answer is returned |
| Fetcher.URLFetcher.FetchPage | main.py:42-57 | the counter goes up by exactly one; the page, when it arrives, is written by `write_to_disk` |
| Crawl.StoryUrl | main.py:117 | a story's own `url` when it has one; otherwise the Hacker News item page, whose trailing number reads back as the post id |
| Crawl.TitleOf | main.py:118 | the item's `title` when it has one, otherwise `untitled` |
| Crawl.Visit | main.py:112-113 | a post whose fetch gives `None` returns `(0, 0)` |
| Crawl.Fetches | main.py:110-130 | a post whose fetch gives `None` costs one request; a fetched one costs at least its item request and its own pages |
| Crawl.TimeoutEscapes | main.py:46-57 | as written, a timed-out item request raises, while a `null` item returns and the post counts `(0, 0)` |
| Crawl.TimedOutPostCountsNothing | main.py:110-113 | under the intended handling, a timed-out post counts `(0, 0)`, costs one request and leaves the disk unchanged |
| Crawl.UnpackResult | main.py:101-102 | component `index` of every pair, in order |
| Crawl.DownloadOwnPages | main.py:115-130 | a story gets its directory and its page; a comment has each distinct link downloaded; the counter grows by the post's own page requests; returns the post's own ref count |
| Crawl.DownloadPages | main.py:126-130 | one request per URL, each page saved into the given directory |
| Crawl.PostDownloadPageWithRefsInComments | main.py:105-151 | returns `Visit(p)`, issues exactly `Fetches(p)` requests, and leaves the disk as `CrawlState` describes |
| Crawl.VisitKids | main.py:140-144 | the kids' answers in `kids` order, their requests and their disk effects |
| Crawl.VisitCounts | main.py:133-151 | `number_of_comments` counts every post reached below the post, failed fetches included; `number_of_refs` adds the distinct links of every fetched comment in the subtree |
| Crawl.KidsCounts | main.py:144-148 | the summed answers of the first `n` kids are the census of their subtrees |
| Crawl.FetchesCounts | main.py:110-130 | requests of a visit: one item request per post reached, plus one page per story and one per ref of each fetched post |
| Crawl.FetchesTally | main.py:105-151 | the requests of a visit, in the numbers it returns: 1 + comments + stories + refs |
| Crawl.NodeEffectGrows | main.py:115-130 | a post's own step removes nothing and adds to `DOWNLOADED_STORIES` at most its own id, and only when it is a story |
| Crawl.CrawlGrows | main.py:105-151 | crawling a subtree removes nothing, and every id it adds is a story fetched in that subtree |
| Crawl.UrlLessStoryDir | main.py:117-118 | a story without `url` is downloaded from `https://news.ycombinator.com/item?id=<id>`, so its directory is named `<id> item?id=<id>` cut to 25 characters |
| Crawl.StoryRemembered | main.py:75-83 | after a fetched story is visited, its id is in `DOWNLOADED_STORIES` unless its directory already existed |
| Cycle.TakeLimit | main.py:162 | `response[:limit]` with Python's slice rules, a negative limit included |
| Cycle.Unvisited | main.py:162 | keeps only posts of the window whose id is not yet downloaded, never more posts than given |
| Cycle.Visits | main.py:163 | one answer per visited post, in order |
| Cycle.UnvisitedIff | main.py:162 | a post is kept exactly when it is in the window and its id is not in `DOWNLOADED_STORIES` |
| Cycle.SelectedIff | main.py:161-162 | a post is visited exactly when it is within the limit and not yet downloaded |
| Cycle.SelectUnvisited | main.py:161-162 | the filtering loop keeps the unvisited posts, in order |
| Cycle.VisitAll | main.py:161-163 | each chosen post's answer, the requests of all visits, and the disk after them |
| Cycle.DownloadTopStories | main.py:154-172 | a failed top-stories request returns no count and changes nothing; otherwise the count is 1 plus the requests of every visited post, each result is that post's answer, and the disk is the visits' composition |
| Cycle.CycleTally | main.py:160-172 | a cycle's count is 1 + posts visited + their comments + stories + refs |
| Cycle.CrawlAllGrows | main.py:83 | a cycle never removes an id from `DOWNLOADED_STORIES` |
| Cycle.NotSelectedAgain | main.py:162 | a story visited in a cycle has its id in `DOWNLOADED_STORIES` afterwards, so no answer for that id is selected by the next cycle, whatever it carries, unless the story's directory already existed |

## Left out

- Html.Unescape: only numeric references and the named references `&amp;`, `&lt;`, `&gt;` and `&quot;` are modelled. Numeric references include the Windows-1252 remapping and the invalid code points. Python's full entity table is not. A name that only starts with `amp`, `lt`, `gt` or `quot` therefore loses that prefix to its character: `&ltimes;` becomes `<imes;`, where Python gives `⋉`. Every other named reference stays in the text as written, where Python would decode it.
- Strings.ParseIntShape: `int()` is modelled on ASCII digits, ASCII whitespace (space, `\t`, `\n`, `\r`, `\v`, `\f` and `\x1c`-`\x1f`) and an optional sign. Underscores between digits and non-ASCII digits and spaces are not accepted.
- Comments.ThreeLinkComment: the prose of the second test comment is not spelled out character by character. It is a parameter, and the lemma holds for any text that is well formed (every `&` starts a reference) and has no `<a`. The three anchors and their URLs are spelled out.
- Disk.GetDirKeepsSynced: holds only for titles and URLs without a line break. A record holding one is read back as two lines, and `int` then fails on the second. Hacker News titles and URLs hold none. `Ledger.LedgerAppend` and `Ledger.LedgerRoundTrip` carry the same condition.
- HTTP transport, time limits and the connection cap are not modelled. A request's result is given to `URLFetcher` as an input, in the form `Fetcher.FetchIntended` gives it. Only the counter and the effect on disk are modelled.
- Timed-out requests are modelled as the handler at main.py:56-57 intends: they give `None`. As written, the timeout escapes `fetch` (see Findings). It then fails the parent's `gather` (main.py:130, 144), so the whole story becomes an exception at main.py:163, or escapes the cycle for the top-stories request. Connection errors escape the same way. The model does not follow these exceptions, nor the partial downloads the other tasks still make.
- Concurrency is not modelled. Siblings, the links of one comment, and the posts of a cycle are visited one after the other. The comment's links are taken in order of first appearance, where the source iterates a set.
- Exceptions are not modelled:
  - a failed top-stories request is modelled as returning no count;
  - `os.makedirs` failing on a path that `os.path.exists` reported missing is not modelled: with paths compared as text (below), that cannot happen, but on a real file system a label ending in `a/..` passes the check and then raises `FileExistsError`;
  - a write over a directory path is not modelled;
  - `init_list` on an unreadable ledger or a bad line is modelled as `None`.
- `os.makedirs` creating missing parent directories is not modelled. Only the story directory itself is recorded.
- Paths are compared as text: `.`, `..` and repeated `/` inside a title used as a directory label (a URL ending in `/`, main.py:73) are not resolved.
- Names.DirNameRelative: the name is relative as text only; a title such as `a/../../x` makes the real directory `x` land beside the story folder, not inside it.
- Disk.DistinctStoriesDistinctPaths: distinct as text only; once `..` is resolved, titles `a/../../x` (story 1) and `b/../../x` (story 2) both give `x`.
- File contents are strings of characters; `'wb'` bytes and text encodings are not distinguished.
- The result report (main.py:165-170) pairs `response[:limit]` with the results of the filtered list, so it can attach a result to the wrong id; it is not modelled and no alignment is claimed. The logging, `argparse` and the `poll_top_stories` loop (with its double `iteration` increment) are not modelled.
- `check.py` is not part of this model.

## Findings

| source | as written | input that shows it | evidently intended | confidence | as-written member | corrected member |
|---|---|---|---|---|---|---|
| main.py:46-57 | the time limit's `asyncio.TimeoutError` is raised when the `with async_timeout.timeout(...)` block exits, outside the `try`, so the `except asyncio.TimeoutError` cannot catch it | an item request that takes longer than `FETCH_TIMEOUT` (10 s): `fetch` raises, and the whole story fails at main.py:163 | the timeout is logged and `fetch` returns `None`, so the post counts `(0, 0)` and its siblings are unaffected | medium, not executed | Fetcher.FetchAsWritten, Crawl.TimeoutEscapes | Fetcher.FetchIntended, Crawl.TimedOutPostCountsNothing |
