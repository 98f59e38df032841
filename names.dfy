/**
 * The names the crawler derives from URLs, titles and ids: the file a downloaded page is
 * written to (`write_to_disk`) and the directory a story's pages go into
 * (`get_dir_name_for_story`).
 */
module Names {
  import opened Strings

  /** `write_to_disk` keeps at most this many characters of the file name. */
  const FILE_NAME_LIMIT: nat := 30
  /** `get_dir_name_for_story` keeps at most this many characters of the basename or title. */
  const DIR_NAME_LIMIT: nat := 25

  /** `url.replace('/', '-').replace('.', '_')`. */
  function Sanitize(url: string): (r: string)
    ensures |r| == |url|
    ensures '/' !in r && '.' !in r
    ensures forall i :: 0 <= i < |url| ==>
      r[i] == (if url[i] == '/' then '-' else if url[i] == '.' then '_' else url[i])
  {
    if url == [] then []
    else
      var c := url[0];
      [if c == '/' then '-' else if c == '.' then '_' else c] + Sanitize(url[1..])
  }

  /** The untruncated file name: the URL's basename, or the sanitised URL when that is empty. */
  function FileNameCandidate(url: string): string {
    var basename := Basename(url);
    if basename != [] then basename else Sanitize(url)
  }

  /** The name `write_to_disk` gives the file holding the page at `url`. */
  function FileName(url: string): (r: string)
    ensures |r| == if |FileNameCandidate(url)| < FILE_NAME_LIMIT then |FileNameCandidate(url)| else FILE_NAME_LIMIT
    ensures r == FileNameCandidate(url)[..|r|]
    ensures '/' !in r
    ensures Basename(url) != [] ==> r == Basename(url)[..|r|]
    ensures Basename(url) == [] ==> '.' !in r && |r| == if |url| < FILE_NAME_LIMIT then |url| else FILE_NAME_LIMIT
  {
    var candidate := FileNameCandidate(url);
    var r := Prefix(candidate, FILE_NAME_LIMIT);
    assert forall i :: 0 <= i < |r| ==> r[i] == candidate[i];
    r
  }

  /** What follows the id in a story's directory name: the URL's basename, else the title. */
  function DirLabel(title: string, url: string): string {
    var basename := Basename(url);
    if basename != [] then basename else title
  }

  /** `str(story_id) + ' ' + (basename or title)[:25]`. */
  function DirName(id: int, title: string, url: string): (r: string)
    ensures |Decimal(id)| + 1 <= |r| <= |Decimal(id)| + 1 + DIR_NAME_LIMIT
    ensures r[..|Decimal(id)|] == Decimal(id) && r[|Decimal(id)|] == ' '
    ensures r[|Decimal(id)| + 1..] == Prefix(DirLabel(title, url), DIR_NAME_LIMIT)
  {
    Decimal(id) + " " + Prefix(DirLabel(title, url), DIR_NAME_LIMIT)
  }

  /** A directory name never starts with `/`, so `Join` keeps the parent directory in front of it. */
  lemma DirNameRelative(id: int, title: string, url: string)
    ensures DirName(id, title, url)[0] != '/'
  {
    assert DirName(id, title, url)[0] == Decimal(id)[0];
  }

  /** The id can be read back from the directory name: distinct ids give distinct names. */
  lemma DirNameInjective(id1: int, title1: string, url1: string, id2: int, title2: string, url2: string)
    requires DirName(id1, title1, url1) == DirName(id2, title2, url2)
    ensures id1 == id2
  {
    var n1, n2 := DirName(id1, title1, url1), DirName(id2, title2, url2);
    var d1, d2 := Decimal(id1), Decimal(id2);
    assert d1 == n1[..|d1|] == n2[..|d2|] == d2;
    DecimalInjective(id1, id2);
  }
}
