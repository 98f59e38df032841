/**
 * The persistent side of the crawler as a value: the directories and files under the story
 * folder, and the in-memory list `DOWNLOADED_STORIES` that mirrors the ledger. Every function
 * here is one step of the source's file handling; the class `Storage.Store` performs the same
 * steps in place.
 */
module Disk {
  import opened Wrappers
  import opened Strings
  import opened Names
  import opened Ledger

  /** Existing directories, existing files with their contents, and `DOWNLOADED_STORIES`. */
  datatype State = State(dirs: set<string>, files: map<string, string>, downloaded: seq<int>)

  /** `os.path.exists(path)`. */
  predicate Exists(d: State, path: string) { path in d.dirs || path in d.files }

  /** The ledger file `list.txt` inside `dest`. */
  function LedgerPath(dest: string): string { Join(dest, CONTENT_FILE) }

  /** The directory a story's pages go into. */
  function StoryPath(dest: string, title: string, id: int, url: string): string {
    Join(dest, DirName(id, title, url))
  }

  /** Appending `text` to the file at `path` (mode `'at'`), creating it when missing. */
  function AppendText(files: map<string, string>, path: string, text: string): (r: map<string, string>)
    ensures r.Keys == files.Keys + {path}
    ensures r[path] == (if path in files then files[path] else "") + text
    ensures forall p :: p in files && p != path ==> r[p] == files[p]
  {
    files[path := (if path in files then files[path] else "") + text]
  }

  /** `create_dir_and_add_to_list`: make the directory, remember the id, append the record. */
  function CreateDirAndAddToList(d: State, dest: string, path: string, title: string, id: int, url: string): (r: State)
    ensures r.dirs == d.dirs + {path}
    ensures r.downloaded == d.downloaded + [id]
    ensures r.files == AppendText(d.files, LedgerPath(dest), RecordLine(id, title, url))
  {
    State(d.dirs + {path}, AppendText(d.files, LedgerPath(dest), RecordLine(id, title, url)), d.downloaded + [id])
  }

  /**
   * `get_dir_name_for_story`: the story's directory path, created (with its ledger record)
   * only when nothing exists at that path yet.
   */
  function GetDirNameForStory(d: State, dest: string, title: string, id: int, url: string): (r: (State, string))
    ensures r.1 == StoryPath(dest, title, id, url)
    ensures Exists(r.0, r.1)
    ensures Exists(d, r.1) ==> r.0 == d
    ensures !Exists(d, r.1) ==> r.0 == CreateDirAndAddToList(d, dest, r.1, title, id, url)
  {
    var path := StoryPath(dest, title, id, url);
    if Exists(d, path) then (d, path) else (CreateDirAndAddToList(d, dest, path, title, id, url), path)
  }

  /** `write_to_disk`: a body is written (mode `'wb'`) to the file named after the URL; None writes nothing. */
  function WriteToDisk(d: State, body: Option<string>, url: string, dest: string): (r: State)
    ensures body.None? ==> r == d
    ensures r.dirs == d.dirs && r.downloaded == d.downloaded
    ensures body.Some? ==> r.files.Keys == d.files.Keys + {Join(dest, FileName(url))}
    ensures body.Some? ==> r.files[Join(dest, FileName(url))] == body.value
    ensures forall p :: p in d.files && p != Join(dest, FileName(url)) ==> r.files[p] == d.files[p]
  {
    match body
    case None => d
    case Some(bytes) => d.(files := d.files[Join(dest, FileName(url)) := bytes])
  }

  /**
   * `init_list`: the ids recorded in `list.txt`, `[]` when there is no such file, None when it
   * cannot be read (it is a directory) or a line does not start with an integer (Python raises).
   */
  function InitList(d: State, storyDir: string): (r: Option<seq<int>>)
    ensures !Exists(d, LedgerPath(storyDir)) ==> r == Some([])
    ensures LedgerPath(storyDir) in d.dirs && LedgerPath(storyDir) !in d.files ==> r.None?
    ensures LedgerPath(storyDir) in d.files && r.Some? ==>
      var lines := ReadLines(d.files[LedgerPath(storyDir)]);
      |r.value| == |lines| && forall i :: 0 <= i < |lines| ==> Some(r.value[i]) == ParseInt(FirstField(lines[i]))
  {
    var path := LedgerPath(storyDir);
    if !Exists(d, path) then Some([])
    else if path in d.files then LedgerIds(d.files[path])
    else None
  }

  /**
   * Create-once: asking twice for the same story's directory returns the same path, and the
   * second call changes nothing, so at most one record and one list entry are added.
   */
  lemma CreateOnce(d: State, dest: string, title: string, id: int, url: string)
    ensures var (d1, p1) := GetDirNameForStory(d, dest, title, id, url);
      var (d2, p2) := GetDirNameForStory(d1, dest, title, id, url);
      p2 == p1 && d2 == d1
      && (d1.downloaded == d.downloaded || d1.downloaded == d.downloaded + [id])
      && (d1.downloaded == d.downloaded + [id] <==> !Exists(d, p1))
  {
  }

  /** Two stories with different ids never share a directory path (compared as text). */
  lemma DistinctStoriesDistinctPaths(dest: string, title1: string, id1: int, url1: string,
                                     title2: string, id2: int, url2: string)
    requires id1 != id2
    ensures StoryPath(dest, title1, id1, url1) != StoryPath(dest, title2, id2, url2)
  {
    if StoryPath(dest, title1, id1, url1) == StoryPath(dest, title2, id2, url2) {
      DirNameRelative(id1, title1, url1);
      DirNameRelative(id2, title2, url2);
      JoinInjective(dest, DirName(id1, title1, url1), DirName(id2, title2, url2));
      DirNameInjective(id1, title1, url1, id2, title2, url2);
    }
  }

  /** A story directory is never the ledger file beside it. */
  lemma StoryPathNotLedger(dest: string, title: string, id: int, url: string)
    ensures StoryPath(dest, title, id, url) != LedgerPath(dest)
  {
    var name := DirName(id, title, url);
    assert name[0] == Decimal(id)[0];
    if StoryPath(dest, title, id, url) == LedgerPath(dest) {
      JoinInjective(dest, name, CONTENT_FILE);
    }
  }

  /**
   * The ledger in `dest` and `DOWNLOADED_STORIES` agree: the file reads back exactly the list
   * (or is absent while the list is empty).
   */
  predicate Synced(d: State, dest: string) {
    var lp := LedgerPath(dest);
    lp !in d.dirs
    && if lp in d.files then Terminated(d.files[lp]) && LedgerIds(d.files[lp]) == Some(d.downloaded)
       else d.downloaded == []
  }

  /** Creating a story's directory keeps the ledger and the list in step. */
  lemma GetDirKeepsSynced(d: State, dest: string, title: string, id: int, url: string)
    requires Synced(d, dest)
    requires SingleLine(title) && SingleLine(url)
    ensures Synced(GetDirNameForStory(d, dest, title, id, url).0, dest)
  {
    var path := StoryPath(dest, title, id, url);
    if !Exists(d, path) {
      StoryPathNotLedger(dest, title, id, url);
      var lp := LedgerPath(dest);
      var before := if lp in d.files then d.files[lp] else "";
      assert LedgerIds(before) == Some(d.downloaded);
      LedgerAppend(before, d.downloaded, id, title, url);
    }
  }

  /** When they are in step, reading the ledger at start-up restores the list exactly. */
  lemma SyncedRestart(d: State, dest: string)
    requires Synced(d, dest)
    ensures InitList(d, dest) == Some(d.downloaded)
  {
  }
}
