/**
 * The crawler's file handling as it runs: directories and files that change in place and the
 * global list `DOWNLOADED_STORIES` appended to in place. Each method performs one step of
 * module `Disk` on the object's fields.
 */
module Storage {
  import opened Wrappers
  import opened Strings
  import opened Names
  import opened Ledger
  import Disk

  class Store {
    /** Directories that exist. */
    var dirs: set<string>
    /** Files that exist, with their contents. */
    var files: map<string, string>
    /** `DOWNLOADED_STORIES`. */
    var downloadedStories: seq<int>

    function State(): Disk.State
      reads this
    {
      Disk.State(dirs, files, downloadedStories)
    }

    constructor (initial: Disk.State)
      ensures State() == initial
    {
      dirs := initial.dirs;
      files := initial.files;
      downloadedStories := initial.downloaded;
    }

    /** `create_dir_and_add_to_list`. */
    method CreateDirAndAddToList(dest: string, path: string, title: string, id: int, url: string)
      modifies this
      ensures State() == Disk.CreateDirAndAddToList(old(State()), dest, path, title, id, url)
    {
      dirs := dirs + {path};
      downloadedStories := downloadedStories + [id];
      var ledger := Join(dest, CONTENT_FILE);
      var before := if ledger in files then files[ledger] else "";
      files := files[ledger := before + RecordLine(id, title, url)];
    }

    /** `get_dir_name_for_story`: the directory is created only if nothing is at its path. */
    method GetDirNameForStory(dest: string, title: string, id: int, url: string) returns (path: string)
      modifies this
      ensures (State(), path) == Disk.GetDirNameForStory(old(State()), dest, title, id, url)
    {
      path := Join(dest, DirName(id, title, url));
      if !(path in dirs || path in files) {
        CreateDirAndAddToList(dest, path, title, id, url);
      }
    }

    /** `write_to_disk`. */
    method WriteToDisk(body: Option<string>, url: string, dest: string)
      modifies this
      ensures State() == Disk.WriteToDisk(old(State()), body, url, dest)
    {
      if body.Some? {
        var filename := FileName(url);
        files := files[Join(dest, filename) := body.value];
      }
    }

    /** `init_list`: the ledger is read line by line and the leading id of each kept. */
    method InitList(storyDir: string) returns (ids: Option<seq<int>>)
      ensures ids == Disk.InitList(State(), storyDir)
    {
      var path := Join(storyDir, CONTENT_FILE);
      if !(path in dirs || path in files) {
        return Some([]);
      }
      if path !in files {
        return None;
      }
      var lines := ReadLines(files[path]);
      assert Disk.InitList(State(), storyDir) == ParseIds(lines);
      var acc: seq<int> := [];
      var i := 0;
      while i < |lines|
        invariant 0 <= i <= |lines|
        invariant ParseIds(lines[..i]) == Some(acc)
      {
        ParseIdsStep(lines, i);
        var id := ParseInt(FirstField(lines[i]));
        if id.None? {
          ParseIdsFailureSticks(lines, i + 1);
          return None;
        }
        acc := acc + [id.value];
        i := i + 1;
      }
      assert lines[..i] == lines;
      ids := Some(acc);
    }
  }
}
