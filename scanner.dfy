/** The folder scan: which directory entries the tracker looks at (get_file_dates, GUI.py:60-73)
    and the second `.json` filter applied to its result (GUI.py:759-761). */
module Scanner {
  import opened Types

  /** One entry of `os.scandir`: `entry.path`, `entry.name`, `entry.is_file()` and
      `entry.stat().st_mtime`. */
  datatype DirEntry = DirEntry(path: Path, name: string, isFile: bool, mtime: real)

  /** The extension of the tracker's own sidecar file, tracking.json. */
  const JsonSuffix: string := ".json"

  /** Python's `s.endswith(suffix)`. */
  predicate EndsWith(s: string, suffix: string) {
    |suffix| <= |s| && s[|s| - |suffix|..] == suffix
  }

  /** The scan tracks regular files whose name does not end in ".json". */
  predicate Eligible(e: DirEntry) {
    e.isFile && !EndsWith(e.name, JsonSuffix)
  }

  /** The paths of the eligible entries stamped on day `d`, in enumeration order. */
  function PathsOn(entries: seq<DirEntry>, dateOf: real -> Date, d: Date): seq<Path>
    decreases |entries|
  {
    if entries == [] then []
    else
      var e := Last(entries);
      PathsOn(entries[..|entries| - 1], dateOf, d)
        + (if Eligible(e) && dateOf(e.mtime) == d then [e.path] else [])
  }

  /** A path is listed under day `d` exactly when some eligible entry with that path is stamped on `d`. */
  lemma {:induction false} PathsOnMembers(entries: seq<DirEntry>, dateOf: real -> Date, d: Date, p: Path)
    ensures p in PathsOn(entries, dateOf, d)
        <==> exists e :: e in entries && Eligible(e) && dateOf(e.mtime) == d && e.path == p
    decreases |entries|
  {
    if entries != [] {
      var init := entries[..|entries| - 1];
      PathsOnMembers(init, dateOf, d, p);
      assert entries == init + [Last(entries)];
      forall e | e in entries
        ensures e in init || e == Last(entries)
      {
      }
    }
  }

  /** get_file_dates: groups the eligible entries by date. A missing folder gives an empty map.
      `entries` is what the enumeration yielded; a PermissionError part-way through ends it early,
      so a partial listing is just a shorter `entries`. */
  method GetFileDates(folderExists: bool, entries: seq<DirEntry>, dateOf: real -> Date)
    returns (byDate: map<Date, seq<Path>>)
    ensures !folderExists ==> byDate == map[]
    ensures folderExists ==> forall d :: d in byDate <==> PathsOn(entries, dateOf, d) != []
    ensures folderExists ==> forall d :: d in byDate ==> byDate[d] == PathsOn(entries, dateOf, d)
  {
    byDate := map[];
    if !folderExists {
      return;
    }
    var i := 0;
    while i < |entries|
      invariant 0 <= i <= |entries|
      invariant forall d :: d in byDate <==> PathsOn(entries[..i], dateOf, d) != []
      invariant forall d :: d in byDate ==> byDate[d] == PathsOn(entries[..i], dateOf, d)
    {
      var e := entries[i];
      assert entries[..i + 1][..i] == entries[..i];
      assert Last(entries[..i + 1]) == e;
      if e.isFile && !EndsWith(e.name, JsonSuffix) {
        var day := dateOf(e.mtime);
        byDate := byDate[day := (if day in byDate then byDate[day] else []) + [e.path]];
      }
      i := i + 1;
    }
    assert entries[..i] == entries;
  }

  /** The list comprehension of GUI.py:761: drop every path ending in ".json", keeping order. */
  function DropJson(files: seq<Path>): (kept: seq<Path>)
    ensures forall p :: p in kept <==> p in files && !EndsWith(p, JsonSuffix)
    ensures (forall p :: p in files ==> !EndsWith(p, JsonSuffix)) ==> kept == files
    decreases |files|
  {
    if files == [] then []
    else
      var init := files[..|files| - 1];
      assert files == init + [Last(files)];
      DropJson(init) + (if EndsWith(Last(files), JsonSuffix) then [] else [Last(files)])
  }

  /** An entry path `dir` + separator + `name` ends in ".json" exactly when its name does: no
      ".json" suffix can reach across a separator that is not one of its characters. */
  lemma JoinedPathSuffix(dir: string, sep: char, name: string)
    requires sep !in JsonSuffix
    ensures EndsWith(dir + [sep] + name, JsonSuffix) <==> EndsWith(name, JsonSuffix)
  {
    var p := dir + [sep] + name;
    if |name| >= |JsonSuffix| {
      assert p[|p| - |JsonSuffix|..] == name[|name| - |JsonSuffix|..];
    } else if |JsonSuffix| <= |p| {
      var k := |JsonSuffix| - |name| - 1;
      assert p[|p| - |JsonSuffix|..][k] == sep;
    }
  }

  /** The scan's entries sit in folder `dir` when each path is `dir`, the separator `sep` (a slash,
      or a backslash on Windows, as os.path.join picks it), then the name. */
  predicate InFolder(dir: string, sep: char, entries: seq<DirEntry>) {
    forall i :: 0 <= i < |entries| ==> entries[i].path == dir + [sep] + entries[i].name
  }

  /** The second filter at GUI.py:761 never removes anything that get_file_dates returned. */
  lemma DropJsonKeepsScan(dir: string, sep: char, entries: seq<DirEntry>, dateOf: real -> Date, d: Date)
    requires sep !in JsonSuffix && InFolder(dir, sep, entries)
    ensures DropJson(PathsOn(entries, dateOf, d)) == PathsOn(entries, dateOf, d)
  {
    forall p | p in PathsOn(entries, dateOf, d)
      ensures !EndsWith(p, JsonSuffix)
    {
      PathsOnMembers(entries, dateOf, d, p);
      var e :| e in entries && Eligible(e) && dateOf(e.mtime) == d && e.path == p;
      var i :| 0 <= i < |entries| && entries[i] == e;
      JoinedPathSuffix(dir, sep, e.name);
    }
  }
}
