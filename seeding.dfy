/** _start_tracking (GUI.py:712-733): every eligible file of the folder gets a seeded record
    unless it already has one, and its `tracked_files` entry is set to its current mtime. */
module Seeding {
  import opened Types
  import opened Scanner
  import opened Records

  /** The loop of GUI.py:720-731 over the directory entries: the new `file_metadata` and
      `tracked_files`. */
  function StartAll(meta: map<Path, Record>, tracked: map<Path, real>, entries: seq<DirEntry>)
    : (res: (map<Path, Record>, map<Path, real>))
    // both maps only grow, every added record is a fresh seed and every one is tracked
    ensures meta.Keys <= res.0.Keys && tracked.Keys <= res.1.Keys
    ensures forall p :: p in res.0 && p !in meta ==> p in res.1 && exists m :: res.0[p] == Seed(m)
    decreases |entries|
  {
    if entries == [] then (meta, tracked)
    else
      var before := StartAll(meta, tracked, entries[..|entries| - 1]);
      var e := Last(entries);
      if !Eligible(e) then before
      else
        (if e.path in before.0 then before.0 else before.0[e.path := Seed(e.mtime)],
         before.1[e.path := e.mtime])
  }

  /** The paths of the eligible entries. */
  function EligiblePaths(entries: seq<DirEntry>): set<Path>
    decreases |entries|
  {
    if entries == [] then {}
    else EligiblePaths(entries[..|entries| - 1]) + (if Eligible(Last(entries)) then {Last(entries).path} else {})
  }

  /** Directory entries have distinct paths. */
  predicate DistinctEntries(entries: seq<DirEntry>) {
    forall i, j :: 0 <= i < j < |entries| ==> entries[i].path != entries[j].path
  }

  /** Start tracking keeps every existing record as it is and adds records only for eligible
      paths. */
  lemma {:induction false} StartMetaFrame(meta: map<Path, Record>, tracked: map<Path, real>, entries: seq<DirEntry>)
    ensures StartAll(meta, tracked, entries).0.Keys == meta.Keys + EligiblePaths(entries)
    ensures forall p :: p in meta ==> StartAll(meta, tracked, entries).0[p] == meta[p]
    decreases |entries|
  {
    if entries != [] {
      StartMetaFrame(meta, tracked, entries[..|entries| - 1]);
    }
  }

  /** `tracked_files` gains exactly the eligible paths and keeps the others' values. */
  lemma {:induction false} StartTrackedFrame(meta: map<Path, Record>, tracked: map<Path, real>, entries: seq<DirEntry>)
    ensures StartAll(meta, tracked, entries).1.Keys == tracked.Keys + EligiblePaths(entries)
    ensures forall p :: p in tracked && p !in EligiblePaths(entries) ==>
      StartAll(meta, tracked, entries).1[p] == tracked[p]
    decreases |entries|
  {
    if entries != [] {
      StartTrackedFrame(meta, tracked, entries[..|entries| - 1]);
    }
  }

  /** Every record start tracking adds is the seed of an eligible entry with that path. */
  lemma {:induction false} StartAddsSeeds(meta: map<Path, Record>, tracked: map<Path, real>, entries: seq<DirEntry>)
    ensures forall p :: p !in meta && p in StartAll(meta, tracked, entries).0 ==>
      exists i :: 0 <= i < |entries| && Eligible(entries[i]) && entries[i].path == p
        && StartAll(meta, tracked, entries).0[p] == Seed(entries[i].mtime)
    decreases |entries|
  {
    if entries != [] {
      var init := entries[..|entries| - 1];
      StartAddsSeeds(meta, tracked, init);
      var before := StartAll(meta, tracked, init).0;
      var r := StartAll(meta, tracked, entries).0;
      forall p | p !in meta && p in r
        ensures exists i :: 0 <= i < |entries| && Eligible(entries[i]) && entries[i].path == p && r[p] == Seed(entries[i].mtime)
      {
        if p in before {
          var i :| 0 <= i < |init| && Eligible(init[i]) && init[i].path == p && before[p] == Seed(init[i].mtime);
          assert entries[i] == init[i];
        } else {
          assert entries[|entries| - 1] == Last(entries);
        }
      }
    }
  }

  /** When every eligible path already has a record, start tracking leaves `file_metadata` as it is. */
  lemma {:induction false} StartOnKnownPaths(meta: map<Path, Record>, tracked: map<Path, real>, entries: seq<DirEntry>)
    requires EligiblePaths(entries) <= meta.Keys
    ensures StartAll(meta, tracked, entries).0 == meta
    decreases |entries|
  {
    if entries != [] {
      StartOnKnownPaths(meta, tracked, entries[..|entries| - 1]);
    }
  }

  /** Starting again over the same folder adds no record and no history entry. */
  lemma StartIdempotent(meta: map<Path, Record>, tracked: map<Path, real>, entries: seq<DirEntry>)
    ensures var once := StartAll(meta, tracked, entries);
      StartAll(once.0, once.1, entries).0 == once.0
  {
    var once := StartAll(meta, tracked, entries);
    StartMetaFrame(meta, tracked, entries);
    StartOnKnownPaths(once.0, once.1, entries);
  }

  /** A path that no eligible entry names is not eligible. */
  lemma {:induction false} UnnamedNotEligible(entries: seq<DirEntry>, p: Path)
    requires forall i :: 0 <= i < |entries| ==> entries[i].path != p
    ensures p !in EligiblePaths(entries)
    decreases |entries|
  {
    if entries != [] {
      var init := entries[..|entries| - 1];
      forall i | 0 <= i < |init|
        ensures init[i].path != p
      {
        assert init[i] == entries[i];
      }
      UnnamedNotEligible(init, p);
      assert entries[|entries| - 1] == Last(entries);
    }
  }

  /** With distinct entries, every eligible file ends with `tracked_files[path]` equal to its
      mtime, and a file without a record ends with the seeded one. */
  lemma {:induction false} StartTracksEveryFile(meta: map<Path, Record>, tracked: map<Path, real>, entries: seq<DirEntry>)
    requires DistinctEntries(entries)
    ensures forall i :: 0 <= i < |entries| && Eligible(entries[i]) ==>
      && entries[i].path in StartAll(meta, tracked, entries).1
      && StartAll(meta, tracked, entries).1[entries[i].path] == entries[i].mtime
      && entries[i].path in StartAll(meta, tracked, entries).0
      && (entries[i].path !in meta ==> StartAll(meta, tracked, entries).0[entries[i].path] == Seed(entries[i].mtime))
    decreases |entries|
  {
    if entries != [] {
      var init := entries[..|entries| - 1];
      var e := Last(entries);
      assert DistinctEntries(init);
      StartTracksEveryFile(meta, tracked, init);
      StartMetaFrame(meta, tracked, init);
      forall i | 0 <= i < |init|
        ensures init[i].path != e.path
      {
        assert init[i] == entries[i];
      }
      UnnamedNotEligible(init, e.path);
      forall i | 0 <= i < |entries| && Eligible(entries[i])
        ensures entries[i].path in StartAll(meta, tracked, entries).1
        ensures StartAll(meta, tracked, entries).1[entries[i].path] == entries[i].mtime
        ensures entries[i].path in StartAll(meta, tracked, entries).0
        ensures entries[i].path !in meta ==> StartAll(meta, tracked, entries).0[entries[i].path] == Seed(entries[i].mtime)
      {
        if i < |init| {
          assert init[i] == entries[i];
        }
      }
    }
  }

  /** Records that satisfy the record invariant still do after start tracking, and so do the new ones. */
  lemma {:induction false} StartKeepsConsistent(meta: map<Path, Record>, tracked: map<Path, real>, entries: seq<DirEntry>)
    requires AllConsistent(meta)
    ensures AllConsistent(StartAll(meta, tracked, entries).0)
    decreases |entries|
  {
    if entries != [] {
      StartKeepsConsistent(meta, tracked, entries[..|entries| - 1]);
    }
  }
}
