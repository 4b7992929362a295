/** The tracking state of ArtworkCalendarApp (GUI.py:93-118) and the methods that update it
    in place: load_folder, _rescan, _start_tracking, and the per-day recounts of the tooltip and
    the click listing. Drawing, dialogs, timers and file I/O stay outside: their inputs come in
    as parameters (a parsed sidecar, the scan's observations, the directory entries). */
module Engine {
  import opened Types
  import opened Scanner
  import opened Records
  import opened Seeding
  import opened Aggregation
  import opened Persistence

  /** The body of the rescan loop (GUI.py:767-804) for one file: seed an unseen path, heal a
      record missing a key, and record a modification beyond the debounce. */
  method ObserveFile(meta: map<Path, Record>, o: Observation) returns (next: map<Path, Record>, hit: bool)
    ensures (next, hit) == Observe(meta, o)
  {
    next, hit := meta, false;
    if o.mtime.Some? {
      var m := o.mtime.value;
      if o.path !in meta {
        next := meta[o.path := Record(Some(m), Some(1), Some([m]))];
      } else {
        var r := meta[o.path];
        if r.mtime.None? || r.history.None? || r.modCount.None? {
          next := meta[o.path := Record(Some(m), Some(1), Some([m]))];
        } else if m > r.mtime.value + Debounce {
          var h := r.history.value;
          if h == [] || m > h[|h| - 1] {
            h := h + [m];
          }
          next := meta[o.path := Record(Some(m), Some(r.modCount.value + 1), Some(h))];
          hit := true;
        } else {
          assert meta[o.path := r] == meta;
        }
      }
    }
  }

  class Tracker {
    /** datetime.date.fromtimestamp in the local time zone. */
    const dateOf: real -> Date
    var trackingEnabled: bool
    /** path -> last mtime */
    var trackedFiles: map<Path, real>
    /** path -> {mtime, mod_count, history} */
    var fileMetadata: map<Path, Record>
    /** date -> number of modification events (a defaultdict(int): only counted dates are keys) */
    var contributions: map<Date, nat>

    /** Every record carries mod_count and history: true from the first load on, so reading
        `meta['history']` never fails. */
    ghost predicate Valid()
      reads this
    {
      StoreLoaded(fileMetadata)
    }

    /** The state __init__ sets up before calling load_folder (GUI.py:106-115). */
    constructor (dateOf: real -> Date)
      ensures Valid()
      ensures this.dateOf == dateOf && !trackingEnabled
      ensures trackedFiles == map[] && fileMetadata == map[] && contributions == map[]
    {
      this.dateOf := dateOf;
      trackingEnabled := false;
      trackedFiles := map[];
      fileMetadata := map[];
      contributions := map[];
    }

    /** What _save_tracking_file writes (GUI.py:742-745); loading it back restores
        `file_metadata` exactly. */
    function Snapshot(): (s: Sidecar)
      reads this
      ensures s.Document? && s.trackedFiles == trackedFiles
      ensures Valid() ==> LoadedMetadata(s) == fileMetadata
    {
      var s := Document(trackedFiles, fileMetadata);
      assert Valid() ==> LoadedMetadata(s) == fileMetadata by {
        if Valid() {
          SaveLoadRoundTrip(trackedFiles, fileMetadata);
        }
      }
      s
    }

    /** The loading half of load_folder (GUI.py:254-284): both maps are reset, then restored
        from the sidecar with mod_count and history defaulted, and `tracked_files` is rebuilt
        from the histories. */
    method Load(src: Sidecar)
      modifies this
      ensures Valid()
      ensures fileMetadata == LoadedMetadata(src)
      ensures trackedFiles == LastEntries(fileMetadata)
      ensures contributions == old(contributions) && trackingEnabled == old(trackingEnabled)
    {
      trackedFiles := map[];
      fileMetadata := map[];
      if src.Document? {
        var raw := src.fileMetadata;
        fileMetadata := raw;
        var todo := raw.Keys;
        while todo != {}
          invariant todo <= raw.Keys && fileMetadata.Keys == raw.Keys
          invariant forall p :: p in raw ==> fileMetadata[p] == if p in todo then raw[p] else Normalize(raw[p])
          invariant trackedFiles == map[]
          invariant contributions == old(contributions) && trackingEnabled == old(trackingEnabled)
          decreases |todo|
        {
          var p :| p in todo;
          fileMetadata := fileMetadata[p := Normalize(fileMetadata[p])];
          todo := todo - {p};
        }
        assert fileMetadata.Keys == LoadedMetadata(src).Keys;
        assert fileMetadata == LoadedMetadata(src);
        trackedFiles := RebuildTracked(fileMetadata);
      } else {
        assert LastEntries(map[]) == map[];
      }
    }

    /** _rescan (GUI.py:753-811): merges the scan into `file_metadata`, returns whether a known
        file was modified, and recomputes `contributions` in full. `tracked_files` is not touched.
        `scan` lists the files in the order the loop visits them, each with what
        os.path.getmtime returned for it. */
    method Rescan(scan: seq<Observation>) returns (changed: bool)
      requires Valid()
      modifies this
      ensures Valid()
      ensures (fileMetadata, changed) == ReconcileAll(old(fileMetadata), scan)
      ensures contributions == Multiplicities(DateBag(fileMetadata, dateOf))
      ensures trackedFiles == old(trackedFiles) && trackingEnabled == old(trackingEnabled)
    {
      changed := false;
      var i := 0;
      while i < |scan|
        invariant 0 <= i <= |scan|
        invariant StoreLoaded(fileMetadata)
        invariant (fileMetadata, changed) == ReconcileAll(old(fileMetadata), scan[..i])
        invariant trackedFiles == old(trackedFiles) && trackingEnabled == old(trackingEnabled)
      {
        var o := scan[i];
        assert scan[..i + 1][..i] == scan[..i];
        assert Last(scan[..i + 1]) == o;
        var next, hit := ObserveFile(fileMetadata, o);
        fileMetadata := next;
        if hit {
          changed := true;
        }
        i := i + 1;
      }
      assert scan[..i] == scan;
      contributions := ComputeContributions();
    }

    /** load_folder (GUI.py:248-291): load, then a forced rescan. */
    method LoadFolder(src: Sidecar, scan: seq<Observation>) returns (changed: bool)
      modifies this
      ensures Valid()
      ensures (fileMetadata, changed) == ReconcileAll(LoadedMetadata(src), scan)
      ensures trackedFiles == LastEntries(LoadedMetadata(src))
      ensures contributions == Multiplicities(DateBag(fileMetadata, dateOf))
      ensures trackingEnabled == old(trackingEnabled)
    {
      Load(src);
      changed := Rescan(scan);
    }

    /** _start_tracking (GUI.py:712-733). Tracking is switched on even when the folder is
        missing; then nothing else happens. */
    method StartTracking(folderExists: bool, entries: seq<DirEntry>)
      requires Valid()
      modifies this
      ensures Valid() && trackingEnabled
      ensures !folderExists ==> fileMetadata == old(fileMetadata) && trackedFiles == old(trackedFiles)
      ensures folderExists ==> (fileMetadata, trackedFiles) == StartAll(old(fileMetadata), old(trackedFiles), entries)
      ensures contributions == old(contributions)
    {
      trackingEnabled := true;
      if !folderExists {
        return;
      }
      var i := 0;
      while i < |entries|
        invariant 0 <= i <= |entries|
        invariant (fileMetadata, trackedFiles) == StartAll(old(fileMetadata), old(trackedFiles), entries[..i])
        invariant contributions == old(contributions) && trackingEnabled
      {
        var e := entries[i];
        assert entries[..i + 1][..i] == entries[..i];
        assert Last(entries[..i + 1]) == e;
        if e.isFile && !EndsWith(e.name, JsonSuffix) {
          if e.path !in fileMetadata {
            fileMetadata := fileMetadata[e.path := Record(Some(e.mtime), Some(1), Some([e.mtime]))];
          }
          trackedFiles := trackedFiles[e.path := e.mtime];
        }
        i := i + 1;
      }
      assert entries[..i] == entries;
      StartMetaFrame(old(fileMetadata), old(trackedFiles), entries);
    }

    /** The aggregation loop of GUI.py:807-811: for every history timestamp of every record,
        one more count for its date. */
    method ComputeContributions() returns (counts: map<Date, nat>)
      requires Valid()
      ensures counts == Multiplicities(DateBag(fileMetadata, dateOf))
    {
      counts := map[];
      var todo := fileMetadata.Keys;
      RemoveAll(DatesPerFile(fileMetadata, dateOf));
      while todo != {}
        invariant todo <= fileMetadata.Keys
        invariant counts == Multiplicities(Union(DatesPerFile(fileMetadata, dateOf) - todo))
        decreases |todo|
      {
        var p :| p in todo;
        var h := fileMetadata[p].history.value;
        counts := TallyDates(h, counts, Union(DatesPerFile(fileMetadata, dateOf) - todo));
        TallyStep(fileMetadata, dateOf, todo, p, counts);
        todo := todo - {p};
      }
      RemoveNone(DatesPerFile(fileMetadata, dateOf));
    }

    /** The inner loop of GUI.py:808-811 over one history, on top of the counts so far. */
    method TallyDates(h: seq<real>, counts: map<Date, nat>, ghost bag: multiset<Date>)
      returns (tally: map<Date, nat>)
      requires counts == Multiplicities(bag)
      ensures tally == Multiplicities(bag + multiset(DatesOf(h, dateOf)))
    {
      tally := counts;
      ghost var seen := bag;
      var j := 0;
      while j < |h|
        invariant 0 <= j <= |h|
        invariant seen == bag + multiset(DatesOf(h[..j], dateOf))
        invariant tally == Multiplicities(seen)
      {
        var day := dateOf(h[j]);
        CountOneMore(tally, seen, day);
        DatesOfStep(bag, h, dateOf, j);
        var n := if day in tally then tally[day] else 0;
        tally := tally[day := n + 1];
        seen := seen + multiset{day};
        j := j + 1;
      }
      assert h[..j] == h;
    }

    /** The tooltip's recount for day `d` (GUI.py:543-552): the number of events and, once per
        event, the file it belongs to. */
    method DayActivity(d: Date) returns (count: nat, files: seq<Path>)
      requires Valid()
      ensures count == DateBag(fileMetadata, dateOf)[d] && |files| == count
      ensures multiset(files) == DayFiles(fileMetadata, dateOf, d)
      // the heatmap's count for the day, whenever `contributions` is up to date (after a rescan)
      ensures contributions == Multiplicities(DateBag(fileMetadata, dateOf)) ==>
        count == if d in contributions then contributions[d] else 0
    {
      count, files := 0, [];
      ghost var perFile := FilesPerFile(fileMetadata, dateOf, d);
      var todo := fileMetadata.Keys;
      RemoveAll(perFile);
      while todo != {}
        invariant todo <= fileMetadata.Keys
        invariant count == |files| && multiset(files) == Union(perFile - todo)
        decreases |todo|
      {
        var p :| p in todo;
        var h := fileMetadata[p].history.value;
        UnionStep(perFile, todo, p);
        count, files := TallyDay(p, h, d, count, files);
        todo := todo - {p};
      }
      RemoveNone(perFile);
      DayFilesSize(fileMetadata, dateOf, d);
    }

    /** The inner loop of GUI.py:548-552 over the history `h` of file `p`. */
    method TallyDay(p: Path, h: seq<real>, d: Date, count: nat, files: seq<Path>)
      returns (count': nat, files': seq<Path>)
      requires count == |files|
      ensures count' == |files'|
      ensures multiset(files') == multiset(files) + multiset{}[p := multiset(DatesOf(h, dateOf))[d]]
    {
      count', files' := count, files;
      ghost var onDay := 0;
      var j := 0;
      while j < |h|
        invariant 0 <= j <= |h|
        invariant onDay == multiset(DatesOf(h[..j], dateOf))[d]
        invariant count' == |files'| && multiset(files') == multiset(files) + multiset{}[p := onDay]
      {
        DatesOnStep(h, dateOf, d, j);
        if dateOf(h[j]) == d {
          AppendOwn(files, files', p, onDay);
          count' := count' + 1;
          files' := files' + [p];
          onDay := onDay + 1;
        }
        j := j + 1;
      }
      assert h[..j] == h;
    }

    /** The click listing for day `d` (GUI.py:607-614): every (file, timestamp) event of that day. */
    method DayListing(d: Date) returns (events: seq<(Path, real)>)
      requires Valid()
      ensures multiset(events) == DayEvents(fileMetadata, dateOf, d)
      // as many entries as the heatmap's count, whenever `contributions` is up to date
      ensures contributions == Multiplicities(DateBag(fileMetadata, dateOf)) ==>
        |events| == if d in contributions then contributions[d] else 0
    {
      events := [];
      ghost var perFile := EventsPerFile(fileMetadata, dateOf, d);
      var todo := fileMetadata.Keys;
      RemoveAll(perFile);
      while todo != {}
        invariant todo <= fileMetadata.Keys
        invariant multiset(events) == Union(perFile - todo)
        decreases |todo|
      {
        var p :| p in todo;
        UnionStep(perFile, todo, p);
        events := ListDay(p, fileMetadata[p].history.value, d, events);
        todo := todo - {p};
      }
      RemoveNone(perFile);
      DayEventsCount(fileMetadata, dateOf, d);
    }

    /** The inner loop of GUI.py:611-614 over the history `h` of file `p`. */
    method ListDay(p: Path, h: seq<real>, d: Date, events: seq<(Path, real)>) returns (listed: seq<(Path, real)>)
      ensures listed == events + EventsOn(p, h, dateOf, d)
    {
      listed := events;
      var j := 0;
      while j < |h|
        invariant 0 <= j <= |h|
        invariant listed == events + EventsOn(p, h[..j], dateOf, d)
      {
        assert h[..j + 1][..j] == h[..j];
        if dateOf(h[j]) == d {
          listed := listed + [(p, h[j])];
        }
        j := j + 1;
      }
      assert h[..j] == h;
    }
  }
}
