/** The per-file record of `file_metadata` and the reconciliation loop of `_rescan`
    (GUI.py:767-804): each scanned (path, mtime) is merged into the store. */
module Records {
  import opened Types

  /** A modification counts only when the new mtime exceeds the stored one by more than this. */
  const Debounce: real := 0.5

  /** One `file_metadata` value, `{"mtime": …, "mod_count": …, "history": […]}`. Each key may be
      missing from a dictionary read back from tracking.json, hence the options. */
  datatype Record = Record(mtime: Option<real>, modCount: Option<int>, history: Option<seq<real>>)

  /** One file visited by the rescan loop, with the result of `os.path.getmtime`
      (`None` when it raised: the file is skipped, GUI.py:769-772). */
  datatype Observation = Observation(path: Path, mtime: Option<real>)

  /** The record's history, or nothing when the key is missing. */
  function History(r: Record): seq<real> {
    if r.history.Some? then r.history.value else []
  }

  /** All three keys present: the test at GUI.py:785 lets the record through. */
  predicate WellFormed(r: Record) {
    r.mtime.Some? && r.modCount.Some? && r.history.Some?
  }

  /** The shape every record has after load_folder normalised it: mod_count and history present. */
  predicate Loaded(r: Record) {
    r.modCount.Some? && r.history.Some?
  }

  ghost predicate StoreLoaded(meta: map<Path, Record>) {
    forall p :: p in meta ==> Loaded(meta[p])
  }

  /** Strictly increasing: chronological and without duplicates. */
  predicate Increasing(h: seq<real>) {
    forall i, j :: 0 <= i < j < |h| ==> h[i] < h[j]
  }

  /** The record invariant that the rescan and start tracking maintain: the history is a non-empty increasing sequence ending
      at the stored mtime, and mod_count is its length. */
  predicate Consistent(r: Record) {
    && WellFormed(r)
    && r.history.value != []
    && r.mtime.value == Last(r.history.value)
    && r.modCount.value == |r.history.value|
    && Increasing(r.history.value)
  }

  ghost predicate AllConsistent(meta: map<Path, Record>) {
    forall p :: p in meta ==> Consistent(meta[p])
  }

  ghost predicate AllIncreasing(meta: map<Path, Record>) {
    forall p :: p in meta ==> Increasing(History(meta[p]))
  }

  /** The record created for a path seen for the first time, or in place of a malformed one. */
  function Seed(m: real): Record {
    Record(Some(m), Some(1), Some([m]))
  }

  function Lookup(meta: map<Path, Record>, p: Path): Option<Record> {
    if p in meta then Some(meta[p]) else None
  }

  /** What the rescan makes of the stored record `prior` (None: path unseen) when the file's
      mtime is now `m`, and whether that sets `changed` (GUI.py:774-804). */
  function Revise(prior: Option<Record>, m: real): (res: (Record, bool))
    // afterwards the record is well formed and `m` lies within the debounce window
    ensures WellFormed(res.0) && m <= res.0.mtime.value + Debounce
    // only a modification beyond the debounce on a well-formed record is a change
    ensures res.1 <==> prior.Some? && WellFormed(prior.value) && m > prior.value.mtime.value + Debounce
    // seed and self-heal: an unseen path or a record missing a key is replaced, silently
    ensures !(prior.Some? && WellFormed(prior.value)) ==> res.0 == Seed(m)
    // debounce: within the window a well-formed record is left exactly as it was
    ensures prior.Some? && WellFormed(prior.value) && !res.1 ==> res.0 == prior.value
    // update: mtime becomes m, mod_count goes up by one, history grows only by a newer m
    ensures res.1 ==> res.0.mtime == Some(m) && res.0.modCount == Some(prior.value.modCount.value + 1)
    ensures res.1 ==>
      var h := History(prior.value);
      History(res.0) == (if h == [] || Last(h) < m then h + [m] else h)
    // a well-formed record's mtime never goes back
    ensures prior.Some? && WellFormed(prior.value) ==> prior.value.mtime.value <= res.0.mtime.value
  {
    match prior
    case None => (Seed(m), false)
    case Some(r) =>
      if !WellFormed(r) then (Seed(m), false)
      else if m > r.mtime.value + Debounce then
        var h := r.history.value;
        (Record(Some(m), Some(r.modCount.value + 1), Some(if h == [] || m > Last(h) then h + [m] else h)), true)
      else (r, false)
  }

  /** One iteration of the rescan loop. */
  function Observe(meta: map<Path, Record>, o: Observation): (res: (map<Path, Record>, bool))
    // a file getmtime could not read is skipped
    ensures o.mtime.None? ==> res == (meta, false)
    // only the observed path is touched; it is then well formed
    ensures res.0.Keys == meta.Keys + (if o.mtime.Some? then {o.path} else {})
    ensures forall p :: p in meta && p != o.path ==> res.0[p] == meta[p]
    ensures o.mtime.Some? ==> WellFormed(res.0[o.path])
    // a path seen for the first time never counts as a change
    ensures res.1 ==> o.path in meta
  {
    match o.mtime
    case None => (meta, false)
    case Some(m) =>
      var res := Revise(Lookup(meta, o.path), m);
      (meta[o.path := res.0], res.1)
  }

  /** The whole rescan loop: the new `file_metadata` and the `changed` flag. */
  function ReconcileAll(meta: map<Path, Record>, scan: seq<Observation>): (res: (map<Path, Record>, bool))
    // the rescan never forgets a path, and every record it adds is well formed
    ensures meta.Keys <= res.0.Keys
    ensures forall p :: p in res.0 && p !in meta ==> WellFormed(res.0[p])
    decreases |scan|
  {
    if scan == [] then (meta, false)
    else
      var before := ReconcileAll(meta, scan[..|scan| - 1]);
      var step := Observe(before.0, Last(scan));
      (step.0, before.1 || step.1)
  }

  /** The paths the scan could stat. */
  function Observed(scan: seq<Observation>): set<Path>
    decreases |scan|
  {
    if scan == [] then {}
    else Observed(scan[..|scan| - 1]) + (if Last(scan).mtime.Some? then {Last(scan).path} else {})
  }

  /** The scan visits each path at most once (os.scandir lists each entry once). */
  predicate DistinctPaths(scan: seq<Observation>) {
    forall i, j :: 0 <= i < j < |scan| ==> scan[i].path != scan[j].path
  }

  // ---------------------------------------------------------------------------
  // One record
  // ---------------------------------------------------------------------------

  /** Appending an mtime newer than the last entry keeps a history increasing. */
  lemma AppendIncreasing(h: seq<real>, m: real)
    requires Increasing(h)
    requires h == [] || Last(h) < m
    ensures Increasing(h + [m])
  {
    var g := h + [m];
    forall i, j | 0 <= i < j < |g|
      ensures g[i] < g[j]
    {
      if j == |h| && i < |h| {
        assert h[i] <= Last(h);
      }
    }
  }

  /** The record invariant survives a revision, and a seeded record satisfies it. */
  lemma ReviseKeepsConsistent(prior: Option<Record>, m: real)
    requires prior.Some? && WellFormed(prior.value) ==> Consistent(prior.value)
    ensures Consistent(Revise(prior, m).0)
  {
    if prior.Some? && WellFormed(prior.value) && Revise(prior, m).1 {
      AppendIncreasing(prior.value.history.value, m);
    }
  }

  /** An increasing history stays increasing: a new entry is appended only when it is newer. */
  lemma ReviseKeepsIncreasing(prior: Option<Record>, m: real)
    requires prior.Some? ==> Increasing(History(prior.value))
    ensures Increasing(History(Revise(prior, m).0))
  {
    if prior.Some? && WellFormed(prior.value) && Revise(prior, m).1 {
      var h := History(prior.value);
      if h == [] || Last(h) < m {
        AppendIncreasing(h, m);
      }
    }
  }

  // ---------------------------------------------------------------------------
  // The whole scan
  // ---------------------------------------------------------------------------

  /** Reconciliation adds records for the scanned paths only, never deletes one, and leaves every
      record of a path absent from the scan exactly as it was. */
  lemma {:induction false} ReconcileFrame(meta: map<Path, Record>, scan: seq<Observation>)
    ensures ReconcileAll(meta, scan).0.Keys == meta.Keys + Observed(scan)
    ensures forall p :: p in meta && p !in Observed(scan) ==> ReconcileAll(meta, scan).0[p] == meta[p]
    decreases |scan|
  {
    if scan != [] {
      ReconcileFrame(meta, scan[..|scan| - 1]);
    }
  }

  /** If every record satisfies the invariant before reconciliation, every record satisfies it after. */
  lemma {:induction false} ReconcileKeepsConsistent(meta: map<Path, Record>, scan: seq<Observation>)
    requires AllConsistent(meta)
    ensures AllConsistent(ReconcileAll(meta, scan).0)
    decreases |scan|
  {
    if scan != [] {
      var before := ReconcileAll(meta, scan[..|scan| - 1]).0;
      ReconcileKeepsConsistent(meta, scan[..|scan| - 1]);
      var o := Last(scan);
      if o.mtime.Some? {
        ReviseKeepsConsistent(Lookup(before, o.path), o.mtime.value);
      }
    }
  }

  /** Strictly increasing histories stay strictly increasing, whatever the other fields hold. */
  lemma {:induction false} ReconcileKeepsIncreasing(meta: map<Path, Record>, scan: seq<Observation>)
    requires AllIncreasing(meta)
    ensures AllIncreasing(ReconcileAll(meta, scan).0)
    decreases |scan|
  {
    if scan != [] {
      var before := ReconcileAll(meta, scan[..|scan| - 1]).0;
      ReconcileKeepsIncreasing(meta, scan[..|scan| - 1]);
      var o := Last(scan);
      if o.mtime.Some? {
        ReviseKeepsIncreasing(Lookup(before, o.path), o.mtime.value);
      }
    }
  }

  /** Every stat-able path of the scan has a well-formed record whose mtime the scanned one does
      not exceed by more than the debounce. */
  ghost predicate Settled(meta: map<Path, Record>, scan: seq<Observation>) {
    forall i :: 0 <= i < |scan| && scan[i].mtime.Some? ==>
      && scan[i].path in meta
      && WellFormed(meta[scan[i].path])
      && scan[i].mtime.value <= meta[scan[i].path].mtime.value + Debounce
  }

  /** After a reconciliation the store is settled with respect to the scan. */
  lemma {:induction false} ReconcileSettles(meta: map<Path, Record>, scan: seq<Observation>)
    ensures Settled(ReconcileAll(meta, scan).0, scan)
    decreases |scan|
  {
    if scan != [] {
      var init := scan[..|scan| - 1];
      var before := ReconcileAll(meta, init).0;
      var after := ReconcileAll(meta, scan).0;
      ReconcileSettles(meta, init);
      var o := Last(scan);
      forall i | 0 <= i < |scan| && scan[i].mtime.Some?
        ensures scan[i].path in after && WellFormed(after[scan[i].path])
        ensures scan[i].mtime.value <= after[scan[i].path].mtime.value + Debounce
      {
        if i < |init| {
          assert init[i] == scan[i];
          if o.mtime.Some? && o.path == scan[i].path {
            assert Lookup(before, o.path) == Some(before[o.path]);
          }
        }
      }
    }
  }

  /** A settled store is a fixed point: nothing changes and `changed` stays false. */
  lemma {:induction false} SettledIsFixpoint(meta: map<Path, Record>, scan: seq<Observation>)
    requires Settled(meta, scan)
    ensures ReconcileAll(meta, scan) == (meta, false)
    decreases |scan|
  {
    if scan != [] {
      var init := scan[..|scan| - 1];
      assert Settled(meta, init) by {
        forall i | 0 <= i < |init| && init[i].mtime.Some?
          ensures init[i].path in meta
        {
          assert init[i] == scan[i];
        }
      }
      SettledIsFixpoint(meta, init);
      var o := Last(scan);
      if o.mtime.Some? {
        assert scan[|scan| - 1] == o;
        assert Lookup(meta, o.path) == Some(meta[o.path]);
        assert meta[o.path := meta[o.path]] == meta;
      }
    }
  }

  /** Idempotence: a second reconciliation with the same scan reports no change and leaves
      `file_metadata` as the first one left it. */
  lemma ReconcileIdempotent(meta: map<Path, Record>, scan: seq<Observation>)
    ensures var once := ReconcileAll(meta, scan).0;
      ReconcileAll(once, scan) == (once, false)
  {
    ReconcileSettles(meta, scan);
    SettledIsFixpoint(ReconcileAll(meta, scan).0, scan);
  }

  /** A path that no observation of the scan names is not observed. */
  lemma {:induction false} UnnamedNotObserved(scan: seq<Observation>, p: Path)
    requires forall i :: 0 <= i < |scan| ==> scan[i].path != p
    ensures p !in Observed(scan)
    decreases |scan|
  {
    if scan != [] {
      var init := scan[..|scan| - 1];
      forall i | 0 <= i < |init|
        ensures init[i].path != p
      {
        assert init[i] == scan[i];
      }
      UnnamedNotObserved(init, p);
      assert scan[|scan| - 1] == Last(scan);
    }
  }

  /** With distinct paths, each scanned record ends exactly as one revision of its stored record
      leaves it. */
  lemma {:induction false} ReconcileRecords(meta: map<Path, Record>, scan: seq<Observation>)
    requires DistinctPaths(scan)
    ensures forall i :: 0 <= i < |scan| && scan[i].mtime.Some? ==>
      && scan[i].path in ReconcileAll(meta, scan).0
      && ReconcileAll(meta, scan).0[scan[i].path] == Revise(Lookup(meta, scan[i].path), scan[i].mtime.value).0
    decreases |scan|
  {
    if scan != [] {
      var init := scan[..|scan| - 1];
      var o := Last(scan);
      assert DistinctPaths(init);
      ReconcileRecords(meta, init);
      if o.mtime.Some? {
        forall i | 0 <= i < |init|
          ensures init[i].path != o.path
        {
          assert init[i] == scan[i];
        }
        UnnamedNotObserved(init, o.path);
        ReconcileFrame(meta, init);
        assert Lookup(ReconcileAll(meta, init).0, o.path) == Lookup(meta, o.path);
      }
      forall i | 0 <= i < |scan| && scan[i].mtime.Some?
        ensures scan[i].path in ReconcileAll(meta, scan).0
        ensures ReconcileAll(meta, scan).0[scan[i].path] == Revise(Lookup(meta, scan[i].path), scan[i].mtime.value).0
      {
        if i < |init| {
          assert init[i] == scan[i];
          assert scan[i].path != scan[|scan| - 1].path;
        }
      }
    }
  }

  /** With distinct paths, `changed` is set exactly when some scanned well-formed record has a
      modification beyond the debounce. */
  lemma {:induction false} ReconcileChanged(meta: map<Path, Record>, scan: seq<Observation>)
    requires DistinctPaths(scan)
    ensures ReconcileAll(meta, scan).1 <==>
      exists i :: 0 <= i < |scan| && scan[i].mtime.Some? && Revise(Lookup(meta, scan[i].path), scan[i].mtime.value).1
    decreases |scan|
  {
    if scan != [] {
      var init := scan[..|scan| - 1];
      var o := Last(scan);
      assert DistinctPaths(init);
      ReconcileChanged(meta, init);
      if o.mtime.Some? {
        forall i | 0 <= i < |init|
          ensures init[i].path != o.path
        {
          assert init[i] == scan[i];
        }
        UnnamedNotObserved(init, o.path);
        ReconcileFrame(meta, init);
        assert Lookup(ReconcileAll(meta, init).0, o.path) == Lookup(meta, o.path);
      }
      if ReconcileAll(meta, scan).1 {
        if ReconcileAll(meta, init).1 {
          var i :| 0 <= i < |init| && init[i].mtime.Some? && Revise(Lookup(meta, init[i].path), init[i].mtime.value).1;
          assert scan[i] == init[i];
        } else {
          assert scan[|scan| - 1] == o;
        }
      }
      if exists i :: 0 <= i < |scan| && scan[i].mtime.Some? && Revise(Lookup(meta, scan[i].path), scan[i].mtime.value).1 {
        var i :| 0 <= i < |scan| && scan[i].mtime.Some? && Revise(Lookup(meta, scan[i].path), scan[i].mtime.value).1;
        if i < |init| {
          assert init[i] == scan[i];
        }
      }
    }
  }

  /** The first scan of an empty store seeds one record per stat-able file and reports no change:
      first sightings are not modifications. */
  lemma FirstScanIsSilent(scan: seq<Observation>)
    requires DistinctPaths(scan)
    ensures !ReconcileAll(map[], scan).1
    ensures forall i :: 0 <= i < |scan| && scan[i].mtime.Some? ==>
      && scan[i].path in ReconcileAll(map[], scan).0
      && ReconcileAll(map[], scan).0[scan[i].path] == Seed(scan[i].mtime.value)
  {
    ReconcileRecords(map[], scan);
    ReconcileChanged(map[], scan);
  }
}
