/** Reading tracking.json back (load_folder, GUI.py:252-284) and what _save_tracking_file writes
    (GUI.py:740-749). JSON text itself is not modelled: a sidecar is either absent, unreadable,
    or already parsed into its two maps. */
module Persistence {
  import opened Types
  import opened Records

  /** The sidecar as load_folder finds it. `Unreadable` covers every exception the try block can
      raise: invalid JSON, an unexpected shape, a value float()/int() rejects. A `Document` holds
      each present mod_count and history entry as int()/float() (GUI.py:272-273) convert it. */
  datatype Sidecar =
    | Absent
    | Unreadable
    | Document(trackedFiles: map<Path, real>, fileMetadata: map<Path, Record>)

  /** GUI.py:272-273: mod_count defaults to 0 and history to []; mtime is left as it is. */
  function Normalize(r: Record): (n: Record)
    ensures Loaded(n) && n.mtime == r.mtime
    ensures Loaded(r) ==> n == r
    ensures r.modCount.None? ==> n.modCount == Some(0)
    ensures r.history.None? ==> n.history == Some([])
    ensures r.modCount.Some? ==> n.modCount == r.modCount
    ensures r.history.Some? ==> n.history == r.history
  {
    Record(r.mtime, Some(if r.modCount.Some? then r.modCount.value else 0),
           Some(if r.history.Some? then r.history.value else []))
  }

  /** The `file_metadata` map load_folder ends with: after a load every record has mod_count
      and history, whatever the file held, and only an absent or unreadable file gives an empty
      store. */
  function LoadedMetadata(src: Sidecar): (meta: map<Path, Record>)
    ensures StoreLoaded(meta)
    ensures meta.Keys == if src.Document? then src.fileMetadata.Keys else {}
    ensures forall p :: p in meta ==> meta[p].mtime == src.fileMetadata[p].mtime
  {
    match src
    case Document(_, meta) => map p | p in meta :: Normalize(meta[p])
    case _ => map[]
  }

  /** GUI.py:276-279: the last history entry of every record whose history is not empty. */
  function LastEntries(meta: map<Path, Record>): map<Path, real> {
    map p | p in meta && History(meta[p]) != [] :: Last(History(meta[p]))
  }

  /** The loop of GUI.py:276-279 that rebuilds `tracked_files` from the loaded histories. */
  method RebuildTracked(meta: map<Path, Record>) returns (tracked: map<Path, real>)
    requires StoreLoaded(meta)
    ensures tracked == LastEntries(meta)
  {
    tracked := map[];
    var todo := meta.Keys;
    RemoveAll(meta);
    assert LastEntries(map[]) == map[];
    while todo != {}
      invariant todo <= meta.Keys
      invariant tracked == LastEntries(meta - todo)
      decreases |todo|
    {
      var p :| p in todo;
      var h := meta[p].history.value;
      LastEntriesStep(meta, todo, p);
      if h != [] {
        tracked := tracked[p := h[|h| - 1]];
      }
      todo := todo - {p};
    }
    RemoveNone(meta);
  }

  /** Handing one more record from the pending set `todo` to the visited part adds its last
      timestamp, if it has one. */
  lemma LastEntriesStep(meta: map<Path, Record>, todo: set<Path>, p: Path)
    requires p in todo && todo <= meta.Keys
    ensures var h := History(meta[p]);
      LastEntries(meta - (todo - {p}))
        == if h != [] then LastEntries(meta - todo)[p := Last(h)] else LastEntries(meta - todo)
  {
    RemoveStep(meta, todo, p);
    var h := History(meta[p]);
    var a := LastEntries(meta - (todo - {p}));
    var b := if h != [] then LastEntries(meta - todo)[p := Last(h)] else LastEntries(meta - todo);
    assert a.Keys == b.Keys;
    forall q | q in a ensures a[q] == b[q] {}
  }

  /** Hence the self-heal test of the rescan (GUI.py:785) can only fire on a missing mtime. */
  lemma HealOnlyOnMissingMtime(meta: map<Path, Record>, p: Path)
    requires StoreLoaded(meta) && p in meta
    ensures !WellFormed(meta[p]) <==> meta[p].mtime.None?
  {
  }

  /** Saving then loading gives back `file_metadata` for every store in loaded shape. */
  lemma SaveLoadRoundTrip(tracked: map<Path, real>, meta: map<Path, Record>)
    requires StoreLoaded(meta)
    ensures LoadedMetadata(Document(tracked, meta)) == meta
  {
    var loaded := LoadedMetadata(Document(tracked, meta));
    forall p | p in meta
      ensures loaded[p] == meta[p]
    {
    }
  }

  /** Normalising twice is normalising once. */
  lemma NormalizeIdempotent(r: Record)
    ensures Normalize(Normalize(r)) == Normalize(r)
  {
  }

  /** For consistent records the rebuilt `tracked_files` holds each record's stored mtime. */
  lemma LastEntriesOfConsistent(meta: map<Path, Record>)
    requires AllConsistent(meta)
    ensures LastEntries(meta).Keys == meta.Keys
    ensures forall p :: p in meta ==> LastEntries(meta)[p] == meta[p].mtime.value
  {
  }

  /** A record saved without "history" and "mod_count" is loaded with an empty history and
      count 0, and a rescan within the debounce does not heal it: it keeps contributing nothing. */
  lemma MissingHistoryStaysEmpty(p: Path, m: real, later: real)
    requires later <= m + Debounce
    ensures var loaded := LoadedMetadata(Document(map[], map[p := Record(Some(m), None, None)]));
      && loaded[p] == Record(Some(m), Some(0), Some([]))
      && ReconcileAll(loaded, [Observation(p, Some(later))]).0[p] == Record(Some(m), Some(0), Some([]))
  {
    var loaded := LoadedMetadata(Document(map[], map[p := Record(Some(m), None, None)]));
    assert [Observation(p, Some(later))][..0] == [];
  }
}
