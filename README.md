# Artwork calendar tracking engine

A Dafny model of the tracking engine of `ArtworkCalendarApp` (GUI.py), with proofs about it. The app
watches a folder of artwork files. It keeps one record per file in `file_metadata`:
`{mtime, mod_count, history}`, where `history` holds one timestamp per modification. It keeps the
last seen mtime of each tracked file in `tracked_files`. It draws a heatmap from `contributions`,
the number of modification events per calendar date.

The model covers:

- **The folder scan** (module `Scanner`): `get_file_dates` and the second `.json` filter of
  `_rescan`. A directory entry is tracked when it is a regular file whose name does not end in `.json`.
- **Reconciliation** (module `Records`): the loop of `_rescan`.
  - An unseen path gets a seeded record `{m, 1, [m]}`.
  - A record missing any key is replaced by a seeded record. This is the self-heal.
  - A well-formed record changes only when the new mtime exceeds the stored one by more than 0.5.
    Then `mtime := m`, `mod_count += 1`, and `m` is appended to the history only if it is newer than
    the last entry.
  - `changed` reports whether any modification was recorded.
  - The loop is specified as a left fold, `ReconcileAll`, and its properties are proved as lemmas.
- **Start tracking** (module `Seeding`): `_start_tracking` as the fold `StartAll`.
- **Loading** (module `Persistence`): the normalisation of `load_folder`.
  - `mod_count` defaults to 0 and `history` defaults to `[]`.
  - `tracked_files` is rebuilt from the last history entry of each record.
  - An absent or unreadable sidecar gives empty maps.
- **Aggregation** (module `Aggregation`): the day counts, specified as multisets of dates.
  - `DateBag` is every history timestamp's date; `contributions` holds the multiplicity of each date.
  - `DayEvents` holds the (path, timestamp) pairs of a day; `DayFiles` holds the files of a day, with
    repetition.
  - Sums over maps are defined independently of the order keys are visited in.
- **The colour scale** (module `Palette`): `contribution_color`.
- **The state** (module `Engine`, class `Tracker`): the fields `tracking_enabled`,
  `tracked_files`, `file_metadata` and `contributions`.
  - `Load`, `Rescan`, `LoadFolder` and `StartTracking` update the fields in place with loops.
  - `ComputeContributions`, `DayActivity` and `DayListing` compute their results with loops over
    the fields and return them without changing anything; `Rescan` stores the first in
    `contributions`.
  - Each method is proved against the specification functions above.

Inputs outside the program are parameters:

- A directory listing is a `seq<DirEntry>` (`path`, `name`, `is_file()`, `st_mtime`); whether the
  folder exists is a `bool`.
- One rescan's results of `os.path.getmtime` are a `seq<Observation>`. `None` means the call raised
  and the file is skipped.
- A parsed `tracking.json` is a `Sidecar` (absent, unreadable, or the two maps).
- `datetime.date.fromtimestamp` is the function `dateOf: real -> Date`.
- Timestamps are exact `real`s.

Some behaviour of the code differs from what its own comments suggest or a reader may expect. The
comments meant are those on the `tracked_files` and `file_metadata` shapes (GUI.py:107-108) and the
"self-healing" note at GUI.py:784. The model follows the code:

- **Healing a missing history.** One might expect the rescan's self-heal (GUI.py:784-791) to
  repair a stored record that lacks `history`. But load already defaults `history` to `[]` and
  `mod_count` to 0 (GUI.py:272-273), so the self-heal test at GUI.py:785 can only fire for a missing
  `mtime`. `Persistence.HealOnlyOnMissingMtime` states this.
  `Persistence.MissingHistoryStaysEmpty` shows such a record: a rescan within 0.5 of its mtime leaves
  it `{m, 0, []}`, so it contributes nothing. A later modification beyond 0.5 gives it the history
  `[later]`.
- **Counts after start tracking.** `_start_tracking` seeds records but does not recompute
  `contributions` (GUI.py:712-733). Until the next poll a newly seeded file is counted by the tooltip
  and the click listing, which recount `file_metadata` (GUI.py:547-552, 610-614), but not by the
  heatmap, which reads `contributions`. `Engine.Tracker.StartTracking` keeps `contributions` as it
  was, and `Engine.Tracker.DayActivity` and `Engine.Tracker.DayListing` tie their counts to
  `contributions` only when it is up to date.
- **Rescan and `tracked_files`.** `_rescan` never updates `tracked_files`. `Engine.Tracker.Rescan`
  states this.
- **`tracked_files` in the sidecar.** The saved `tracked_files` is read and then discarded: load
  rebuilds it from the histories.
- **`mod_count` on a skipped append.** `mod_count` is incremented even when a newer mtime is not
  appended to the history (GUI.py:798-802). `Records.Revise` states this. On records satisfying the
  record invariant the append always happens (`Records.ReviseKeepsConsistent`).

## Model

| member | source | states |
|---|---|---|
| `Scanner.GetFileDates` | GUI.py:60-73 | A missing folder gives an empty map. Otherwise a date is a key exactly when some eligible entry is stamped on it, and maps to those entries' paths in listing order. |
| `Scanner.PathsOnMembers` | GUI.py:66-71 | A path is listed under day d exactly when an eligible entry (a regular file, name not ending in `.json`) with that path is stamped on d. |
| `Scanner.DropJson` | GUI.py:759-761 | The filter keeps exactly the paths not ending in `.json`. It is the identity when no path has that suffix. |
| `Scanner.JoinedPathSuffix` | GUI.py:67 | A path made of `dir`, a separator that is not a character of `.json`, and `name` ends in `.json` exactly when `name` does. |
| `Scanner.DropJsonKeepsScan` | GUI.py:756-761 | The second `.json` filter never removes a path that get_file_dates returned. |
| `Palette.ColorIndex` | GUI.py:78-87 | The chosen palette slot is always one of the five entries of LIGHT_PALETTE. |
| `Palette.ColorBuckets` | GUI.py:78-87 | Slot 0 exactly for count 0, 1 for 1, 2 for 2-3, 3 for 4-6, 4 for 7 and more. |
| `Palette.ColorMonotone` | GUI.py:78-87 | A larger count never gets a lower slot. |
| `Palette.ContributionColor` | GUI.py:78-87 | The colour is always one of the palette's; a day with no modification gets the first, a day with seven or more the fifth. |
| `Records.Revise` | GUI.py:774-804 | An unseen path or a record missing a key becomes `{m, 1, [m]}` without setting `changed`. A well-formed record within 0.5 of its mtime is unchanged and not `changed`. Beyond 0.5: mtime becomes m, mod_count goes up by exactly one, m is appended only if the history is empty or m is newer than its last entry, and `changed` is set. The result is always well formed, m is never more than 0.5 past its mtime, and a well-formed record's mtime never goes back. |
| `Records.Observe` | GUI.py:767-804 | One visited file: a file getmtime could not read changes nothing. Otherwise only its path is touched, it ends well formed, and it sets `changed` only if it already had a record. |
| `Records.ReconcileAll` | GUI.py:767-804 | The rescan loop never removes a path, and every record it adds is well formed. |
| `Records.AppendIncreasing` | GUI.py:801-802 | Appending only a strictly newer mtime keeps a history strictly increasing. |
| `Records.ReviseKeepsConsistent` | GUI.py:775-804 | A record with a non-empty increasing history, `mtime == last(history)` and `mod_count == len(history)` still has all of these after one revision. A seeded record has them too. |
| `Records.ReviseKeepsIncreasing` | GUI.py:796-804 | A strictly increasing history stays strictly increasing, whatever the other fields hold. |
| `Records.ReconcileFrame` | GUI.py:767-804 | After the rescan loop, the store's paths are the old ones plus the stat-able scanned ones; nothing is deleted. A record whose path was not scanned is unchanged. |
| `Records.ReconcileKeepsConsistent` | GUI.py:767-804 | If every record satisfies the record invariant before the loop, every record does after it. |
| `Records.ReconcileKeepsIncreasing` | GUI.py:767-804 | Strictly increasing histories stay strictly increasing across the whole loop. |
| `Records.ReconcileSettles` | GUI.py:767-804 | After the loop, every stat-able scanned path has a well-formed record whose mtime is at most 0.5 below the scanned one. |
| `Records.SettledIsFixpoint` | GUI.py:767-804 | On a store settled for a scan, the loop changes nothing and `changed` stays false. |
| `Records.ReconcileIdempotent` | GUI.py:767-804 | Running the loop a second time on the same scan gives `changed == false` and leaves `file_metadata` as the first run left it. |
| `Records.ReconcileRecords` | GUI.py:767-804 | With distinct scanned paths, each scanned record ends as one revision of its stored record leaves it, whatever the scan order. |
| `Records.ReconcileChanged` | GUI.py:767-804 | With distinct scanned paths, `changed` is true exactly when some scanned, stat-able, well-formed record moved more than 0.5 beyond its stored mtime. |
| `Records.FirstScanIsSilent` | GUI.py:775-782 | The first scan of an empty store seeds `{m, 1, [m]}` for every stat-able file and reports no change. |
| `Seeding.StartAll` | GUI.py:720-731 | Start tracking only adds paths to both maps; every added record is a seed `{m, 1, [m]}` and its path is tracked. |
| `Seeding.StartMetaFrame` | GUI.py:720-729 | Start tracking keeps every existing record as it is. The paths of `file_metadata` become the old ones plus the eligible entries' paths. |
| `Seeding.StartTrackedFrame` | GUI.py:720-731 | `tracked_files` gains exactly the eligible paths. Other paths keep their values. |
| `Seeding.StartAddsSeeds` | GUI.py:724-729 | Every added record is the seed `{mtime, 1, [mtime]}` of an eligible entry with that path. |
| `Seeding.StartOnKnownPaths` | GUI.py:724 | When every eligible path already has a record, `file_metadata` is unchanged. |
| `Seeding.StartIdempotent` | GUI.py:720-731 | Starting again over the same folder leaves `file_metadata` unchanged: no new record, no new history entry. |
| `Seeding.StartTracksEveryFile` | GUI.py:720-731 | With distinct entries, every eligible file ends with `tracked_files[path] == its mtime` and has a record. A file that had no record gets the seed. |
| `Seeding.StartKeepsConsistent` | GUI.py:724-729 | Start tracking preserves the record invariant. |
| `Persistence.Normalize` | GUI.py:272-273 | After loading, a record has mod_count and history and the same mtime. A missing mod_count becomes 0 and a missing history `[]`; a present mod_count or history is kept, after the `int()`/`float()` conversion that the parsed record already reflects. |
| `Persistence.RebuildTracked` | GUI.py:276-279 | The rebuilt `tracked_files` maps exactly the records with a non-empty history to their last history entry. |
| `Persistence.LoadedMetadata` | GUI.py:259-273 | After a load every record has mod_count and history. A document keeps its paths and each record's mtime; an absent or unreadable file gives an empty store. |
| `Persistence.HealOnlyOnMissingMtime` | GUI.py:785 | On a loaded store, the self-heal test fails a record exactly when its mtime is missing. |
| `Persistence.SaveLoadRoundTrip` | GUI.py:740-749 | Loading what was saved gives back `file_metadata` for every store in loaded shape. |
| `Persistence.NormalizeIdempotent` | GUI.py:272-273 | Normalising twice is the same as normalising once. |
| `Persistence.LastEntriesOfConsistent` | GUI.py:276-279 | For records satisfying the record invariant, the rebuilt `tracked_files` holds every path, each mapped to its stored mtime. |
| `Persistence.MissingHistoryStaysEmpty` | GUI.py:272-273 | A record saved without history and mod_count loads as `{m, 0, []}`. A rescan within 0.5 of m leaves it so. |
| `Aggregation.CountOneMore` | GUI.py:811 | `contributions[d] += 1` on a defaultdict counting a multiset counts the multiset with one more d. |
| `Aggregation.MultiplicitiesSum` | GUI.py:807-811 | The counts of a multiset add up to its size. |
| `Aggregation.DateBagSize` | GUI.py:807-811 | There are as many dated events as history entries in the store. |
| `Aggregation.ContributionsTotal` | GUI.py:807-811 | The sum of `contributions` over all dates is the total history length. |
| `Aggregation.DatesOfAt` | GUI.py:808-810 | The dates of a history are `fromtimestamp` of its entries, one per entry, in order. |
| `Aggregation.EventsOnMembers` | GUI.py:611-614 | Each listed pair of a history is `(that file, one of its timestamps)` dated on the clicked day. |
| `Aggregation.EventsOnCount` | GUI.py:611-614 | A history lists as many pairs for a day as it has timestamps on that day. |
| `Aggregation.DayEventsCount` | GUI.py:610-614 | The click listing of a day has exactly as many entries as `file_metadata` has history timestamps on that day, the count a rescan stores in `contributions`. |
| `Aggregation.DayEventsOnDay` | GUI.py:610-614 | Every listed pair is a history timestamp of a stored record, on the clicked day. |
| `Aggregation.DayEventsOfDay` | GUI.py:610-614 | Conversely, every history timestamp of a stored record on the clicked day is listed. |
| `Aggregation.EventsOnComplete` | GUI.py:611-614 | Every timestamp of a history on the clicked day is listed for that file. |
| `Aggregation.DayFilesAt` | GUI.py:547-552 | The tooltip lists a file once per timestamp of its history on that day, and no other file. |
| `Aggregation.DayFilesSize` | GUI.py:547-552 | The tooltip lists as many files as the day's count. |
| `Aggregation.TwoRecordsExample` | GUI.py:807-811 | A store with histories A: [t1, t2] and B: [t1], t1 and t2 on different days, counts 2 on t1's day and 1 on t2's. |
| `Engine.ObserveFile` | GUI.py:767-804 | The loop body for one file computes exactly the step `Observe`. |
| `Engine.Tracker.Snapshot` | GUI.py:742-745 | The saved document holds `tracked_files`, and loading it back gives `file_metadata` exactly. |
| `Engine.Tracker.constructor` | GUI.py:106-115 | Tracking starts switched off; all three maps start empty. |
| `Engine.Tracker.Load` | GUI.py:254-284 | `file_metadata` becomes the normalised sidecar (empty if absent or unreadable), and `tracked_files` the last history entries. The other fields are unchanged. |
| `Engine.Tracker.Rescan` | GUI.py:753-811 | `file_metadata` and `changed` are the fold `ReconcileAll` of the scan. `contributions` becomes the multiplicity of each date in `DateBag`. `tracked_files` and `tracking_enabled` are unchanged. |
| `Engine.Tracker.LoadFolder` | GUI.py:248-287 | Load followed by a forced rescan. |
| `Engine.Tracker.StartTracking` | GUI.py:712-733 | Tracking is switched on even for a missing folder, which changes nothing else. Otherwise both maps become `StartAll` of the entries. |
| `Engine.Tracker.ComputeContributions` | GUI.py:806-811 | The recomputed counts are, for each date, how often it occurs among all history timestamps' dates, with a key only for dates counted at least once. |
| `Engine.Tracker.TallyDates` | GUI.py:808-811 | Counting one history on top of earlier counts gives the counts of both together. |
| `Engine.Tracker.DayActivity` | GUI.py:543-552 | The tooltip count is the number of history timestamps in `file_metadata` on the day, which equals `contributions[d]` (0 for an absent day) whenever `contributions` is up to date, as after a rescan. The files list has that length and holds each file once per event of that day. |
| `Engine.Tracker.TallyDay` | GUI.py:548-552 | One history adds its file once per timestamp on the day, and the count keeps pace with the list. |
| `Engine.Tracker.DayListing` | GUI.py:607-614 | The click listing holds exactly the day's (file, timestamp) events; when `contributions` is up to date it has `contributions[d]` of them. |
| `Engine.Tracker.ListDay` | GUI.py:611-614 | One history appends its events of the day, in history order. |

## Left out

- Tk and matplotlib are not modelled: the window, canvas drawing, the tooltip text and popup, the
  stats sidebar, zoom and year widgets, and the charts with their export. They are presentation.
- PNG capture through Pillow is not modelled; it is library I/O.
- Timers are not modelled: `root.after` polling and `_stop_poll` are event-loop scheduling. One
  `Rescan` call stands for one poll.
- `Engine.Tracker.Rescan` does not model what `changed or force` triggers at GUI.py:814-818:
  `_update_stats`, the redraw, and the save when `changed`. It returns `changed` instead.
- The real filesystem and JSON are not modelled. `os.path.exists`, `os.scandir` and `os.path.getmtime`
  are inputs. `json.load` is replaced by the parsed `Sidecar`: every exception of the load block,
  including a value `int()`/`float()` rejects, is `Unreadable` and gives empty maps.
- `Engine.Tracker.LoadFolder` does not model the `_save_tracking_file` call at GUI.py:291, and
  `Engine.Tracker.StartTracking` does not model the one at GUI.py:733; `Snapshot` is what they
  would write. The message boxes are left out too.
- `Engine.Tracker.StartTracking` does not model a PermissionError from `os.scandir`, which the source
  does not catch. `Scanner.GetFileDates` catches one, which ends the listing early; that is modelled
  as a shorter `entries`.
- `Persistence.Normalize` does not model the conversions of GUI.py:272-273. The parsed `Sidecar`
  already holds `int(mod_count)` and `float(ts)` for every value these accept: `2.7` or `"3"` as a
  mod_count is 2 or 3 there, and `["1.5", 2]` as a history is `[1.5, 2.0]`. Values they reject make
  the sidecar `Unreadable`.
- `Scanner.GetFileDates` and `Engine.Tracker.StartTracking` do not model a FileNotFoundError or other
  OSError from `entry.stat()` (GUI.py:68, 722), for example for a file deleted during the scan.
  Neither function catches it, so it escapes the call; the model takes every entry's `st_mtime` as given.
- `Scanner.GetFileDates` and `Engine.Tracker.ComputeContributions` do not model the OverflowError or
  OSError that `datetime.date.fromtimestamp` raises for an out-of-range timestamp (GUI.py:69, 810).
  `dateOf` is total. The same holds for the recounts of `Engine.Tracker.DayActivity` and
  `Engine.Tracker.DayListing` (GUI.py:549, 612).
- `Engine.Tracker.Rescan` does not model a stored `mtime` that is present but is not a number (a JSON
  `null` or a string). It passes the load and the self-heal test, then `mtime > last_mtime + 0.5` at
  GUI.py:796 raises TypeError out of the rescan. A record's `mtime` is an `Option<real>`, so it is
  either missing or a number.
- `Engine.Tracker` has no `files_by_date` field. `_rescan` rebuilds it from the scan (GUI.py:759-761)
  and only the stats sidebar (`_update_stats`, GUI.py:647) and the charts (`_update_charts`,
  GUI.py:496), both outside this model, read it. The model has its value as `Scanner.DropJson` applied to each list of `Scanner.GetFileDates`.
- `Engine.Tracker.DayListing` ensures only which events are listed and how many times, as a
  multiset. It does not ensure their order. The popup shows them in `file_metadata`'s insertion order,
  then history order (GUI.py:610-614, 633-635); a Dafny map has no insertion order.
- The link between the scan of `get_file_dates` and the `getmtime` calls of the rescan loop is not
  modelled. `Rescan` takes the visited paths and their mtimes in visiting order, by date and then by
  file, as given.
- The date conversion `datetime.date.fromtimestamp` and its time zone are not modelled; they are the
  parameter `dateOf`.
- IEEE float rounding of timestamps and of `last_mtime + 0.5` is not modelled; timestamps are
  exact reals.
- `Records.ReconcileRecords` and `Records.ReconcileChanged` assume distinct scanned paths, as a
  directory listing has. The fold itself, `ReconcileAll`, accepts any scan.
- `Engine.Tracker.DayActivity` does not model the tooltip's deduplication of names, its first-six
  cut-off or `os.path.basename`; they only format the text.
