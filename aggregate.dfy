/** The daily counts behind the heatmap (GUI.py:807-811) and the per-day recounts made by the
    tooltip (GUI.py:547-552) and the click listing (GUI.py:610-614), as specifications over
    `file_metadata`. A history timestamp is one modification event. */
module Aggregation {
  import opened Types
  import opened Records

  // ---------------------------------------------------------------------------
  // Sums over maps, independent of the order the keys are visited in
  // ---------------------------------------------------------------------------

  /** The multiset union of all values of a map. */
  ghost function Union<K, T>(mm: map<K, multiset<T>>): multiset<T>
    decreases |mm|
  {
    if mm == map[] then multiset{}
    else
      var k :| k in mm;
      mm[k] + Union(mm - {k})
  }

  /** The sum of all values of a map. */
  ghost function Sum<K>(m: map<K, nat>): nat
    decreases |m|
  {
    if m == map[] then 0
    else
      var k :| k in m;
      m[k] + Sum(m - {k})
  }

  /** Any key can be taken out first. */
  lemma {:induction false} UnionRemove<K, T>(mm: map<K, multiset<T>>, k: K)
    requires k in mm
    ensures Union(mm) == mm[k] + Union(mm - {k})
    decreases |mm|
  {
    var j :| j in mm && Union(mm) == mm[j] + Union(mm - {j});
    if j != k {
      assert mm - {j} - {k} == mm - {k} - {j};
      UnionRemove(mm - {j}, k);
      UnionRemove(mm - {k}, j);
    }
  }

  /** Any key can be taken out first. */
  lemma {:induction false} SumRemove<K>(m: map<K, nat>, k: K)
    requires k in m
    ensures Sum(m) == m[k] + Sum(m - {k})
    decreases |m|
  {
    var j :| j in m && Sum(m) == m[j] + Sum(m - {j});
    if j != k {
      assert m - {j} - {k} == m - {k} - {j};
      SumRemove(m - {j}, k);
      SumRemove(m - {k}, j);
    }
  }

  /** Setting one value changes the sum by the difference. */
  lemma SumUpdate<K>(m: map<K, nat>, k: K, v: nat)
    ensures Sum(m[k := v]) == v + (if k in m then Sum(m) - m[k] else Sum(m))
  {
    SumRemove(m[k := v], k);
    assert m[k := v] - {k} == m - {k};
    if k in m {
      SumRemove(m, k);
    } else {
      assert m - {k} == m;
    }
  }

  /** How often each element occurs: what a `defaultdict(int)` counter holds, with a key only
      for the elements that were counted at least once. */
  function Multiplicities<T>(b: multiset<T>): map<T, nat> {
    map x | x in b :: b[x]
  }

  /** Counting one more occurrence of `x`. */
  lemma MultiplicitiesAdd<T>(b: multiset<T>, x: T)
    ensures Multiplicities(b + multiset{x}) == Multiplicities(b)[x := b[x] + 1]
  {
  }

  /** The `counts[d] += 1` of a defaultdict(int), in terms of what it counts. */
  lemma CountOneMore<T>(counts: map<T, nat>, b: multiset<T>, x: T)
    requires counts == Multiplicities(b)
    ensures counts[x := (if x in counts then counts[x] else 0) + 1] == Multiplicities(b + multiset{x})
  {
    MultiplicitiesAdd(b, x);
  }

  /** Appending `x` once more to a list that holds `x` n times on top of `base`. */
  lemma AppendOwn<T>(base: seq<T>, xs: seq<T>, x: T, n: nat)
    requires multiset(xs) == multiset(base) + multiset{}[x := n]
    ensures multiset(xs + [x]) == multiset(base) + multiset{}[x := n + 1]
  {
    assert multiset{}[x := n] + multiset{x} == multiset{}[x := n + 1];
  }

  /** The counts of a multiset add up to its size. */
  lemma {:induction false} MultiplicitiesSum<T>(b: multiset<T>)
    ensures Sum(Multiplicities(b)) == |b|
    decreases |b|
  {
    if b == multiset{} {
      assert Multiplicities(b) == map[];
    } else {
      var x :| x in b;
      var rest := b - multiset{x};
      assert b == rest + multiset{x};
      MultiplicitiesSum(rest);
      MultiplicitiesAdd(rest, x);
      SumUpdate(Multiplicities(rest), x, rest[x] + 1);
    }
  }

  /** An element of a union comes from one of the values. */
  lemma {:induction false} UnionMember<K, T>(mm: map<K, multiset<T>>, x: T)
    requires x in Union(mm)
    ensures exists k :: k in mm && x in mm[k]
    decreases |mm|
  {
    var k :| k in mm && Union(mm) == mm[k] + Union(mm - {k});
    if x !in mm[k] {
      UnionMember(mm - {k}, x);
    }
  }

  /** Handing one more key back from the pending set `todo`: its value joins the union. */
  lemma UnionStep<K, T>(mm: map<K, multiset<T>>, todo: set<K>, k: K)
    requires k in todo && todo <= mm.Keys
    ensures Union(mm - (todo - {k})) == Union(mm - todo) + mm[k]
  {
    RemoveStep(mm, todo, k);
    var big := mm - (todo - {k});
    UnionRemove(big, k);
    assert big - {k} == mm - todo;
  }

  /** When each value holds nothing but its own key, the union counts a key by its own value. */
  lemma {:induction false} UnionOfOwn<K>(mm: map<K, multiset<K>>, x: K)
    requires forall k, j :: k in mm && j != k ==> mm[k][j] == 0
    ensures Union(mm)[x] == if x in mm then mm[x][x] else 0
    decreases |mm|
  {
    if mm != map[] {
      var k :| k in mm && Union(mm) == mm[k] + Union(mm - {k});
      UnionOfOwn(mm - {k}, x);
    }
  }

  /** When each value of `mm` is as large as its partner in `nn` counts `x`, so is the union. */
  lemma {:induction false} UnionSizeAt<K, S, T>(mm: map<K, multiset<S>>, nn: map<K, multiset<T>>, x: T)
    requires mm.Keys == nn.Keys
    requires forall k :: k in mm ==> |mm[k]| == nn[k][x]
    ensures |Union(mm)| == Union(nn)[x]
    decreases |mm|
  {
    if mm == map[] {
      assert nn == map[];
    } else {
      var k :| k in mm && Union(mm) == mm[k] + Union(mm - {k});
      UnionRemove(nn, k);
      UnionSizeAt(mm - {k}, nn - {k}, x);
    }
  }

  // ---------------------------------------------------------------------------
  // Events of one history
  // ---------------------------------------------------------------------------

  /** The calendar date of each timestamp of a history. */
  function DatesOf(h: seq<real>, dateOf: real -> Date): seq<Date>
    decreases |h|
  {
    if h == [] then [] else DatesOf(h[..|h| - 1], dateOf) + [dateOf(Last(h))]
  }

  /** DatesOf maps `dateOf` over the history. */
  lemma {:induction false} DatesOfAt(h: seq<real>, dateOf: real -> Date)
    ensures |DatesOf(h, dateOf)| == |h|
    ensures forall i :: 0 <= i < |h| ==> DatesOf(h, dateOf)[i] == dateOf(h[i])
    decreases |h|
  {
    if h != [] {
      DatesOfAt(h[..|h| - 1], dateOf);
    }
  }

  /** The (path, timestamp) pairs of a history that fall on day `d`, in history order. */
  function EventsOn(p: Path, h: seq<real>, dateOf: real -> Date, d: Date): seq<(Path, real)>
    decreases |h|
  {
    if h == [] then []
    else EventsOn(p, h[..|h| - 1], dateOf, d) + (if dateOf(Last(h)) == d then [(p, Last(h))] else [])
  }

  /** Each timestamp of a history on day `d` is one of its events. */
  lemma {:induction false} EventsOnComplete(p: Path, h: seq<real>, dateOf: real -> Date, d: Date, t: real)
    requires t in h && dateOf(t) == d
    ensures (p, t) in EventsOn(p, h, dateOf, d)
    decreases |h|
  {
    var init := h[..|h| - 1];
    assert h == init + [Last(h)];
    if t != Last(h) {
      EventsOnComplete(p, init, dateOf, d, t);
    }
  }

  /** Each event of a history is one of its timestamps on day `d`. */
  lemma {:induction false} EventsOnMembers(p: Path, h: seq<real>, dateOf: real -> Date, d: Date)
    ensures forall e :: e in EventsOn(p, h, dateOf, d) ==> e.0 == p && e.1 in h && dateOf(e.1) == d
    decreases |h|
  {
    if h != [] {
      var init := h[..|h| - 1];
      EventsOnMembers(p, init, dateOf, d);
      assert forall t :: t in init ==> t in h;
    }
  }

  /** A history has as many events on day `d` as timestamps dated `d`. */
  lemma {:induction false} EventsOnCount(p: Path, h: seq<real>, dateOf: real -> Date, d: Date)
    ensures |EventsOn(p, h, dateOf, d)| == multiset(DatesOf(h, dateOf))[d]
    decreases |h|
  {
    if h != [] {
      var init := h[..|h| - 1];
      EventsOnCount(p, init, dateOf, d);
      assert DatesOf(h, dateOf) == DatesOf(init, dateOf) + [dateOf(Last(h))];
    }
  }

  /** Extending a prefix of a history by one timestamp adds its date to what was counted before. */
  lemma DatesOfStep(bag: multiset<Date>, h: seq<real>, dateOf: real -> Date, j: nat)
    requires j < |h|
    ensures bag + multiset(DatesOf(h[..j + 1], dateOf)) == bag + multiset(DatesOf(h[..j], dateOf)) + multiset{dateOf(h[j])}
  {
    assert h[..j + 1][..j] == h[..j];
  }

  /** Extending a prefix of a history by one timestamp counts one more date `d` if it falls on `d`. */
  lemma DatesOnStep(h: seq<real>, dateOf: real -> Date, d: Date, j: nat)
    requires j < |h|
    ensures multiset(DatesOf(h[..j + 1], dateOf))[d] == multiset(DatesOf(h[..j], dateOf))[d] + if dateOf(h[j]) == d then 1 else 0
  {
    assert h[..j + 1][..j] == h[..j];
  }

  // ---------------------------------------------------------------------------
  // Events of the whole store
  // ---------------------------------------------------------------------------

  function DatesPerFile(meta: map<Path, Record>, dateOf: real -> Date): map<Path, multiset<Date>> {
    map p | p in meta :: multiset(DatesOf(History(meta[p]), dateOf))
  }

  /** The dates of every history timestamp of every record: `contributions[d]` is how often `d`
      occurs in it. */
  ghost function DateBag(meta: map<Path, Record>, dateOf: real -> Date): multiset<Date> {
    Union(DatesPerFile(meta, dateOf))
  }

  /** One more record counted: the counts of the visited records grow by that record's dates. */
  lemma TallyStep(meta: map<Path, Record>, dateOf: real -> Date, todo: set<Path>, p: Path, tally: map<Date, nat>)
    requires p in todo && todo <= meta.Keys
    requires tally == Multiplicities(Union(DatesPerFile(meta, dateOf) - todo) + multiset(DatesOf(History(meta[p]), dateOf)))
    ensures tally == Multiplicities(Union(DatesPerFile(meta, dateOf) - (todo - {p})))
  {
    UnionStep(DatesPerFile(meta, dateOf), todo, p);
  }

  function EventsPerFile(meta: map<Path, Record>, dateOf: real -> Date, d: Date): map<Path, multiset<(Path, real)>> {
    map p | p in meta :: multiset(EventsOn(p, History(meta[p]), dateOf, d))
  }

  /** Every (path, timestamp) modification event on day `d`: what the click listing shows. */
  ghost function DayEvents(meta: map<Path, Record>, dateOf: real -> Date, d: Date): multiset<(Path, real)> {
    Union(EventsPerFile(meta, dateOf, d))
  }

  /** Each path as often as its history has timestamps on day `d`. */
  function FilesPerFile(meta: map<Path, Record>, dateOf: real -> Date, d: Date): map<Path, multiset<Path>> {
    map p | p in meta :: multiset{}[p := multiset(DatesOf(History(meta[p]), dateOf))[d]]
  }

  /** The files of the tooltip for day `d`: a path once per modification event of that day. */
  ghost function DayFiles(meta: map<Path, Record>, dateOf: real -> Date, d: Date): multiset<Path> {
    Union(FilesPerFile(meta, dateOf, d))
  }

  /** A path is listed in the tooltip once per timestamp of its history that falls on day `d`. */
  lemma DayFilesAt(meta: map<Path, Record>, dateOf: real -> Date, d: Date, p: Path)
    ensures DayFiles(meta, dateOf, d)[p] == if p in meta then multiset(DatesOf(History(meta[p]), dateOf))[d] else 0
  {
    UnionOfOwn(FilesPerFile(meta, dateOf, d), p);
  }

  /** The tooltip names as many files as the day has events. */
  lemma DayFilesSize(meta: map<Path, Record>, dateOf: real -> Date, d: Date)
    ensures |DayFiles(meta, dateOf, d)| == DateBag(meta, dateOf)[d]
  {
    UnionSizeAt(FilesPerFile(meta, dateOf, d), DatesPerFile(meta, dateOf), d);
  }

  function HistoryLengths(meta: map<Path, Record>): map<Path, nat> {
    map p | p in meta :: |History(meta[p])|
  }

  /** The total number of history entries in the store. */
  ghost function TotalHistory(meta: map<Path, Record>): nat {
    Sum(HistoryLengths(meta))
  }

  /** The dates of one record can be split off the rest. */
  lemma DateBagRemove(meta: map<Path, Record>, dateOf: real -> Date, p: Path)
    requires p in meta
    ensures DateBag(meta, dateOf) == multiset(DatesOf(History(meta[p]), dateOf)) + DateBag(meta - {p}, dateOf)
  {
    var whole, rest := DatesPerFile(meta, dateOf), DatesPerFile(meta - {p}, dateOf);
    assert (whole - {p}).Keys == rest.Keys;
    forall q | q in rest ensures (whole - {p})[q] == rest[q] {}
    assert whole - {p} == rest;
    UnionRemove(whole, p);
    assert whole[p] == multiset(DatesOf(History(meta[p]), dateOf));
  }

  /** The events of one record can be split off the rest. */
  lemma DayEventsRemove(meta: map<Path, Record>, dateOf: real -> Date, d: Date, p: Path)
    requires p in meta
    ensures DayEvents(meta, dateOf, d) == multiset(EventsOn(p, History(meta[p]), dateOf, d)) + DayEvents(meta - {p}, dateOf, d)
  {
    var whole, rest := EventsPerFile(meta, dateOf, d), EventsPerFile(meta - {p}, dateOf, d);
    assert (whole - {p}).Keys == rest.Keys;
    forall q | q in rest ensures (whole - {p})[q] == rest[q] {}
    assert whole - {p} == rest;
    UnionRemove(whole, p);
    assert whole[p] == multiset(EventsOn(p, History(meta[p]), dateOf, d));
  }

  /** The click listing of a day has exactly as many entries as the day's count. */
  lemma {:induction false} DayEventsCount(meta: map<Path, Record>, dateOf: real -> Date, d: Date)
    ensures |DayEvents(meta, dateOf, d)| == DateBag(meta, dateOf)[d]
    decreases |meta|
  {
    if meta == map[] {
      assert EventsPerFile(meta, dateOf, d) == map[];
      assert DatesPerFile(meta, dateOf) == map[];
    } else {
      var p :| p in meta;
      var h := History(meta[p]);
      DayEventsCount(meta - {p}, dateOf, d);
      EventsOnCount(p, h, dateOf, d);
      DayEventsRemove(meta, dateOf, d, p);
      DateBagRemove(meta, dateOf, p);
      assert |DayEvents(meta, dateOf, d)| == |EventsOn(p, h, dateOf, d)| + |DayEvents(meta - {p}, dateOf, d)|;
    }
  }

  /** Every listed event is a history timestamp of a record, on day `d`. */
  lemma DayEventsOnDay(meta: map<Path, Record>, dateOf: real -> Date, d: Date, e: (Path, real))
    requires e in DayEvents(meta, dateOf, d)
    ensures e.0 in meta && e.1 in History(meta[e.0]) && dateOf(e.1) == d
  {
    UnionMember(EventsPerFile(meta, dateOf, d), e);
    var p :| p in meta && e in multiset(EventsOn(p, History(meta[p]), dateOf, d));
    EventsOnMembers(p, History(meta[p]), dateOf, d);
  }

  /** Conversely, every history timestamp of a record on day `d` is listed. */
  lemma DayEventsOfDay(meta: map<Path, Record>, dateOf: real -> Date, d: Date, p: Path, t: real)
    requires p in meta && t in History(meta[p]) && dateOf(t) == d
    ensures (p, t) in DayEvents(meta, dateOf, d)
  {
    DayEventsRemove(meta, dateOf, d, p);
    EventsOnComplete(p, History(meta[p]), dateOf, d, t);
  }

  /** The history of one record can be split off the rest. */
  lemma TotalHistoryRemove(meta: map<Path, Record>, p: Path)
    requires p in meta
    ensures TotalHistory(meta) == |History(meta[p])| + TotalHistory(meta - {p})
  {
    var whole, rest := HistoryLengths(meta), HistoryLengths(meta - {p});
    assert (whole - {p}).Keys == rest.Keys;
    forall q | q in rest ensures (whole - {p})[q] == rest[q] {}
    assert whole - {p} == rest;
    SumRemove(whole, p);
  }

  /** An empty store has no events. */
  lemma DateBagEmpty(dateOf: real -> Date)
    ensures DateBag(map[], dateOf) == multiset{}
  {
    assert DatesPerFile(map[], dateOf) == map[];
  }

  /** The counts of all days together are the number of history entries in the store. */
  lemma {:induction false} DateBagSize(meta: map<Path, Record>, dateOf: real -> Date)
    ensures |DateBag(meta, dateOf)| == TotalHistory(meta)
    decreases |meta|
  {
    if meta == map[] {
      DateBagEmpty(dateOf);
      assert HistoryLengths(meta) == map[];
    } else {
      var p :| p in meta;
      DateBagRemove(meta, dateOf, p);
      TotalHistoryRemove(meta, p);
      DateBagSize(meta - {p}, dateOf);
      DatesOfAt(History(meta[p]), dateOf);
    }
  }

  /** Summing `contributions` over all dates gives the total history length. */
  lemma ContributionsTotal(meta: map<Path, Record>, dateOf: real -> Date)
    ensures Sum(Multiplicities(DateBag(meta, dateOf))) == TotalHistory(meta)
  {
    MultiplicitiesSum(DateBag(meta, dateOf));
    DateBagSize(meta, dateOf);
  }

  /** A store of two records A: [t1, t2] and B: [t1] has the dates of all three timestamps. */
  lemma TwoRecordsBag(meta: map<Path, Record>, a: Path, b: Path, t1: real, t2: real, dateOf: real -> Date)
    requires meta.Keys == {a, b} && a != b
    requires History(meta[a]) == [t1, t2] && History(meta[b]) == [t1]
    ensures DateBag(meta, dateOf) == multiset(DatesOf([t1, t2], dateOf)) + multiset(DatesOf([t1], dateOf))
  {
    var rest := meta - {a};
    assert rest.Keys == {b};
    assert (rest - {b}).Keys == {};
    assert rest - {b} == map[];
    DateBagEmpty(dateOf);
    DateBagRemove(rest, dateOf, b);
    DateBagRemove(meta, dateOf, a);
  }

  /** With t1 and t2 on different days, that store counts 2 on date(t1) and 1 on date(t2). */
  lemma TwoRecordsExample(meta: map<Path, Record>, a: Path, b: Path, t1: real, t2: real, dateOf: real -> Date)
    requires meta.Keys == {a, b} && a != b
    requires History(meta[a]) == [t1, t2] && History(meta[b]) == [t1]
    requires dateOf(t1) != dateOf(t2)
    ensures DateBag(meta, dateOf)[dateOf(t1)] == 2 && DateBag(meta, dateOf)[dateOf(t2)] == 1
  {
    var d1, d2 := dateOf(t1), dateOf(t2);
    assert DatesOf([t1], dateOf) == [d1] by {
      assert [t1][..0] == [];
    }
    assert DatesOf([t1, t2], dateOf) == [d1, d2] by {
      assert [t1, t2][..1] == [t1];
    }
    TwoRecordsBag(meta, a, b, t1, t2, dateOf);
    assert DateBag(meta, dateOf) == multiset{d1, d2} + multiset{d1};
  }
}
