/** The replayer's scan of the `done` directory (reprocesador/reprocessor.go): every data file is put in one
    class, and the limit keeps the oldest candidates. */
module ReplayScan {
  import opened Options
  import opened SpoolContract

  datatype MetaStat = Missing | Unreadable | Modified(time: int)

  /** A directory entry, with what the file system would answer about it and its metadata. `pair` is what
      loading the metadata concludes; `Incomplete` means it vanished in between. */
  datatype Entry = Entry(name: string, isDir: bool, modTime: Option<int>, metaStat: MetaStat, pair: Load)

  datatype Class = Ignored | TooRecent | IncompletePair | InvalidPair | Candidate

  datatype Item = Item(name: string, modTime: int, meta: MetaData)

  const SUFFIX := ".rowbinary.done"

  predicate IsDataFile(e: Entry) {
    !e.isDir && |e.name| >= |SUFFIX| && e.name[|e.name| - |SUFFIX|..] == SUFFIX
  }

  function Classify(e: Entry, now: int, minAge: int): Class {
    if !IsDataFile(e) then Ignored
    else if e.modTime.None? then InvalidPair
    else if now - e.modTime.value < minAge then TooRecent
    else if e.metaStat.Missing? then IncompletePair
    else if e.metaStat.Unreadable? then InvalidPair
    else if now - e.metaStat.time < minAge then TooRecent
    else match e.pair
      case Accepted(_) => Candidate
      case Incomplete => IncompletePair
      case _ => InvalidPair
  }

  /** The file and, if it is there, its metadata are known to be older than `minAge`. */
  predicate Settled(e: Entry, now: int, minAge: int) {
    && e.modTime.Some? && e.modTime.value <= now - minAge
    && (e.metaStat.Modified? ==> e.metaStat.time <= now - minAge)
  }

  predicate Young(e: Entry, now: int, minAge: int) {
    && e.modTime.Some?
    && (e.modTime.value > now - minAge || (e.metaStat.Modified? && e.metaStat.time > now - minAge))
  }

  /** What each class means for a data file: a candidate is a settled pair that loads, a pair without metadata is
      incomplete however it is found missing, a young one is left alone, and only a settled pair that does not
      load, or one that cannot be examined, is quarantined. */
  lemma ClassesMean(e: Entry, now: int, minAge: int)
    requires IsDataFile(e)
    ensures var c := Classify(e, now, minAge);
      && (c.TooRecent? <==> Young(e, now, minAge))
      && (c.Candidate? <==> Settled(e, now, minAge) && e.metaStat.Modified? && e.pair.Accepted?)
      && (c.IncompletePair? <==>
            Settled(e, now, minAge) && (e.metaStat.Missing? || (e.metaStat.Modified? && e.pair.Incomplete?)))
      && (c.InvalidPair? <==>
            e.modTime.None? || (Settled(e, now, minAge)
              && (e.metaStat.Unreadable? || (e.metaStat.Modified? && (e.pair.Invalid? || e.pair.NoData?)))))
      && !c.Ignored?
  {
  }

  /** The entry the replayer finds for a spooled name. */
  function EntryOf(spool: FailedSpool, name: string, dataTime: int, metaTime: int): Entry
    reads spool
  {
    Entry(name + SUFFIX, false, Some(dataTime), if name in spool.metas then Modified(metaTime) else Missing, spool.Seen(name))
  }

  /** What the collector spooled is replayed, left alone or quarantined, by how far its spooling came: once both files are
      old enough, a complete pair of a valid table is a candidate, one without metadata waits, and only one whose
      metadata was cut short, or whose data changed its length, is quarantined. */
  lemma SpooledPairsAreClassified(spool: FailedSpool, name: string, dataTime: int, metaTime: int, now: int, minAge: int)
    requires name in spool.done && dataTime <= now - minAge && metaTime <= now - minAge
    ensures var c := Classify(EntryOf(spool, name, dataTime, metaTime), now, minAge);
      && (c.Candidate? <==> spool.Seen(name).Accepted?)
      && (c.IncompletePair? <==> name !in spool.metas)
      && (c.InvalidPair? <==> name in spool.metas && !spool.Seen(name).Accepted?)
  {
    var e := EntryOf(spool, name, dataTime, metaTime);
    assert e.name[|e.name| - |SUFFIX|..] == SUFFIX;
    ClassesMean(e, now, minAge);
    AcceptedPairs(spool.MetaFileOf(name), |spool.done[name]|);
  }

  function ItemOf(e: Entry): Item
    requires e.modTime.Some? && e.pair.Accepted?
  {
    Item(e.name, e.modTime.value, e.pair.meta)
  }

  function CountOf(entries: seq<Entry>, now: int, minAge: int, wanted: Class): nat {
    if entries == [] then 0
    else CountOf(entries[..|entries| - 1], now, minAge, wanted)
         + if Classify(entries[|entries| - 1], now, minAge) == wanted then 1 else 0
  }

  function Candidates(entries: seq<Entry>, now: int, minAge: int): seq<Item> {
    if entries == [] then []
    else
      var e := entries[|entries| - 1];
      Candidates(entries[..|entries| - 1], now, minAge)
      + if Classify(e, now, minAge).Candidate? then [ItemOf(e)] else []
  }

  function InvalidNames(entries: seq<Entry>, now: int, minAge: int): seq<string> {
    if entries == [] then []
    else
      var e := entries[|entries| - 1];
      InvalidNames(entries[..|entries| - 1], now, minAge)
      + if Classify(e, now, minAge).InvalidPair? then [e.name] else []
  }

  function DataFiles(entries: seq<Entry>): nat {
    if entries == [] then 0 else DataFiles(entries[..|entries| - 1]) + if IsDataFile(entries[|entries| - 1]) then 1 else 0
  }

  predicate Sorted(items: seq<Item>) {
    forall i, j :: 0 <= i < j < |items| ==> items[i].modTime <= items[j].modTime
  }

  lemma InsertKeepsItems(s: seq<Item>, k: nat, x: Item)
    requires k <= |s|
    ensures multiset(s[..k] + [x] + s[k..]) == multiset(s) + multiset{x}
  {
    assert s == s[..k] + s[k..];
  }

  lemma InsertKeepsOrder(s: seq<Item>, k: nat, x: Item)
    requires k <= |s| && Sorted(s)
    requires k > 0 ==> s[k - 1].modTime <= x.modTime
    requires k < |s| ==> x.modTime <= s[k].modTime
    ensures Sorted(s[..k] + [x] + s[k..])
  {
    var r := s[..k] + [x] + s[k..];
    forall i, j | 0 <= i < j < |r| ensures r[i].modTime <= r[j].modTime {
      if i < k {
        assert s[i].modTime <= s[k - 1].modTime;
      }
      if j > k {
        assert s[k].modTime <= s[j - 1].modTime;
      }
    }
  }

  method SortByTime(items: seq<Item>) returns (r: seq<Item>)
    ensures Sorted(r) && multiset(r) == multiset(items)
  {
    r := [];
    for i := 0 to |items|
      invariant Sorted(r) && multiset(r) == multiset(items[..i])
    {
      var k := |r|;
      while k > 0 && r[k - 1].modTime > items[i].modTime
        invariant 0 <= k <= |r|
        invariant k < |r| ==> r[k].modTime > items[i].modTime
      {
        k := k - 1;
      }
      InsertKeepsItems(r, k, items[i]);
      InsertKeepsOrder(r, k, items[i]);
      assert items[..i + 1] == items[..i] + [items[i]];
      r := r[..k] + [items[i]] + r[k..];
    }
    assert items[..|items|] == items;
  }

  /** Keeping the first items of a sorted list keeps the oldest. */
  lemma FirstAreOldest(sorted: seq<Item>, limit: nat)
    requires Sorted(sorted) && limit <= |sorted|
    ensures Sorted(sorted[..limit])
    ensures forall c, d :: c in sorted[..limit] && d in sorted[limit..] ==> c.modTime <= d.modTime
    ensures multiset(sorted[..limit]) + multiset(sorted[limit..]) == multiset(sorted)
  {
    assert sorted == sorted[..limit] + sorted[limit..];
  }

  /** Every data file is in exactly one of the four classes. */
  lemma {:induction false} ClassesPartition(entries: seq<Entry>, now: int, minAge: int)
    ensures |Candidates(entries, now, minAge)| + |InvalidNames(entries, now, minAge)|
          + CountOf(entries, now, minAge, IncompletePair) + CountOf(entries, now, minAge, TooRecent) == DataFiles(entries)
  {
    if entries != [] {
      ClassesPartition(entries[..|entries| - 1], now, minAge);
    }
  }

  /** The pass over the directory. */
  method Collect(entries: seq<Entry>, now: int, minAge: int)
    returns (candidates: seq<Item>, invalid: seq<string>, incompletePairs: nat, tooRecent: nat)
    ensures candidates == Candidates(entries, now, minAge) && invalid == InvalidNames(entries, now, minAge)
    ensures incompletePairs == CountOf(entries, now, minAge, IncompletePair)
    ensures tooRecent == CountOf(entries, now, minAge, TooRecent)
  {
    candidates, invalid, incompletePairs, tooRecent := [], [], 0, 0;
    for i := 0 to |entries|
      invariant candidates == Candidates(entries[..i], now, minAge)
      invariant invalid == InvalidNames(entries[..i], now, minAge)
      invariant incompletePairs == CountOf(entries[..i], now, minAge, IncompletePair)
      invariant tooRecent == CountOf(entries[..i], now, minAge, TooRecent)
    {
      assert entries[..i + 1][..i] == entries[..i];
      var entry := entries[i];
      if !IsDataFile(entry) {
        continue;
      }
      if entry.modTime.None? {
        invalid := invalid + [entry.name];
        continue;
      }
      if now - entry.modTime.value < minAge {
        tooRecent := tooRecent + 1;
        continue;
      }
      if entry.metaStat.Missing? {
        incompletePairs := incompletePairs + 1;
        continue;
      }
      if entry.metaStat.Unreadable? {
        invalid := invalid + [entry.name];
        continue;
      }
      if now - entry.metaStat.time < minAge {
        tooRecent := tooRecent + 1;
        continue;
      }
      match entry.pair
      case Accepted(_) => candidates := candidates + [ItemOf(entry)];
      case Incomplete => incompletePairs := incompletePairs + 1;
      case _ => invalid := invalid + [entry.name];
    }
    assert entries[..|entries|] == entries;
  }

  /** Every data file is counted in exactly one of the four classes; of the candidates, sorted from the oldest,
      at most `limit` are kept when it is positive, and none of those left out is older than one kept. */
  method Scan(entries: seq<Entry>, now: int, minAge: int, limit: int)
    returns (candidates: seq<Item>, invalid: seq<string>, incompletePairs: nat, tooRecent: nat, ghost leftOut: seq<Item>)
    ensures multiset(candidates) + multiset(leftOut) == multiset(Candidates(entries, now, minAge))
    ensures Sorted(candidates) && (forall c, d :: c in candidates && d in leftOut ==> c.modTime <= d.modTime)
    ensures limit <= 0 ==> leftOut == []
    ensures limit > 0 ==> |candidates| <= limit && (leftOut != [] ==> |candidates| == limit)
    ensures invalid == InvalidNames(entries, now, minAge)
    ensures incompletePairs == CountOf(entries, now, minAge, IncompletePair)
    ensures tooRecent == CountOf(entries, now, minAge, TooRecent)
    ensures |candidates| + |leftOut| + |invalid| + incompletePairs + tooRecent == DataFiles(entries)
  {
    var found;
    found, invalid, incompletePairs, tooRecent := Collect(entries, now, minAge);
    ClassesPartition(entries, now, minAge);
    leftOut := [];
    candidates := SortByTime(found);
    assert |candidates| == |multiset(candidates)| == |multiset(found)|;
    if limit > 0 && |candidates| > limit {
      FirstAreOldest(candidates, limit);
      candidates, leftOut := candidates[..limit], candidates[limit..];
    }
  }
}
