/** The replayer's counters by second, which every cycle adds to and prunes (reprocesador/reprocess_alerts.go). */
module ReplayCounters {
  import opened Sums

  datatype Counters = Counters(attempted: nat, failed: nat, quarantined: nat)

  const NoCounts: Counters := Counters(0, 0, 0)

  function Plus(a: Counters, b: Counters): Counters {
    Counters(a.attempted + b.attempted, a.failed + b.failed, a.quarantined + b.quarantined)
  }

  type BySecond = map<int, Counters>

  datatype Cycle = Cycle(second: int, counts: Counters)

  function Added(m: BySecond, c: Cycle): BySecond {
    m[c.second := Plus(if c.second in m then m[c.second] else NoCounts, c.counts)]
  }

  function Pruned(m: BySecond, limit: int): BySecond {
    map k | k in m && k >= limit :: m[k]
  }

  /** A cycle adds to its second and forgets the seconds well before the window. */
  function Recorded(m: BySecond, c: Cycle, window: nat): BySecond {
    Pruned(Added(m, c), c.second - window - 120)
  }

  // ---- Windows ----

  datatype Field = Attempted | Failed | Quarantined

  function CountOf(c: Counters, field: Field): nat {
    match field
    case Attempted => c.attempted
    case Failed => c.failed
    case Quarantined => c.quarantined
  }

  ghost function Counting(field: Field): Counters -> nat {
    (c: Counters) => CountOf(c, field)
  }

  function Restrict(m: BySecond, start: int, end: int): BySecond {
    map k | k in m && start <= k <= end :: m[k]
  }

  ghost function Sum(m: BySecond, start: int, end: int, field: Field): nat {
    TotalMap(Restrict(m, start, end), Counting(field))
  }

  /** What the counters hold for the seconds of a window. */
  ghost function Window(m: BySecond, start: int, end: int): Counters {
    Counters(Sum(m, start, end, Attempted), Sum(m, start, end, Failed), Sum(m, start, end, Quarantined))
  }

  // ---- Pruning is never seen ----

  /** Everything recorded for the seconds of a window. */
  function History(h: seq<Cycle>, start: int, end: int): Counters {
    if h == [] then NoCounts
    else
      var c, before := h[|h| - 1], History(h[..|h| - 1], start, end);
      if start <= c.second <= end then Plus(before, c.counts) else before
  }

  /** The counters after a history of cycles. */
  function After(h: seq<Cycle>, window: nat): BySecond {
    if h == [] then map[] else Recorded(After(h[..|h| - 1], window), h[|h| - 1], window)
  }

  lemma SumGrows(m: BySecond, second: int, counts: Counters, start: int, end: int, field: Field)
    ensures Sum(m[second := counts], start, end, field)
         == Sum(m, start, end, field)
            + (if start <= second <= end then CountOf(counts, field) else 0)
            - (if start <= second <= end && second in m then CountOf(m[second], field) else 0)
  {
    var before, after := Restrict(m, start, end), Restrict(m[second := counts], start, end);
    if start <= second <= end {
      assert after == before[second := counts];
      TotalMapUpdate(before, second, counts, Counting(field));
    } else {
      assert after == before;
    }
  }

  lemma WindowGrows(m: BySecond, second: int, counts: Counters, start: int, end: int)
    requires second !in m
    ensures Window(m[second := counts], start, end)
         == if start <= second <= end then Plus(Window(m, start, end), counts) else Window(m, start, end)
  {
    SumGrows(m, second, counts, start, end, Attempted);
    SumGrows(m, second, counts, start, end, Failed);
    SumGrows(m, second, counts, start, end, Quarantined);
  }

  lemma EmptyIsZero(start: int, end: int)
    ensures Window(map[], start, end) == NoCounts
  {
    assert Restrict(map[], start, end) == map[];
  }

  lemma AddingCounts(m: BySecond, c: Cycle, start: int, end: int, field: Field)
    ensures Sum(Added(m, c), start, end, field)
         == Sum(m, start, end, field) + if start <= c.second <= end then CountOf(c.counts, field) else 0
  {
    SumGrows(m, c.second, Added(m, c)[c.second], start, end, field);
  }

  lemma PruningKeeps(m: BySecond, limit: int, start: int, end: int, field: Field)
    requires limit <= start
    ensures Sum(Pruned(m, limit), start, end, field) == Sum(m, start, end, field)
  {
    assert Restrict(Pruned(m, limit), start, end) == Restrict(m, start, end);
  }

  lemma {:induction false} SumIsHistory(h: seq<Cycle>, window: nat, start: int, end: int, field: Field)
    requires forall i :: 0 <= i < |h| ==> start >= h[i].second - window - 120
    ensures Sum(After(h, window), start, end, field) == CountOf(History(h, start, end), field)
  {
    if h == [] {
      assert Restrict(map[], start, end) == map[];
    } else {
      var init, c := h[..|h| - 1], h[|h| - 1];
      SumIsHistory(init, window, start, end, field);
      AddingCounts(After(init, window), c, start, end, field);
      PruningKeeps(Added(After(init, window), c), c.second - window - 120, start, end, field);
    }
  }

  /** The window of an evaluation whose clock is at most 121 seconds behind every cycle sums to the full history, as
      if nothing had been pruned. */
  lemma WindowIsHistory(h: seq<Cycle>, window: nat, now: int)
    requires forall i :: 0 <= i < |h| ==> now >= h[i].second - 121
    ensures Window(After(h, window), now - window + 1, now) == History(h, now - window + 1, now)
  {
    SumIsHistory(h, window, now - window + 1, now, Attempted);
    SumIsHistory(h, window, now - window + 1, now, Failed);
    SumIsHistory(h, window, now - window + 1, now, Quarantined);
  }

  lemma LatePrunes(m: BySecond, c: Cycle, window: nat, start: int, end: int)
    requires c.second > end && c.second - window - 120 > start
    requires forall k :: k in m ==> k <= start
    ensures Sum(Recorded(m, c, window), start, end, Attempted) == 0
  {
    assert Restrict(Recorded(m, c, window), start, end) == map[];
  }

  lemma HistorySnoc(h: seq<Cycle>, c: Cycle, start: int, end: int)
    ensures History(h + [c], start, end)
         == if start <= c.second <= end then Plus(History(h, start, end), c.counts) else History(h, start, end)
  {
    assert (h + [c])[..|h|] == h;
  }

  lemma AfterSnoc(h: seq<Cycle>, c: Cycle, window: nat)
    ensures After(h + [c], window) == Recorded(After(h, window), c, window)
  {
    assert (h + [c])[..|h|] == h;
  }

  /** It is 121 seconds exactly: one second more, and a cycle has pruned a second the window still needs. */
  lemma ClockFurtherBehind(window: nat, now: int, counts: Counters)
    requires window > 0 && counts.attempted > 0
    ensures var first := now - window + 1; var h := [Cycle(first, counts)] + [Cycle(now + 122, NoCounts)];
      Window(After(h, window), first, now).attempted == 0 < History(h, first, now).attempted
  {
    var first := now - window + 1;
    var early, late := Cycle(first, counts), Cycle(now + 122, NoCounts);
    AfterSnoc([], early, window);
    AfterSnoc([early], late, window);
    HistorySnoc([], early, first, now);
    HistorySnoc([early], late, first, now);
    assert [] + [early] == [early];
    LatePrunes(After([early], window), late, window, first, now);
  }
}
