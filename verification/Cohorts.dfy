/** Per-second counts of packets and rows, and what a fixed-size ring of buckets keeps of them
    (alert_cohorts.go). */
module Cohorts {

  datatype Kind = Received | Parsed | ParseFailed | Expected | Inserted | Spooled | SpoolFailed | KernelDrops

  /** One addition to a counter: `amount` more of `kind` for `second`, made in `shard`. */
  datatype Event = Event(shard: nat, second: int, kind: Kind, amount: nat)

  // ---- The unbounded history ----

  /** Everything recorded for one shard and second. */
  function History(h: seq<Event>, shard: nat, second: int, kind: Kind): nat {
    if h == [] then 0
    else
      var e, before := h[|h| - 1], History(h[..|h| - 1], shard, second, kind);
      if e.shard == shard && e.second == second && e.kind == kind then before + e.amount else before
  }

  /** Everything recorded in any shard for the seconds of a window. */
  function Window(h: seq<Event>, start: int, end: int, kind: Kind): nat {
    if h == [] then 0
    else
      var e, before := h[|h| - 1], Window(h[..|h| - 1], start, end, kind);
      if start <= e.second <= end && e.kind == kind then before + e.amount else before
  }

  // ---- What a ring of `size` buckets keeps ----

  predicate SameSlot(a: int, b: int, size: nat)
    requires size > 0
  {
    a % size == b % size
  }

  /** What is recorded for one shard and second since another second last claimed its slot. */
  function Live(h: seq<Event>, size: nat, shard: nat, second: int, kind: Kind): nat
    requires size > 0
  {
    if h == [] then 0
    else
      var e, before := h[|h| - 1], Live(h[..|h| - 1], size, shard, second, kind);
      if e.shard != shard || !SameSlot(e.second, second, size) then before
      else if e.second != second then 0
      else if e.kind == kind then before + e.amount
      else before
  }

  function LiveShards(h: seq<Event>, size: nat, shards: nat, second: int, kind: Kind): nat
    requires size > 0
  {
    if shards == 0 then 0
    else LiveShards(h, size, shards - 1, second, kind) + Live(h, size, shards - 1, second, kind)
  }

  /** What a snapshot of the ring adds up for a window. */
  function LiveWindow(h: seq<Event>, size: nat, shards: nat, start: int, end: int, kind: Kind): nat
    requires size > 0
    decreases end - start
  {
    if end < start then 0
    else LiveWindow(h, size, shards, start, end - 1, kind) + LiveShards(h, size, shards, end, kind)
  }

  // ---- Exactly what the ring loses ----

  /** The index just after the last event that claimed the slot of `second` for another second. */
  function AfterLastClaim(h: seq<Event>, size: nat, shard: nat, second: int): (k: nat)
    requires size > 0
    ensures k <= |h|
  {
    if h == [] then 0
    else
      var e := h[|h| - 1];
      if e.shard == shard && e.second != second && SameSlot(e.second, second, size) then |h|
      else AfterLastClaim(h[..|h| - 1], size, shard, second)
  }

  lemma {:induction false} HistoryConcat(a: seq<Event>, b: seq<Event>, shard: nat, second: int, kind: Kind)
    ensures History(a + b, shard, second, kind) == History(a, shard, second, kind) + History(b, shard, second, kind)
    decreases |b|
  {
    if b == [] {
      assert a + b == a;
    } else {
      assert (a + b)[..|a + b| - 1] == a + b[..|b| - 1];
      HistoryConcat(a, b[..|b| - 1], shard, second, kind);
    }
  }

  lemma {:induction false} LiveIsRecent(h: seq<Event>, size: nat, shard: nat, second: int, kind: Kind)
    requires size > 0
    ensures var k := AfterLastClaim(h, size, shard, second);
      Live(h, size, shard, second, kind) == History(h[k..], shard, second, kind)
  {
    if h != [] {
      var init, e := h[..|h| - 1], h[|h| - 1];
      LiveIsRecent(init, size, shard, second, kind);
      var k := AfterLastClaim(init, size, shard, second);
      if !(e.shard == shard && e.second != second && SameSlot(e.second, second, size)) {
        assert h[k..][..|h[k..]| - 1] == init[k..];
      } else {
        assert h[|h|..] == [];
      }
    }
  }

  /** The ring is exact for a shard and second if and only if nothing was recorded for it before another
      second last claimed its slot. */
  lemma RingIsExactWhen(h: seq<Event>, size: nat, shard: nat, second: int, kind: Kind)
    requires size > 0
    ensures Live(h, size, shard, second, kind) == History(h, shard, second, kind)
      <==> History(h[..AfterLastClaim(h, size, shard, second)], shard, second, kind) == 0
  {
    var k := AfterLastClaim(h, size, shard, second);
    LiveIsRecent(h, size, shard, second, kind);
    assert h == h[..k] + h[k..];
    HistoryConcat(h[..k], h[k..], shard, second, kind);
  }

  // ---- Recording close to a monotone clock ----

  /** `clocks[i]` is the clock when event `i` is recorded: it never goes back, and no event is recorded
      for a later second than the clock's or for one older than the ring. */
  predicate WellTimed(h: seq<Event>, clocks: seq<int>, size: nat) {
    && |clocks| == |h|
    && (forall i, j :: 0 <= i < j < |h| ==> clocks[i] <= clocks[j])
    && (forall i :: 0 <= i < |h| ==> clocks[i] - size < h[i].second <= clocks[i])
  }

  lemma SlotsAreApart(a: int, b: int, size: nat)
    requires size > 0 && SameSlot(a, b, size) && a != b
    ensures a <= b - size || a >= b + size
  {
    var p, q := a / size, b / size;
    assert a == size * p + a % size && b == size * q + b % size;
    if p < q {
      Grows(size, p + 1, q);
    } else if q < p {
      Grows(size, q + 1, p);
    }
  }

  lemma Grows(size: nat, p: int, q: int)
    requires p <= q
    ensures size * (p - 1) + size == size * p <= size * q
  {
  }

  lemma {:induction false} LiveWhileTimed(
      h: seq<Event>, clocks: seq<int>, size: nat, shard: nat, second: int, now: int, kind: Kind)
    requires size > 0 && WellTimed(h, clocks, size) && now - size < second
    requires forall i :: 0 <= i < |h| ==> clocks[i] <= now
    ensures Live(h, size, shard, second, kind) == History(h, shard, second, kind)
  {
    if h != [] {
      var n := |h| - 1;
      LiveWhileTimed(h[..n], clocks[..n], size, shard, second, now, kind);
      var e := h[n];
      if e.shard == shard && e.second != second && SameSlot(e.second, second, size) {
        // The claim is for an older second, so nothing can have been recorded for `second` before it.
        SlotsAreApart(e.second, second, size);
        NothingBefore(h[..n], clocks[..n], shard, second, clocks[n], kind);
      }
    }
  }

  lemma {:induction false} NothingBefore(h: seq<Event>, clocks: seq<int>, shard: nat, second: int, until: int, kind: Kind)
    requires |clocks| == |h| && until < second
    requires forall i :: 0 <= i < |h| ==> h[i].second <= clocks[i] <= until
    ensures History(h, shard, second, kind) == 0
  {
    if h != [] {
      NothingBefore(h[..|h| - 1], clocks[..|h| - 1], shard, second, until, kind);
    }
  }

  // ---- Snapshots ----

  lemma {:induction false} WindowSplits(h: seq<Event>, start: int, end: int, kind: Kind)
    requires start <= end
    ensures Window(h, start, end, kind) == Window(h, start, end - 1, kind) + Window(h, end, end, kind)
  {
    if h != [] {
      var init := h[..|h| - 1];
      WindowSplits(init, start, end, kind);
    }
  }

  lemma {:induction false} EmptyWindow(h: seq<Event>, start: int, end: int, kind: Kind)
    requires end < start
    ensures Window(h, start, end, kind) == 0
  {
    if h != [] {
      EmptyWindow(h[..|h| - 1], start, end, kind);
    }
  }

  function HistoryShards(h: seq<Event>, shards: nat, second: int, kind: Kind): nat {
    if shards == 0 then 0 else HistoryShards(h, shards - 1, second, kind) + History(h, shards - 1, second, kind)
  }

  lemma {:induction false} HistoryShardsStep(h: seq<Event>, e: Event, shards: nat, second: int, kind: Kind)
    ensures HistoryShards(h + [e], shards, second, kind) ==
      HistoryShards(h, shards, second, kind)
      + if e.second == second && e.shard < shards && e.kind == kind then e.amount else 0
  {
    assert (h + [e])[..|h|] == h;
    if shards > 0 {
      HistoryShardsStep(h, e, shards - 1, second, kind);
    }
  }

  lemma {:induction false} ShardsAddUp(h: seq<Event>, shards: nat, second: int, kind: Kind)
    requires forall i :: 0 <= i < |h| ==> h[i].shard < shards
    ensures HistoryShards(h, shards, second, kind) == Window(h, second, second, kind)
  {
    if h == [] {
      NoEventsNoHistory(shards, second, kind);
    } else {
      var init, e := h[..|h| - 1], h[|h| - 1];
      assert h == init + [e];
      ShardsAddUp(init, shards, second, kind);
      HistoryShardsStep(init, e, shards, second, kind);
    }
  }

  lemma {:induction false} NoEventsNoHistory(shards: nat, second: int, kind: Kind)
    ensures HistoryShards([], shards, second, kind) == 0
  {
    if shards > 0 {
      NoEventsNoHistory(shards - 1, second, kind);
    }
  }

  lemma {:induction false} LiveShardsWhileTimed(
      h: seq<Event>, clocks: seq<int>, size: nat, shards: nat, second: int, now: int, kind: Kind)
    requires size > 0 && WellTimed(h, clocks, size) && now - size < second
    requires forall i :: 0 <= i < |h| ==> clocks[i] <= now
    ensures LiveShards(h, size, shards, second, kind) == HistoryShards(h, shards, second, kind)
  {
    if shards > 0 {
      LiveShardsWhileTimed(h, clocks, size, shards - 1, second, now, kind);
      LiveWhileTimed(h, clocks, size, shards - 1, second, now, kind);
    }
  }

  /** While records stay within the ring of a monotone clock, a snapshot of any window that starts inside
      the ring is the true history of that window. */
  lemma {:induction false} SnapshotIsHistory(
      h: seq<Event>, clocks: seq<int>, size: nat, shards: nat, start: int, end: int, now: int, kind: Kind)
    requires size > 0 && WellTimed(h, clocks, size) && now - size < start
    requires forall i :: 0 <= i < |h| ==> clocks[i] <= now && h[i].shard < shards
    ensures LiveWindow(h, size, shards, start, end, kind) == Window(h, start, end, kind)
    decreases end - start
  {
    if end < start {
      EmptyWindow(h, start, end, kind);
    } else {
      SnapshotIsHistory(h, clocks, size, shards, start, end - 1, now, kind);
      LiveShardsWhileTimed(h, clocks, size, shards, end, now, kind);
      ShardsAddUp(h, shards, end, kind);
      WindowSplits(h, start, end, kind);
    }
  }

  lemma {:induction false} LiveAtMostHistory(h: seq<Event>, size: nat, shard: nat, second: int, kind: Kind)
    requires size > 0
    ensures Live(h, size, shard, second, kind) <= History(h, shard, second, kind)
  {
    if h != [] {
      LiveAtMostHistory(h[..|h| - 1], size, shard, second, kind);
    }
  }

  lemma {:induction false} LiveShardsAtMostHistory(h: seq<Event>, size: nat, shards: nat, second: int, kind: Kind)
    requires size > 0
    ensures LiveShards(h, size, shards, second, kind) <= HistoryShards(h, shards, second, kind)
  {
    if shards > 0 {
      LiveShardsAtMostHistory(h, size, shards - 1, second, kind);
      LiveAtMostHistory(h, size, shards - 1, second, kind);
    }
  }

  /** Whatever the times of the records and however long the window, nothing is counted twice: a snapshot
      never exceeds the true history. */
  lemma {:induction false} SnapshotNeverOvercounts(h: seq<Event>, size: nat, shards: nat, start: int, end: int, kind: Kind)
    requires size > 0 && forall i :: 0 <= i < |h| ==> h[i].shard < shards
    ensures LiveWindow(h, size, shards, start, end, kind) <= Window(h, start, end, kind)
    decreases end - start
  {
    if start <= end {
      SnapshotNeverOvercounts(h, size, shards, start, end - 1, kind);
      LiveShardsAtMostHistory(h, size, shards, end, kind);
      ShardsAddUp(h, shards, end, kind);
      WindowSplits(h, start, end, kind);
    }
  }

  // ---- The windows the evaluator reads ----

  const MINIMUM_RETENTION := 300

  function AlertCohortRetention(window: nat, sla: nat): nat {
    var retention := window + sla + 120;
    if retention < MINIMUM_RETENTION then MINIMUM_RETENTION else retention
  }

  /** Both windows start inside the ring, the one that ended a second ago and the one delayed by `sla`, even if records up
      to 119 seconds later than the evaluation are already in it. */
  lemma EvaluatorWindowsAreExact(h: seq<Event>, clocks: seq<int>, window: nat, sla: nat, shards: nat, now: int, kind: Kind)
    requires window > 0 && sla > 0 && WellTimed(h, clocks, AlertCohortRetention(window, sla))
    requires forall i :: 0 <= i < |h| ==> clocks[i] <= now + 119 && h[i].shard < shards
    ensures var size := AlertCohortRetention(window, sla);
      && LiveWindow(h, size, shards, now - window, now - 1, kind) == Window(h, now - window, now - 1, kind)
      && LiveWindow(h, size, shards, now - sla - window, now - sla - 1, kind) == Window(h, now - sla - window, now - sla - 1, kind)
  {
    var size := AlertCohortRetention(window, sla);
    SnapshotIsHistory(h, clocks, size, shards, now - window, now - 1, now + 119, kind);
    SnapshotIsHistory(h, clocks, size, shards, now - sla - window, now - sla - 1, now + 119, kind);
  }

  /** The guard of the row counters. */
  predicate IsRetained(second: int, now: int, size: nat) {
    second <= now + 1 && second > now - size
  }

  /** The guard admits one second more than the ring has buckets, and its two ends share one: after a
      record for the second ahead of the clock, a record for the oldest second erases it. */
  lemma GuardAdmitsClash(now: int, size: nat, shard: nat, kind: Kind, amount: nat)
    requires size > 0 && amount > 0
    ensures var ahead, oldest := now + 1, now + 1 - size;
      var h := [Event(shard, ahead, kind, amount), Event(shard, oldest, kind, amount)];
      && IsRetained(ahead, now, size) && IsRetained(oldest, now, size)
      && (forall second :: IsRetained(second, now, size) <==> oldest <= second <= ahead)
      && Live(h, size, shard, ahead, kind) == 0 < History(h, shard, ahead, kind)
  {
    var ahead, oldest := now + 1, now + 1 - size;
    var first, second := Event(shard, ahead, kind, amount), Event(shard, oldest, kind, amount);
    WrapsOnce(ahead, size);
    HistoryConcat([first], [second], shard, ahead, kind);
    assert [first] + [second] == [first, second];
    assert [first][..0] == [] && [first, second][..1] == [first];
  }

  lemma WrapsOnce(a: int, size: nat)
    requires size > 0
    ensures SameSlot(a, a - size, size)
  {
    var b := a - size;
    var p, q := a / size, b / size;
    assert a == size * p + a % size && b == size * q + b % size;
    if q + 1 < p {
      Grows(size, q + 2, p);
    } else if p < q + 1 {
      Grows(size, p + 1, q + 1);
    }
  }
}
