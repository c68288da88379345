/** The sharded ring of buckets in its own form: buckets reset and incremented in place
    (alert_cohorts.go), and the evaluator's reading of it (alerts.go). */
module CohortTrackers {
  import opened Cohorts

  datatype Counters = Counters(received: nat, parsed: nat, parseFailed: nat, expected: nat,
                               inserted: nat, spooled: nat, spoolFailed: nat, drops: nat)

  const Zero: Counters := Counters(0, 0, 0, 0, 0, 0, 0, 0)

  function Count(c: Counters, kind: Kind): nat {
    match kind
    case Received => c.received
    case Parsed => c.parsed
    case ParseFailed => c.parseFailed
    case Expected => c.expected
    case Inserted => c.inserted
    case Spooled => c.spooled
    case SpoolFailed => c.spoolFailed
    case KernelDrops => c.drops
  }

  function Add(c: Counters, kind: Kind, n: nat): Counters {
    match kind
    case Received => c.(received := c.received + n)
    case Parsed => c.(parsed := c.parsed + n)
    case ParseFailed => c.(parseFailed := c.parseFailed + n)
    case Expected => c.(expected := c.expected + n)
    case Inserted => c.(inserted := c.inserted + n)
    case Spooled => c.(spooled := c.spooled + n)
    case SpoolFailed => c.(spoolFailed := c.spoolFailed + n)
    case KernelDrops => c.(drops := c.drops + n)
  }

  function Sum(a: Counters, b: Counters): Counters {
    Counters(a.received + b.received, a.parsed + b.parsed, a.parseFailed + b.parseFailed, a.expected + b.expected,
             a.inserted + b.inserted, a.spooled + b.spooled, a.spoolFailed + b.spoolFailed, a.drops + b.drops)
  }

  datatype Bucket = Bucket(second: int, counts: Counters)

  // ---- Row cohorts of a batch ----

  datatype InsertCohort = InsertCohort(second: int, rows: nat)

  /** The rows a batch holds for the seconds of a window. */
  function CohortRows(cohorts: seq<InsertCohort>, lo: int, hi: int): nat {
    if cohorts == [] then 0
    else CohortRows(cohorts[..|cohorts| - 1], lo, hi)
         + if lo <= cohorts[|cohorts| - 1].second <= hi then cohorts[|cohorts| - 1].rows else 0
  }

  lemma {:induction false} CohortRowsUpdate(cohorts: seq<InsertCohort>, i: nat, rows: nat, lo: int, hi: int)
    requires i < |cohorts|
    ensures var c := cohorts[i];
      CohortRows(cohorts[i := c.(rows := c.rows + rows)], lo, hi)
      == CohortRows(cohorts, lo, hi) + if lo <= c.second <= hi then rows else 0
  {
    var c, n := cohorts[i], |cohorts| - 1;
    var updated := cohorts[i := c.(rows := c.rows + rows)];
    if i == n {
      assert updated[..n] == cohorts[..n];
    } else {
      assert updated[..n] == cohorts[..n][i := c.(rows := c.rows + rows)];
      CohortRowsUpdate(cohorts[..n], i, rows, lo, hi);
    }
  }

  /** Adds rows for a second, merging with one of the last four cohorts if it is of that second. */
  method AddInsertCohort(cohorts: seq<InsertCohort>, second: int, rows: nat) returns (r: seq<InsertCohort>)
    ensures forall lo, hi :: CohortRows(r, lo, hi) == CohortRows(cohorts, lo, hi) + if lo <= second <= hi then rows else 0
    ensures |r| <= |cohorts| + 1
  {
    if rows == 0 {
      return cohorts;
    }
    var minimum := if |cohorts| < 4 then 0 else |cohorts| - 4;
    var index := |cohorts| - 1;
    while index >= minimum
      invariant minimum - 1 <= index < |cohorts|
    {
      if cohorts[index].second == second {
        r := cohorts[index := cohorts[index].(rows := cohorts[index].rows + rows)];
        forall lo, hi
          ensures CohortRows(r, lo, hi) == CohortRows(cohorts, lo, hi) + if lo <= second <= hi then rows else 0
        {
          CohortRowsUpdate(cohorts, index, rows, lo, hi);
        }
        return;
      }
      index := index - 1;
    }
    r := cohorts + [InsertCohort(second, rows)];
    assert r[..|cohorts|] == cohorts;
  }

  /** What the three row counters record for a batch: its cohorts that the guard still admits. */
  function CohortEvents(cohorts: seq<InsertCohort>, shard: nat, kind: Kind, now: int, size: nat): seq<Event> {
    if cohorts == [] then []
    else
      var c := cohorts[|cohorts| - 1];
      CohortEvents(cohorts[..|cohorts| - 1], shard, kind, now, size)
      + if IsRetained(c.second, now, size) then [Event(shard, c.second, kind, c.rows)] else []
  }

  /** Nothing is recorded for a second that the guard refuses. */
  lemma {:induction false} OnlyRetainedIsRecorded(cohorts: seq<InsertCohort>, shard: nat, kind: Kind, now: int, size: nat)
    ensures forall e :: e in CohortEvents(cohorts, shard, kind, now, size) ==>
      && IsRetained(e.second, now, size) && e.shard == shard && e.kind == kind
      && InsertCohort(e.second, e.amount) in cohorts
  {
    if cohorts != [] {
      OnlyRetainedIsRecorded(cohorts[..|cohorts| - 1], shard, kind, now, size);
    }
  }

  // ---- The tracker ----

  /** The shard an identifier is mapped to: the remainder, which a smaller number is itself. */
  function ShardOf(shardId: int, shards: nat): (shard: nat)
    requires shards > 0
    ensures shard < shards
    ensures 0 <= shardId < shards ==> shard == shardId
  {
    var magnitude := if shardId < 0 then -shardId else shardId;
    if magnitude < shards then magnitude else magnitude % shards
  }

  /** Whatever the identifier, its shard is the remainder of its magnitude by the number of shards. */
  lemma ShardIsRemainder(shardId: int, shards: nat) returns (q: nat)
    requires shards > 0
    ensures (if shardId < 0 then -shardId else shardId) == q * shards + ShardOf(shardId, shards)
  {
    var magnitude := if shardId < 0 then -shardId else shardId;
    q := if magnitude < shards then 0 else magnitude / shards;
  }

  class CohortTracker {
    const retention: nat
    const shards: nat
    const buckets: array2<Bucket>

    /** Every record call so far. */
    ghost var history: seq<Event>

    /** What bucket `[shard, slot]` holds for `second`. */
    ghost function Held(shard: nat, second: int, kind: Kind): nat
      reads this, buckets
      requires retention > 0 && buckets.Length1 == retention && shard < buckets.Length0
    {
      var b := buckets[shard, second % retention];
      if b.second == second then Count(b.counts, kind) else 0
    }

    ghost predicate Valid()
      reads this, buckets
    {
      && retention > 0 && shards > 0 && buckets.Length0 == shards && buckets.Length1 == retention
      && (forall i :: 0 <= i < |history| ==> history[i].shard < shards)
      && (forall shard: nat, second, kind | shard < shards ::
            Held(shard, second, kind) == Live(history, retention, shard, second, kind))
    }

    constructor (shardCount: int, retentionSeconds: int)
      ensures Valid() && fresh(buckets) && history == []
      ensures shards == (if shardCount < 1 then 1 else shardCount)
      ensures retention == if retentionSeconds < MINIMUM_RETENTION then MINIMUM_RETENTION else retentionSeconds
    {
      shards := if shardCount < 1 then 1 else shardCount;
      retention := if retentionSeconds < MINIMUM_RETENTION then MINIMUM_RETENTION else retentionSeconds;
      buckets := new Bucket[if shardCount < 1 then 1 else shardCount,
        if retentionSeconds < MINIMUM_RETENTION then MINIMUM_RETENTION else retentionSeconds]
        ((_, _) => Bucket(0, Zero));
      history := [];
    }

    function Shard(shardId: int): (shard: nat)
      requires shards > 0
      ensures shard < shards
    {
      ShardOf(shardId, shards)
    }

    /** Claims the bucket of `second`, resetting it if another second held it, and adds to a counter. */
    method Record(second: int, shardId: int, kind: Kind, n: nat)
      requires Valid()
      modifies this`history, buckets
      ensures Valid()
      ensures history == old(history) + [Event(Shard(shardId), second, kind, n)]
    {
      var shard, slot := Shard(shardId), second % retention;
      if buckets[shard, slot].second != second {
        buckets[shard, slot] := Bucket(second, Zero);
      }
      buckets[shard, slot] := buckets[shard, slot].(counts := Add(buckets[shard, slot].counts, kind, n));
      history := history + [Event(shard, second, kind, n)];
      assert history[..|history| - 1] == old(history);
      forall row: nat, s, k | row < shards
        ensures Held(row, s, k) == Live(history, retention, row, s, k)
      {
        assert old(Held(row, s, k)) == Live(old(history), retention, row, s, k);
      }
    }

    method RecordReceived(second: int, shardId: int)
      requires Valid()
      modifies this`history, buckets
      ensures Valid() && history == old(history) + [Event(Shard(shardId), second, Received, 1)]
    {
      Record(second, shardId, Received, 1);
    }

    method RecordParseResult(second: int, shardId: int, parsed: bool, expectedRows: nat)
      requires Valid()
      modifies this`history, buckets
      ensures Valid()
      ensures var shard := Shard(shardId);
        history == old(history) + if parsed then [Event(shard, second, Parsed, 1), Event(shard, second, Expected, expectedRows)]
                                  else [Event(shard, second, ParseFailed, 1)]
    {
      if parsed {
        Record(second, shardId, Parsed, 1);
        Record(second, shardId, Expected, expectedRows);
      } else {
        Record(second, shardId, ParseFailed, 1);
      }
    }

    method RecordUdpKernelDrops(second: int, shardId: int, drops: nat)
      requires Valid()
      modifies this`history, buckets
      ensures Valid()
      ensures history == old(history) + if drops == 0 then [] else [Event(Shard(shardId), second, KernelDrops, drops)]
    {
      if drops != 0 {
        Record(second, shardId, KernelDrops, drops);
      }
    }

    /** The loop of `recordInserted`, `recordSpooled` and `recordSpoolFailure`. */
    method RecordRows(cohorts: seq<InsertCohort>, shardId: int, nowSecond: int, kind: Kind)
      requires Valid()
      modifies this`history, buckets
      ensures Valid()
      ensures history == old(history) + CohortEvents(cohorts, Shard(shardId), kind, nowSecond, retention)
    {
      for i := 0 to |cohorts|
        invariant Valid()
        invariant history == old(history) + CohortEvents(cohorts[..i], Shard(shardId), kind, nowSecond, retention)
      {
        assert cohorts[..i + 1][..i] == cohorts[..i];
        if IsRetained(cohorts[i].second, nowSecond, retention) {
          Record(cohorts[i].second, shardId, kind, cohorts[i].rows);
        }
      }
      assert cohorts[..|cohorts|] == cohorts;
    }

    /** Adds up the buckets whose second lies in the window. */
    method Snapshot(start: int, end: int) returns (r: Counters)
      requires Valid()
      ensures forall kind :: Count(r, kind) == LiveWindow(history, retention, shards, start, end, kind)
    {
      r := Zero;
      var second := start;
      while second <= end
        invariant start <= second && (start <= end ==> second <= end + 1) && (end < start ==> second == start)
        invariant forall kind :: Count(r, kind) == LiveWindow(history, retention, shards, start, second - 1, kind)
      {
        var slot := second % retention;
        ghost var before := r;
        for shard := 0 to shards
          invariant forall kind :: Count(r, kind) == Count(before, kind) + LiveShards(history, retention, shard, second, kind)
        {
          forall kind ensures Held(shard, second, kind) == Live(history, retention, shard, second, kind) {
          }
          if buckets[shard, slot].second == second {
            r := Sum(r, buckets[shard, slot].counts);
          }
        }
        second := second + 1;
      }
    }
  }

  // ---- The evaluator's observations ----

  function SaturatingDifference(total: nat, completed: nat): nat {
    if completed >= total then 0 else total - completed
  }

  function Percentage(numerator: nat, denominator: nat): real {
    if denominator == 0 then 0.0 else numerator as real * 100.0 / denominator as real
  }

  lemma PercentageIsShare(numerator: nat, denominator: nat)
    ensures denominator > 0 ==> Percentage(numerator, denominator) * denominator as real == 100.0 * numerator as real
    ensures denominator == 0 ==> Percentage(numerator, denominator) == 0.0
  {
    if denominator > 0 {
      var whole, part := denominator as real, numerator as real * 100.0;
      assert part / whole * whole == part;
    }
  }

  datatype AlertKind = NoTraffic | DropRate | ParseSla | InsertSla

  datatype Percents = Percents(threshold: real, clear: real)

  datatype Observation = Observation(name: AlertKind, limits: Percents, numerator: nat, denominator: nat, indicator: real,
                                     valid: bool)

  datatype Limits = Limits(window: nat, sla: nat, minimumPackets: nat, minimumRows: nat, noTraffic: bool,
                           drops: Percents, parses: Percents, inserts: Percents)

  /** The observation reports `numerator` of `denominator`, as its percentage, and counts if `valid`. */
  predicate Reports(o: Observation, name: AlertKind, limits: Percents, numerator: nat, denominator: nat, valid: bool) {
    && o.name == name && o.limits == limits && o.numerator == numerator && o.denominator == denominator && o.valid == valid
    && (if denominator == 0 then o.indicator == 0.0
        else o.indicator * denominator as real == 100.0 * numerator as real)
  }

  /** The true counts of a window. */
  function Truth(h: seq<Event>, start: int, end: int): Counters {
    Counters(Window(h, start, end, Received), Window(h, start, end, Parsed), Window(h, start, end, ParseFailed),
             Window(h, start, end, Expected), Window(h, start, end, Inserted), Window(h, start, end, Spooled),
             Window(h, start, end, SpoolFailed), Window(h, start, end, KernelDrops))
  }

  lemma CountsDetermine(a: Counters, b: Counters)
    requires forall kind :: Count(a, kind) == Count(b, kind)
    ensures a == b
  {
    assert Count(a, Received) == Count(b, Received) && Count(a, Parsed) == Count(b, Parsed);
    assert Count(a, ParseFailed) == Count(b, ParseFailed) && Count(a, Expected) == Count(b, Expected);
    assert Count(a, Inserted) == Count(b, Inserted) && Count(a, Spooled) == Count(b, Spooled);
    assert Count(a, SpoolFailed) == Count(b, SpoolFailed) && Count(a, KernelDrops) == Count(b, KernelDrops);
  }

  /** One entry of the evaluator's list. */
  function Observe(name: AlertKind, limits: Percents, numerator: nat, denominator: nat, valid: bool): (o: Observation)
    ensures Reports(o, name, limits, numerator, denominator, valid)
  {
    PercentageIsShare(numerator, denominator);
    Observation(name, limits, numerator, denominator, Percentage(numerator, denominator), valid)
  }

  /** With a ring of the configured retention, and records within it of a monotone clock, the evaluator observes what
      the unbounded history holds: silence and kernel drops in the window that ended a second ago, packets not
      parsed and rows not acknowledged in the window that the SLA delays. */
  method Observations(tracker: CohortTracker, limits: Limits, ghost clocks: seq<int>, startSecond: int, now: int)
    returns (observations: seq<Observation>)
    requires tracker.Valid() && limits.window > 0 && limits.sla > 0
    requires tracker.retention == AlertCohortRetention(limits.window, limits.sla)
    requires WellTimed(tracker.history, clocks, tracker.retention)
    requires forall i :: 0 <= i < |clocks| ==> clocks[i] <= now + 119
    ensures |observations| == if limits.noTraffic then 4 else 3
    ensures var udp := Truth(tracker.history, now - limits.window, now - 1);
      var ready, at := now - limits.window >= startSecond, |observations| - 3;
      && (limits.noTraffic ==>
            Reports(observations[0], NoTraffic, Percents(100.0, 1.0), if udp.received == 0 then 1 else 0, 1, ready))
      && Reports(observations[at], DropRate, limits.drops, udp.drops, udp.received + udp.drops,
                 ready && udp.received + udp.drops >= limits.minimumPackets)
    ensures var delayed := Truth(tracker.history, now - limits.sla - limits.window, now - limits.sla - 1);
      var ready, at := now - limits.sla - limits.window >= startSecond, |observations| - 2;
      && Reports(observations[at], ParseSla, limits.parses,
                 if delayed.parsed < delayed.received then delayed.received - delayed.parsed else 0,
                 delayed.received, ready && delayed.received >= limits.minimumPackets)
      && Reports(observations[at + 1], InsertSla, limits.inserts,
                 if delayed.inserted < delayed.expected then delayed.expected - delayed.inserted else 0,
                 delayed.expected, ready && delayed.expected >= limits.minimumRows)
  {
    observations := [];
    var udpEnd := now - 1;
    var udpStart := udpEnd - limits.window + 1;
    var udp := tracker.Snapshot(udpStart, udpEnd);
    var delayedEnd := now - limits.sla - 1;
    var delayedStart := delayedEnd - limits.window + 1;
    var delayed := tracker.Snapshot(delayedStart, delayedEnd);
    SnapshotsAreTrue(tracker, limits, clocks, now, udp, delayed);
    var seen := udp.received + udp.drops;
    if limits.noTraffic {
      var silent := udp.received == 0;
      var o := Observation(NoTraffic, Percents(100.0, 1.0), if silent then 1 else 0, 1, if silent then 100.0 else 0.0,
                           udpStart >= startSecond);
      observations := observations + [o];
    }
    observations := observations
      + [Observe(DropRate, limits.drops, udp.drops, seen, udpStart >= startSecond && seen >= limits.minimumPackets)];
    var unparsed := SaturatingDifference(delayed.received, delayed.parsed);
    observations := observations
      + [Observe(ParseSla, limits.parses, unparsed, delayed.received,
                 delayedStart >= startSecond && delayed.received >= limits.minimumPackets)];
    var uninserted := SaturatingDifference(delayed.expected, delayed.inserted);
    observations := observations
      + [Observe(InsertSla, limits.inserts, uninserted, delayed.expected,
                 delayedStart >= startSecond && delayed.expected >= limits.minimumRows)];
  }

  /** Both snapshots hold the true counts of their windows. */
  lemma SnapshotsAreTrue(tracker: CohortTracker, limits: Limits, clocks: seq<int>, now: int, udp: Counters, delayed: Counters)
    requires tracker.Valid() && limits.window > 0 && limits.sla > 0
    requires tracker.retention == AlertCohortRetention(limits.window, limits.sla)
    requires WellTimed(tracker.history, clocks, tracker.retention)
    requires forall i :: 0 <= i < |clocks| ==> clocks[i] <= now + 119
    requires forall kind ::
      Count(udp, kind) == LiveWindow(tracker.history, tracker.retention, tracker.shards, now - limits.window, now - 1, kind)
    requires var end := now - limits.sla - 1;
      forall kind ::
        Count(delayed, kind) == LiveWindow(tracker.history, tracker.retention, tracker.shards, end - limits.window + 1, end, kind)
    ensures udp == Truth(tracker.history, now - limits.window, now - 1)
    ensures delayed == Truth(tracker.history, now - limits.sla - limits.window, now - limits.sla - 1)
  {
    forall kind
      ensures Count(udp, kind) == Count(Truth(tracker.history, now - limits.window, now - 1), kind)
      ensures Count(delayed, kind)
           == Count(Truth(tracker.history, now - limits.sla - limits.window, now - limits.sla - 1), kind)
    {
      EvaluatorWindowsAreExact(tracker.history, clocks, limits.window, limits.sla, tracker.shards, now, kind);
    }
    CountsDetermine(udp, Truth(tracker.history, now - limits.window, now - 1));
    CountsDetermine(delayed, Truth(tracker.history, now - limits.sla - limits.window, now - limits.sla - 1));
  }
}
