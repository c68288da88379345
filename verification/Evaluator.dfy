/** What the collector's evaluator reports about the pipeline that feeds its tracker (alerts.go, main.go). */
module Evaluator {
  import opened Cohorts
  import opened CohortTrackers
  import opened Pipeline
  import opened PipelineCohorts
  import opened PipelineTheorems

  /** The tracker holds what the pipeline recorded up to point `k` of a run, and its clock is the evaluator's. */
  ghost predicate Watches(tracker: CohortTracker, cfg: Config, limits: Limits, ws: seq<World>, steps: seq<Step>, k: nat)
    reads tracker, tracker.buckets
  {
    && cfg.maxRetries >= 1 && IsRun(cfg, ws, steps) && k <= |steps|
    && limits.window > 0 && limits.sla > 0
    && tracker.Valid() && tracker.history == ws[k].events
    && tracker.retention == cfg.retention == AlertCohortRetention(limits.window, limits.sla)
  }

  /** Evaluated at any point of any run whose records reach the tracker in time: the parse alert counts, of the packets
      received in the delayed window, those that failed to parse or were not parsed yet; the insert alert, of the
      rows parsed from them, those spooled, lost by the spool or still under way. */
  method Evaluate(tracker: CohortTracker, limits: Limits, startSecond: int, now: int, ghost clocks: seq<int>,
                  ghost cfg: Config, ghost ws: seq<World>, ghost steps: seq<Step>, ghost k: nat)
    returns (observations: seq<Observation>)
    requires Watches(tracker, cfg, limits, ws, steps, k) && now == ws[k].clock
    requires WellTimed(ws[k].events, clocks, cfg.retention)
    requires forall i :: 0 <= i < |clocks| ==> clocks[i] <= now
    ensures |observations| >= 3
    ensures var h, at := ws[k].events, |observations| - 2;
      var lo, hi := now - limits.sla - limits.window, now - limits.sla - 1;
      && observations[at].name == ParseSla && observations[at + 1].name == InsertSla
      && observations[at].numerator == Window(h, lo, hi, Kind.ParseFailed) + Unparsed(ws[k], lo, hi)
      && observations[at].denominator == Window(h, lo, hi, Kind.Received)
      && observations[at + 1].numerator
         == Window(h, lo, hi, Kind.Spooled) + Window(h, lo, hi, Kind.SpoolFailed) + Unsettled(ws[k], lo, hi)
      && observations[at + 1].denominator == Window(h, lo, hi, Kind.Expected)
  {
    observations := Observations(tracker, limits, clocks, startSecond, now);
    ghost var hi := now - limits.sla - 1;
    TrueNumerators(cfg, ws, steps, k, hi - limits.window + 1, hi);
  }
}
