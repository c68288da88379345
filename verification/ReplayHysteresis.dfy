/** When the replayer's alerts open and clear, stated against whole histories of cycles and evaluations
    (reprocesador/reprocess_alerts.go). Its alerts obey the hysteresis of the collector's. */
module ReplayHysteresis {
  import opened Options
  import opened ReplayAlerts
  import opened ReplayCounters
  import C = Alerts
  import H = Hysteresis

  function ControlOf(s: State): H.Control {
    H.Control(s.active, s.breach, s.clear, s.record.indicator)
  }

  /** The windows of the configuration, as the collector's hysteresis reads them. */
  function Windows(cfg: Config): C.Config {
    C.Config(cfg.triggerWindows, cfg.clearWindows, cfg.activeUpdate, "", "")
  }

  /** One observation of an alert, and whether an identifier could be drawn then. */
  datatype Look = Look(obs: C.Observation, idOk: bool)

  function ObsOf(cfg: Config, alert: Alert, x: real): C.Observation {
    C.Observation("", LimitsOf(cfg, alert).threshold, LimitsOf(cfg, alert).clear, x)
  }

  /** The control after a history of observations. */
  function PlayIf(cfg: Config, c: H.Control, seen: seq<Look>): H.Control {
    if seen == [] then c
    else H.AdvanceIf(Windows(cfg), PlayIf(cfg, c, seen[..|seen| - 1]), seen[|seen| - 1].obs, seen[|seen| - 1].idOk)
  }

  function Observations(seen: seq<Look>): seq<C.Observation> {
    seq(|seen|, i requires 0 <= i < |seen| => seen[i].obs)
  }

  // ---- What an evaluation observes ----

  /** The numerators and denominators, read off the full history of cycles: failed of attempted, and quarantined of
      attempted and quarantined. */
  lemma ObservedIsHistory(cfg: Config, h: seq<Cycle>, alert: Alert, backlog: Sample, now: int)
    requires forall i :: 0 <= i < |h| ==> now >= h[i].second - 121
    ensures var s := Observed(cfg, After(h, cfg.window), alert, backlog, now);
      var counts := History(h, now - cfg.window + 1, now);
      && (alert.FailureRate? ==> s.numerator == counts.failed && s.denominator == counts.attempted)
      && (alert.QuarantineRate? ==> s.numerator == counts.quarantined && s.denominator == counts.attempted + counts.quarantined)
      && (alert.Backlog? ==> s == backlog)
  {
    WindowIsHistory(h, cfg.window, now);
  }

  lemma Divides(part: real, whole: real)
    requires whole > 0.0
    ensures part / whole * whole == part
  {
  }

  /** A percentage is the share of the whole, and zero when there is nothing. */
  lemma PercentageIsShare(s: Sample)
    ensures s.denominator > 0 ==> Percentage(s) * s.denominator as real == 100.0 * s.numerator as real
    ensures s.denominator == 0 ==> Percentage(s) == 0.0
  {
    if s.denominator > 0 {
      Divides(s.numerator as real * 100.0, s.denominator as real);
    }
  }

  // ---- Runs ----

  predicate Uninterrupted(steps: seq<Step>) {
    forall i :: 0 <= i < |steps| ==> !steps[i].Restart?
  }

  /** The cycles a run counts. */
  function Cycles(steps: seq<Step>): seq<Cycle> {
    if steps == [] then []
    else
      var last := steps[|steps| - 1];
      Cycles(steps[..|steps| - 1]) + if last.Count? then [last.cycle] else []
  }

  /** A restart forgets the counters and takes the states of the file; from then on the counters are those of the cycles
      since. */
  lemma {:induction false} CountersAreSinceRestart(cfg: Config, w: World, steps: seq<Step>)
    requires Uninterrupted(steps)
    ensures Run(cfg, Do(cfg, w, Restart), steps).counters == After(Cycles(steps), cfg.window)
    ensures steps == [] ==> Run(cfg, Do(cfg, w, Restart), steps).mem == w.disk
    decreases |steps|
  {
    if steps != [] {
      var init, last := steps[..|steps| - 1], steps[|steps| - 1];
      CountersAreSinceRestart(cfg, w, init);
      if last.Count? {
        AfterSnoc(Cycles(init), last.cycle, cfg.window);
      } else {
        assert Cycles(init) + [] == Cycles(init);
      }
    }
  }

  /** The observations of `alert` in a run: it is looked at when it has enough data, or while its observations so far
      have opened it. */
  ghost function Seen(cfg: Config, w: World, steps: seq<Step>, alert: Alert): seq<Look>
    decreases |steps|, 1
  {
    if steps == [] then []
    else Seen(cfg, w, steps[..|steps| - 1], alert) + SeenAt(cfg, w, steps, alert)
  }

  /** What the last step of a run adds. */
  ghost function SeenAt(cfg: Config, w: World, steps: seq<Step>, alert: Alert): (r: seq<Look>)
    requires steps != []
    ensures |r| <= 1
    decreases |steps|, 0
  {
    var init, step := steps[..|steps| - 1], steps[|steps| - 1];
    if step.Evaluate? && step.alert == alert then
      var sample := Observed(cfg, Run(cfg, w, init).counters, alert, step.backlog, step.now);
      if sample.denominator >= cfg.minimumBatches
         || PlayIf(cfg, ControlOf(Get(w.mem, alert)), Seen(cfg, w, init, alert)).active
      then [Look(ObsOf(cfg, alert, Percentage(sample)), step.io.idOk)] else []
    else []
  }

  lemma PlayIfSnoc(cfg: Config, c: H.Control, seen: seq<Look>, look: Look)
    ensures PlayIf(cfg, c, seen + [look]) == H.AdvanceIf(Windows(cfg), PlayIf(cfg, c, seen), look.obs, look.idOk)
  {
    assert (seen + [look])[..|seen|] == seen;
  }

  lemma NextAdvances(cfg: Config, alert: Alert, s: State, x: real, now: int, id: Option<nat>)
    ensures ControlOf(Next(cfg, LimitsOf(cfg, alert), s, x, now, id).state)
         == H.AdvanceIf(Windows(cfg), ControlOf(s), ObsOf(cfg, alert, x), id.Some?)
  {
  }

  lemma AnnouncingKeepsControls(w: World, alert: Alert, io: Io, other: Alert)
    ensures ControlOf(Get(Announce(w, alert, io).mem, other)) == ControlOf(Get(w.mem, other))
  {
  }

  /** An evaluation advances its own alert by what it observes, whatever its file operations do, and no other. */
  lemma ApplyAdvances(cfg: Config, w: World, alert: Alert, sample: Sample, now: int, io: Io, other: Alert)
    ensures ControlOf(Get(Apply(cfg, w, alert, sample, now, io).mem, other))
      == if other == alert
         then H.AdvanceIf(Windows(cfg), ControlOf(Get(w.mem, alert)), ObsOf(cfg, alert, Percentage(sample)), io.idOk)
         else ControlOf(Get(w.mem, other))
  {
    var s, turn := Get(w.mem, alert), TurnOf(cfg, w, alert, sample, now, io.idOk);
    NextAdvances(cfg, alert, s, Percentage(sample), now, if io.idOk then Some(|w.owner| + 1) else None);
    var w' := w.(mem := w.mem[alert := turn.state],
                 owner := if Opens(s, turn.state) then w.owner + [alert] else w.owner);
    AnnouncingKeepsControls(w', alert, io, other);
  }

  /** Between restarts an alert's control is played by its observations alone, whatever files fail. */
  lemma {:induction false} RunPlaysEachAlert(cfg: Config, w: World, steps: seq<Step>, alert: Alert)
    requires Uninterrupted(steps)
    ensures ControlOf(Get(Run(cfg, w, steps).mem, alert))
         == PlayIf(cfg, ControlOf(Get(w.mem, alert)), Seen(cfg, w, steps, alert))
  {
    if steps != [] {
      var init, step := steps[..|steps| - 1], steps[|steps| - 1];
      RunPlaysEachAlert(cfg, w, init, alert);
      var before, seen := Run(cfg, w, init), Seen(cfg, w, init, alert);
      if step.Evaluate? {
        var sample := Observed(cfg, before.counters, step.alert, step.backlog, step.now);
        if ShouldEvaluate(cfg, Get(before.mem, step.alert), sample.denominator) {
          ApplyAdvances(cfg, before, step.alert, sample, step.now, step.io, alert);
        }
        if SeenAt(cfg, w, steps, alert) != [] {
          PlayIfSnoc(cfg, ControlOf(Get(w.mem, alert)), seen, SeenAt(cfg, w, steps, alert)[0]);
        } else {
          assert seen + [] == seen;
        }
      } else {
        assert seen + [] == seen;
      }
    }
  }

  // ---- Opening ----

  /** The last `k` observations or more breach, and an identifier is there. */
  predicate Ready(seen: seq<Look>, k: nat) {
    seen != [] && seen[|seen| - 1].idOk && H.Streak(Observations(seen), H.Breaches) >= k
  }

  /** The first moment an incident can open is the end of `seen`. */
  predicate FirstReady(seen: seq<Look>, k: nat) {
    Ready(seen, k) && forall i :: 0 <= i < |seen| ==> !Ready(seen[..i], k)
  }

  lemma StreakSnoc(seen: seq<Look>, p: C.Observation -> bool)
    requires seen != []
    ensures H.Streak(Observations(seen), p)
      == if p(seen[|seen| - 1].obs) then H.Streak(Observations(seen[..|seen| - 1]), p) + 1 else 0
  {
    assert Observations(seen)[..|seen| - 1] == Observations(seen[..|seen| - 1]);
  }

  lemma {:induction false} QuietUntilReady(cfg: Config, p: real, seen: seq<Look>)
    requires cfg.triggerWindows >= 1
    requires forall i :: 0 <= i <= |seen| ==> !Ready(seen[..i], cfg.triggerWindows)
    ensures PlayIf(cfg, H.Control(false, 0, 0, p), seen)
         == H.Control(false, H.Streak(Observations(seen), H.Breaches), 0, p)
  {
    if seen != [] {
      var init := seen[..|seen| - 1];
      assert forall i :: 0 <= i <= |init| ==> init[..i] == seen[..i];
      assert seen[..|seen|] == seen;
      QuietUntilReady(cfg, p, init);
      StreakSnoc(seen, H.Breaches);
    }
  }

  lemma OpensWhenReady(cfg: Config, p: real, seen: seq<Look>)
    requires cfg.triggerWindows >= 1 && FirstReady(seen, cfg.triggerWindows)
    ensures PlayIf(cfg, H.Control(false, 0, 0, p), seen) == H.Control(true, 0, 0, seen[|seen| - 1].obs.indicator)
  {
    var init := seen[..|seen| - 1];
    assert forall i :: 0 <= i <= |init| ==> init[..i] == seen[..i];
    QuietUntilReady(cfg, p, init);
    StreakSnoc(seen, H.Breaches);
  }

  lemma {:induction false} ShortestReady(seen: seq<Look>, n: nat, i: nat) returns (k: nat)
    requires i <= |seen| && Ready(seen[..i], n)
    ensures k <= i && FirstReady(seen[..k], n)
  {
    k := 0;
    while !Ready(seen[..k], n)
      invariant k <= i
      invariant forall j :: 0 <= j < k ==> !Ready(seen[..j], n)
      decreases i - k
    {
      k := k + 1;
    }
    assert forall j :: 0 <= j < k ==> seen[..k][..j] == seen[..j];
  }

  // ---- Prefixes of a run ----

  /** A prefix of a run has seen a prefix of what the run has seen. */
  lemma {:induction false} SeenSoFar(cfg: Config, w: World, steps: seq<Step>, k: nat, alert: Alert) returns (i: nat)
    requires k <= |steps|
    ensures i <= |Seen(cfg, w, steps, alert)| && Seen(cfg, w, steps[..k], alert) == Seen(cfg, w, steps, alert)[..i]
    decreases |steps|
  {
    i := |Seen(cfg, w, steps, alert)|;
    if k < |steps| {
      var init := steps[..|steps| - 1];
      i := SeenSoFar(cfg, w, init, k, alert);
      assert init[..k] == steps[..k];
    } else {
      assert steps[..k] == steps;
    }
  }

  /** Whatever a run has seen first, some prefix of it has seen just that. */
  lemma {:induction false} SeenOnce(cfg: Config, w: World, steps: seq<Step>, i: nat, alert: Alert) returns (k: nat)
    requires i <= |Seen(cfg, w, steps, alert)|
    ensures k <= |steps| && Seen(cfg, w, steps[..k], alert) == Seen(cfg, w, steps, alert)[..i]
    decreases |steps|
  {
    k := |steps|;
    if steps == [] || i == |Seen(cfg, w, steps, alert)| {
      assert steps[..k] == steps;
    } else {
      var init := steps[..|steps| - 1];
      k := SeenOnce(cfg, w, init, i, alert);
      assert init[..k] == steps[..k];
    }
  }

  ghost predicate ActiveAfter(cfg: Config, w: World, steps: seq<Step>, alert: Alert) {
    Get(Run(cfg, w, steps).mem, alert).active
  }

  lemma ActiveIsPlayed(cfg: Config, w: World, steps: seq<Step>, k: nat, alert: Alert)
    requires Uninterrupted(steps) && k <= |steps|
    ensures ActiveAfter(cfg, w, steps[..k], alert)
      <==> PlayIf(cfg, ControlOf(Get(w.mem, alert)), Seen(cfg, w, steps[..k], alert)).active
  {
    RunPlaysEachAlert(cfg, w, steps[..k], alert);
  }

  /** At no point of the run so far was the alert's activity this one. */
  ghost predicate NeverBefore(cfg: Config, w: World, past: seq<Step>, alert: Alert, active: bool) {
    forall k :: 0 <= k <= |past| ==> ActiveAfter(cfg, w, past[..k], alert) != active
  }

  ghost predicate NeverPlayed(cfg: Config, c: H.Control, seen: seq<Look>, active: bool) {
    forall i :: 0 <= i <= |seen| ==> PlayIf(cfg, c, seen[..i]).active != active
  }

  lemma NeverIsPlayed(cfg: Config, w: World, past: seq<Step>, alert: Alert, active: bool)
    requires Uninterrupted(past)
    ensures NeverBefore(cfg, w, past, alert, active)
      <==> NeverPlayed(cfg, ControlOf(Get(w.mem, alert)), Seen(cfg, w, past, alert), active)
  {
    var c, seen := ControlOf(Get(w.mem, alert)), Seen(cfg, w, past, alert);
    if NeverBefore(cfg, w, past, alert, active) {
      forall i | 0 <= i <= |seen| ensures PlayIf(cfg, c, seen[..i]).active != active {
        var k := SeenOnce(cfg, w, past, i, alert);
        ActiveIsPlayed(cfg, w, past, k, alert);
      }
    }
    if NeverPlayed(cfg, c, seen, active) {
      forall k | 0 <= k <= |past| ensures ActiveAfter(cfg, w, past[..k], alert) != active {
        var i := SeenSoFar(cfg, w, past, k, alert);
        ActiveIsPlayed(cfg, w, past, k, alert);
      }
    }
  }

  // ---- The laws ----

  predicate AtRest(c: H.Control) {
    c == H.Control(false, 0, 0, c.peak)
  }

  lemma OpenedBefore(cfg: Config, p: real, before: seq<Look>, i: nat)
    requires cfg.triggerWindows >= 1 && i <= |before| && Ready(before[..i], cfg.triggerWindows)
    ensures !NeverPlayed(cfg, H.Control(false, 0, 0, p), before, true)
  {
    var j := ShortestReady(before, cfg.triggerWindows, i);
    OpensWhenReady(cfg, p, before[..j]);
  }

  lemma NotOpenedBefore(cfg: Config, p: real, before: seq<Look>)
    requires cfg.triggerWindows >= 1 && forall i :: 0 <= i <= |before| ==> !Ready(before[..i], cfg.triggerWindows)
    ensures NeverPlayed(cfg, H.Control(false, 0, 0, p), before, true)
  {
    forall i | 0 <= i <= |before| ensures !PlayIf(cfg, H.Control(false, 0, 0, p), before[..i]).active {
      assert forall j :: 0 <= j <= i ==> before[..i][..j] == before[..j];
      QuietUntilReady(cfg, p, before[..i]);
    }
  }

  lemma FirstOpening(cfg: Config, p: real, before: seq<Look>, look: Look)
    requires cfg.triggerWindows >= 1
    ensures PlayIf(cfg, H.Control(false, 0, 0, p), before + [look]).active
            && NeverPlayed(cfg, H.Control(false, 0, 0, p), before, true)
      <==> FirstReady(before + [look], cfg.triggerWindows)
  {
    var seen := before + [look];
    assert forall i :: 0 <= i <= |before| ==> seen[..i] == before[..i];
    if i :| 0 <= i <= |before| && Ready(before[..i], cfg.triggerWindows) {
      OpenedBefore(cfg, p, before, i);
      assert Ready(seen[..i], cfg.triggerWindows);
    } else {
      NotOpenedBefore(cfg, p, before);
      assert seen[..|seen|] == seen;
      if Ready(seen, cfg.triggerWindows) {
        OpensWhenReady(cfg, p, seen);
      } else {
        QuietUntilReady(cfg, p, seen);
      }
    }
  }

  /** What a run has seen after one step more. */
  lemma SeenSnoc(cfg: Config, w: World, past: seq<Step>, step: Step, alert: Alert)
    ensures var more := SeenAt(cfg, w, past + [step], alert);
      Seen(cfg, w, past + [step], alert) == Seen(cfg, w, past, alert) + more && (more == [] || more == [more[0]])
  {
    assert (past + [step])[..|past|] == past;
  }

  /** From rest, an alert has just opened for the first time exactly when the last `triggerWindows` observations, or
      more, breach, an identifier can be drawn, and that was so at no earlier observation. When identifiers
      never fail, it is when the first streak of that length is complete; each failure puts it off to the
      next breach. */
  lemma OpensAtFirstStreak(cfg: Config, w: World, past: seq<Step>, step: Step, alert: Alert)
    requires cfg.triggerWindows >= 1 && Uninterrupted(past + [step]) && AtRest(ControlOf(Get(w.mem, alert)))
    ensures ActiveAfter(cfg, w, past + [step], alert) && NeverBefore(cfg, w, past, alert, true)
      <==> SeenAt(cfg, w, past + [step], alert) != []
           && FirstReady(Seen(cfg, w, past + [step], alert), cfg.triggerWindows)
  {
    var all, c := past + [step], ControlOf(Get(w.mem, alert));
    assert forall i :: 0 <= i < |past| ==> past[i] == all[i];
    SeenSnoc(cfg, w, past, step, alert);
    NeverIsPlayed(cfg, w, past, alert, true);
    RunPlaysEachAlert(cfg, w, all, alert);
    var before, more := Seen(cfg, w, past, alert), SeenAt(cfg, w, all, alert);
    if more == [] {
      assert before + [] == before == before[..|before|];
    } else {
      FirstOpening(cfg, c.peak, before, more[0]);
    }
  }

  /** When identifiers never fail, that is the end of the first streak of `triggerWindows` breaches. */
  lemma {:induction false} ReadyIsStreak(seen: seq<Look>, k: nat)
    requires k >= 1 && forall i :: 0 <= i < |seen| ==> seen[i].idOk
    ensures FirstReady(seen, k) <==> H.FirstStreak(Observations(seen), H.Breaches, k)
  {
    forall i | 0 <= i <= |seen| ensures Ready(seen[..i], k) <==> H.Streak(Observations(seen)[..i], H.Breaches) >= k {
      assert Observations(seen[..i]) == Observations(seen)[..i];
    }
    assert seen[..|seen|] == seen && Observations(seen)[..|seen|] == Observations(seen);
  }

  /** The step that opens an incident draws a fresh identifier, and its ACTIVE record, with the threshold and the
      indicator of that observation, is what the step puts in the outbox when both file operations succeed. */
  lemma OpeningIsSent(cfg: Config, w: World, step: Step)
    requires step.Evaluate? && !Get(w.mem, step.alert).active && Get(Do(cfg, w, step).mem, step.alert).active
    ensures var w' := Do(cfg, w, step);
      var x := Percentage(Observed(cfg, w.counters, step.alert, step.backlog, step.now));
      var record := Record(|w.owner| + 1, step.now, None, LimitsOf(cfg, step.alert).threshold, x, Active);
      && w'.owner == w.owner + [step.alert] && Get(w'.mem, step.alert).record == record
      && w'.log == w.log + (if step.io.saved && step.io.enqueued then [record] else [])
      && (step.io.saved ==> Get(w'.disk, step.alert).record == record && Get(w'.disk, step.alert).active)
  {
  }

  // ---- Clearing ----

  lemma {:induction false} ActiveUntilStreak(cfg: Config, p: real, seen: seq<Look>)
    requires cfg.clearWindows >= 1
    requires forall i :: 0 <= i <= |seen| ==> H.Streak(Observations(seen[..i]), H.Calms) < cfg.clearWindows
    ensures PlayIf(cfg, H.Control(true, 0, 0, p), seen)
         == H.Control(true, 0, H.Streak(Observations(seen), H.Calms), H.Peak(p, Observations(seen)))
  {
    if seen != [] {
      var init := seen[..|seen| - 1];
      assert forall i :: 0 <= i <= |init| ==> init[..i] == seen[..i];
      assert seen[..|seen|] == seen;
      ActiveUntilStreak(cfg, p, init);
      StreakSnoc(seen, H.Calms);
      assert Observations(seen)[..|seen| - 1] == Observations(init);
    }
  }

  predicate FirstCalm(seen: seq<Look>, k: nat) {
    && H.Streak(Observations(seen), H.Calms) >= k
    && forall i :: 0 <= i < |seen| ==> H.Streak(Observations(seen[..i]), H.Calms) < k
  }

  lemma ClearsWhenCalm(cfg: Config, p: real, seen: seq<Look>)
    requires cfg.clearWindows >= 1 && FirstCalm(seen, cfg.clearWindows)
    ensures PlayIf(cfg, H.Control(true, 0, 0, p), seen) == H.Control(false, 0, 0, H.Peak(p, Observations(seen)))
  {
    var init := seen[..|seen| - 1];
    assert forall i :: 0 <= i <= |init| ==> init[..i] == seen[..i];
    ActiveUntilStreak(cfg, p, init);
    StreakSnoc(seen, H.Calms);
    assert Observations(seen)[..|seen| - 1] == Observations(init);
  }

  lemma {:induction false} ShortestCalm(seen: seq<Look>, n: nat, i: nat) returns (k: nat)
    requires i <= |seen| && H.Streak(Observations(seen[..i]), H.Calms) >= n
    ensures k <= i && FirstCalm(seen[..k], n)
  {
    k := 0;
    while H.Streak(Observations(seen[..k]), H.Calms) < n
      invariant k <= i
      invariant forall j :: 0 <= j < k ==> H.Streak(Observations(seen[..j]), H.Calms) < n
      decreases i - k
    {
      k := k + 1;
    }
    assert forall j :: 0 <= j < k ==> seen[..k][..j] == seen[..j];
  }

  predicate JustOpened(c: H.Control) {
    c == H.Control(true, 0, 0, c.peak)
  }

  lemma ClearedBefore(cfg: Config, p: real, before: seq<Look>, i: nat)
    requires cfg.clearWindows >= 1 && i <= |before| && H.Streak(Observations(before[..i]), H.Calms) >= cfg.clearWindows
    ensures !NeverPlayed(cfg, H.Control(true, 0, 0, p), before, false)
  {
    var j := ShortestCalm(before, cfg.clearWindows, i);
    ClearsWhenCalm(cfg, p, before[..j]);
  }

  lemma NotClearedBefore(cfg: Config, p: real, before: seq<Look>)
    requires cfg.clearWindows >= 1
    requires forall i :: 0 <= i <= |before| ==> H.Streak(Observations(before[..i]), H.Calms) < cfg.clearWindows
    ensures NeverPlayed(cfg, H.Control(true, 0, 0, p), before, false)
  {
    forall i | 0 <= i <= |before| ensures PlayIf(cfg, H.Control(true, 0, 0, p), before[..i]).active {
      assert forall j :: 0 <= j <= i ==> before[..i][..j] == before[..j];
      ActiveUntilStreak(cfg, p, before[..i]);
    }
  }

  lemma FirstClearing(cfg: Config, p: real, before: seq<Look>, look: Look)
    requires cfg.clearWindows >= 1
    ensures !PlayIf(cfg, H.Control(true, 0, 0, p), before + [look]).active
            && NeverPlayed(cfg, H.Control(true, 0, 0, p), before, false)
      <==> FirstCalm(before + [look], cfg.clearWindows)
  {
    var seen := before + [look];
    assert forall i :: 0 <= i <= |before| ==> seen[..i] == before[..i];
    if i :| 0 <= i <= |before| && H.Streak(Observations(before[..i]), H.Calms) >= cfg.clearWindows {
      ClearedBefore(cfg, p, before, i);
      assert H.Streak(Observations(seen[..i]), H.Calms) >= cfg.clearWindows;
    } else {
      NotClearedBefore(cfg, p, before);
      assert seen[..|seen|] == seen;
      if FirstCalm(seen, cfg.clearWindows) {
        ClearsWhenCalm(cfg, p, seen);
      } else {
        ActiveUntilStreak(cfg, p, seen);
      }
    }
  }

  /** A just opened alert has just cleared exactly when the last `clearWindows` observations are below the clear
      percentage and no earlier streak was that long. */
  lemma ClearsAtFirstStreak(cfg: Config, w: World, past: seq<Step>, step: Step, alert: Alert)
    requires cfg.clearWindows >= 1 && Uninterrupted(past + [step]) && JustOpened(ControlOf(Get(w.mem, alert)))
    ensures !ActiveAfter(cfg, w, past + [step], alert) && NeverBefore(cfg, w, past, alert, false)
      <==> SeenAt(cfg, w, past + [step], alert) != []
           && FirstCalm(Seen(cfg, w, past + [step], alert), cfg.clearWindows)
  {
    var all, c := past + [step], ControlOf(Get(w.mem, alert));
    assert forall i :: 0 <= i < |past| ==> past[i] == all[i];
    SeenSnoc(cfg, w, past, step, alert);
    NeverIsPlayed(cfg, w, past, alert, false);
    RunPlaysEachAlert(cfg, w, all, alert);
    var before, more := Seen(cfg, w, past, alert), SeenAt(cfg, w, all, alert);
    if more == [] {
      assert before + [] == before == before[..|before|];
    } else {
      FirstClearing(cfg, c.peak, before, more[0]);
    }
  }

  /** The record then holds the peak of the incident's observations. */
  lemma ClosingHoldsPeak(cfg: Config, w: World, steps: seq<Step>, alert: Alert)
    requires cfg.clearWindows >= 1 && Uninterrupted(steps) && JustOpened(ControlOf(Get(w.mem, alert)))
    requires FirstCalm(Seen(cfg, w, steps, alert), cfg.clearWindows)
    ensures var peak := H.Peak(Get(w.mem, alert).record.indicator, Observations(Seen(cfg, w, steps, alert)));
      Get(Run(cfg, w, steps).mem, alert).record.indicator == peak
  {
    RunPlaysEachAlert(cfg, w, steps, alert);
    ClearsWhenCalm(cfg, ControlOf(Get(w.mem, alert)).peak, Seen(cfg, w, steps, alert));
  }

  /** The step that closes an incident gives its record the end time, and the CLEARED record, otherwise as it was but
      for the peak, is what the step puts in the outbox when both file operations succeed. */
  lemma ClosingIsSent(cfg: Config, w: World, step: Step)
    requires step.Evaluate? && Get(w.mem, step.alert).active && !Get(Do(cfg, w, step).mem, step.alert).active
    ensures var w' := Do(cfg, w, step); var was := Get(w.mem, step.alert).record;
      var x := Percentage(Observed(cfg, w.counters, step.alert, step.backlog, step.now));
      var record := was.(phase := Cleared, end := Some(step.now), indicator := H.Larger(was.indicator, x));
      && Get(w'.mem, step.alert).record == record
      && w'.log == w.log + (if step.io.saved && step.io.enqueued then [record] else [])
  {
  }
}
