/** When alerts open and clear, stated against whole histories of indicators (alerts.go). */
module Hysteresis {
  import opened Options
  import opened Alerts
  import opened AlertManagers

  /** The fields of an alert that decide when it opens and clears, with its incident's peak. */
  datatype Control = Control(active: bool, breach: nat, clear: nat, peak: real)

  function ControlOf(s: AlertState): Control {
    Control(s.active, s.breach, s.clear, s.record.indicator)
  }

  function Larger(a: real, b: real): real {
    if b > a then b else a
  }

  /** One observation, with no failure. */
  function Advance(cfg: Config, c: Control, obs: Observation): Control {
    var x := obs.indicator;
    if c.active then
      var calm := if x < obs.clearThreshold then c.clear + 1 else 0;
      if calm >= cfg.clearWindows then Control(false, 0, 0, Larger(c.peak, x))
      else Control(true, 0, calm, Larger(c.peak, x))
    else if x < obs.threshold then Control(false, 0, 0, c.peak)
    else if c.breach + 1 < cfg.triggerWindows then Control(false, c.breach + 1, 0, c.peak)
    else Control(true, 0, 0, x)
  }

  /** An incident is due to open. */
  predicate IsDue(cfg: Config, c: Control, obs: Observation) {
    !c.active && obs.indicator >= obs.threshold && c.breach + 1 >= cfg.triggerWindows
  }

  /** Without an identifier an opening is put off to the next breach; nothing else depends on one. */
  function AdvanceIf(cfg: Config, c: Control, obs: Observation, idOk: bool): Control {
    if !idOk && IsDue(cfg, c, obs) then Control(false, c.breach + 1, 0, c.peak) else Advance(cfg, c, obs)
  }

  /** An evaluation is cut short before it counts only when it re-sends an undelivered record and one of
      those three file operations fails. */
  predicate CutShort(cfg: Config, s: AlertState, now: int, io: seq<bool>)
    requires |io| >= 3
  {
    !s.active && s.dirty && now - s.lastEmitted >= cfg.activeUpdate && !(io[0] && io[1] && io[2])
  }

  /** `w'` differs from `w` in memory only by delivery marks and in alert `n` by its control `c`. */
  ghost predicate ControlStep(w: World, w': World, n: string, c: Control) {
    && ControlOf(Get(w'.mem, n)) == c
    && forall m :: m != n ==> Get(w'.mem, m) == Get(w.mem, m)
  }

  lemma PublishingKeepsControl(cfg: Config, w: World, n: string, io: seq<bool>)
    requires |io| >= 3 && w.pc == Publishing(n, SaveFirst, None)
    ensures ControlStep(w, Finish(cfg, w, io), n, ControlOf(Get(w.mem, n)))
  {
    PublicationOutcomes(cfg, w, io);
  }

  lemma BreachAdvances(cfg: Config, w: World, obs: Observation, now: int, idOk: bool, io: seq<bool>)
    requires |io| >= 3 && w.pc.Idle? && !Get(w.mem, obs.name).active
    ensures ControlStep(w, Finish(cfg, Breach(cfg, w, obs, now, idOk), io), obs.name,
                        AdvanceIf(cfg, ControlOf(Get(w.mem, obs.name)), obs, idOk))
  {
    var counted := Breach(cfg, w, obs, now, idOk);
    if counted.pc.Publishing? {
      PublishingKeepsControl(cfg, counted, obs.name, io);
    }
  }

  /** File failures do not change when alerts open and clear, except for an evaluation that is cut short, which
      leaves the counts as they were; a failed identifier puts off an opening. */
  lemma EvaluationAdvances(cfg: Config, w: World, obs: Observation, now: int, idOk: bool, io: seq<bool>)
    requires |io| >= 6 && w.pc.Idle?
    ensures var s := Get(w.mem, obs.name);
      ControlStep(w, Finish(cfg, Begin(cfg, w, obs, now, idOk), io), obs.name,
                  if CutShort(cfg, s, now, io) then ControlOf(s) else AdvanceIf(cfg, ControlOf(s), obs, idOk))
  {
    var s := Get(w.mem, obs.name);
    var begun := Begin(cfg, w, obs, now, idOk);
    if s.active {
      if begun.pc.Publishing? {
        PublishingKeepsControl(cfg, begun, obs.name, io);
      }
    } else if s.dirty && now - s.lastEmitted >= cfg.activeUpdate {
      PublicationOutcomes(cfg, begun, io);
      if !CutShort(cfg, s, now, io) {
        BreachAdvances(cfg, Published(begun, obs.name, io), obs, now, idOk, io[3..]);
      }
    } else {
      BreachAdvances(cfg, w, obs, now, idOk, io);
    }
  }

  // ---- Whole histories ----

  datatype Evaluation = Evaluation(obs: Observation, now: int, io: seq<bool>)

  function EvaluateAll(cfg: Config, w: World, evals: seq<Evaluation>): World {
    if evals == [] then w
    else
      var e := evals[|evals| - 1];
      var before := EvaluateAll(cfg, w, evals[..|evals| - 1]);
      Finish(cfg, Begin(cfg, before, e.obs, e.now, true), e.io)
  }

  /** The observations of alert `n`, in order. */
  function SeenBy(evals: seq<Evaluation>, n: string): seq<Observation> {
    if evals == [] then []
    else
      var e := evals[|evals| - 1];
      SeenBy(evals[..|evals| - 1], n) + if e.obs.name == n then [e.obs] else []
  }

  function Play(cfg: Config, c: Control, seen: seq<Observation>): Control {
    if seen == [] then c else Advance(cfg, Play(cfg, c, seen[..|seen| - 1]), seen[|seen| - 1])
  }

  predicate NoFailure(evals: seq<Evaluation>) {
    forall e :: e in evals ==> e.io == seq(6, _ => true)
  }

  lemma FinishReturnsIdle(cfg: Config, w: World, io: seq<bool>)
    requires |io| >= 6
    requires w.pc.Idle? || (w.pc.Publishing? && w.pc.stage.SaveFirst?)
    ensures Finish(cfg, w, io).pc.Idle?
  {
    if w.pc.Publishing? {
      PublicationOutcomes(cfg, w, io);
      if io[0] && io[1] && io[2] && w.pc.rest.Some? {
        var rest := w.pc.rest.value;
        var counted := Breach(cfg, Published(w, w.pc.name, io), rest.obs, rest.now, rest.idOk);
        if counted.pc.Publishing? {
          PublicationOutcomes(cfg, counted, io[3..]);
        }
      }
    }
  }

  lemma EvaluationPlays(cfg: Config, w: World, e: Evaluation, n: string)
    requires w.pc.Idle? && e.io == seq(6, _ => true)
    ensures var w' := Finish(cfg, Begin(cfg, w, e.obs, e.now, true), e.io); var c := ControlOf(Get(w.mem, n));
      w'.pc.Idle? && ControlOf(Get(w'.mem, n)) == if e.obs.name == n then Advance(cfg, c, e.obs) else c
  {
    EvaluationAdvances(cfg, w, e.obs, e.now, true, e.io);
    FinishReturnsIdle(cfg, Begin(cfg, w, e.obs, e.now, true), e.io);
  }

  /** In a failure-free run each alert's control is played by its own observations alone. */
  lemma {:induction false} RunPlaysEachAlert(cfg: Config, w: World, evals: seq<Evaluation>, n: string)
    requires w.pc.Idle? && NoFailure(evals)
    ensures var w' := EvaluateAll(cfg, w, evals);
      w'.pc.Idle? && ControlOf(Get(w'.mem, n)) == Play(cfg, ControlOf(Get(w.mem, n)), SeenBy(evals, n))
  {
    if evals != [] {
      var init, e := evals[..|evals| - 1], evals[|evals| - 1];
      RunPlaysEachAlert(cfg, w, init, n);
      EvaluationPlays(cfg, EvaluateAll(cfg, w, init), e, n);
      var seen := SeenBy(init, n);
      if e.obs.name == n {
        assert SeenBy(evals, n) == seen + [e.obs] && (seen + [e.obs])[..|seen|] == seen;
      } else {
        assert SeenBy(evals, n) == seen;
      }
    }
  }

  predicate Breaches(obs: Observation) { obs.indicator >= obs.threshold }

  predicate Calms(obs: Observation) { obs.indicator < obs.clearThreshold }

  /** How many of the last observations, without a gap, satisfy `p`. */
  function Streak(seen: seq<Observation>, p: Observation -> bool): nat {
    if seen == [] || !p(seen[|seen| - 1]) then 0 else Streak(seen[..|seen| - 1], p) + 1
  }

  /** The first moment a streak of `k` is complete is the end of `seen`. */
  predicate FirstStreak(seen: seq<Observation>, p: Observation -> bool, k: nat) {
    && Streak(seen, p) >= k
    && forall i :: 0 <= i < |seen| ==> Streak(seen[..i], p) < k
  }

  function Peak(p: real, seen: seq<Observation>): real {
    if seen == [] then p else Larger(Peak(p, seen[..|seen| - 1]), seen[|seen| - 1].indicator)
  }

  lemma {:induction false} QuietUntilStreak(cfg: Config, p: real, seen: seq<Observation>)
    requires cfg.triggerWindows >= 1
    requires forall i :: 0 <= i <= |seen| ==> Streak(seen[..i], Breaches) < cfg.triggerWindows
    ensures Play(cfg, Control(false, 0, 0, p), seen) == Control(false, Streak(seen, Breaches), 0, p)
  {
    if seen != [] {
      var init := seen[..|seen| - 1];
      assert forall i :: 0 <= i <= |init| ==> init[..i] == seen[..i];
      assert seen[..|seen|] == seen;
      QuietUntilStreak(cfg, p, init);
    }
  }

  /** From rest, an alert has just opened for the first time exactly when the last `triggerWindows`
      observations breach and no earlier streak was that long. */
  lemma OpensAtFirstStreak(cfg: Config, p: real, seen: seq<Observation>)
    requires cfg.triggerWindows >= 1
    ensures var rest := Control(false, 0, 0, p);
      (Play(cfg, rest, seen).active && forall i :: 0 <= i < |seen| ==> !Play(cfg, rest, seen[..i]).active)
      <==> FirstStreak(seen, Breaches, cfg.triggerWindows)
    ensures FirstStreak(seen, Breaches, cfg.triggerWindows) ==>
      Play(cfg, Control(false, 0, 0, p), seen) == Control(true, 0, 0, seen[|seen| - 1].indicator)
  {
    if i :| 0 <= i < |seen| && Streak(seen[..i], Breaches) >= cfg.triggerWindows {
      OpenedEarlier(cfg, p, seen, i);
    } else if Streak(seen, Breaches) >= cfg.triggerWindows {
      OpensHere(cfg, p, seen);
      NotOpenBefore(cfg, p, seen);
    } else {
      assert seen[..|seen|] == seen;
      QuietUntilStreak(cfg, p, seen);
    }
  }

  lemma OpenedEarlier(cfg: Config, p: real, seen: seq<Observation>, i: nat)
    requires cfg.triggerWindows >= 1 && i < |seen| && Streak(seen[..i], Breaches) >= cfg.triggerWindows
    ensures exists k :: 0 <= k < |seen| && Play(cfg, Control(false, 0, 0, p), seen[..k]).active
  {
    var k := ShortestStreak(seen, Breaches, cfg.triggerWindows, i);
    OpensHere(cfg, p, seen[..k]);
  }

  lemma NotOpenBefore(cfg: Config, p: real, seen: seq<Observation>)
    requires cfg.triggerWindows >= 1
    requires forall i :: 0 <= i < |seen| ==> Streak(seen[..i], Breaches) < cfg.triggerWindows
    ensures forall i :: 0 <= i < |seen| ==> !Play(cfg, Control(false, 0, 0, p), seen[..i]).active
  {
    forall i | 0 <= i < |seen| ensures !Play(cfg, Control(false, 0, 0, p), seen[..i]).active {
      assert forall j :: 0 <= j <= i ==> seen[..i][..j] == seen[..j];
      QuietUntilStreak(cfg, p, seen[..i]);
    }
  }

  lemma OpensHere(cfg: Config, p: real, seen: seq<Observation>)
    requires cfg.triggerWindows >= 1 && FirstStreak(seen, Breaches, cfg.triggerWindows)
    ensures Play(cfg, Control(false, 0, 0, p), seen) == Control(true, 0, 0, seen[|seen| - 1].indicator)
  {
    var init := seen[..|seen| - 1];
    assert forall i :: 0 <= i <= |init| ==> init[..i] == seen[..i];
    QuietUntilStreak(cfg, p, init);
  }

  lemma {:induction false} ShortestStreak(seen: seq<Observation>, p: Observation -> bool, n: nat, i: nat)
    returns (k: nat)
    requires i <= |seen| && Streak(seen[..i], p) >= n
    ensures k <= i && FirstStreak(seen[..k], p, n)
  {
    k := 0;
    while Streak(seen[..k], p) < n
      invariant k <= i
      invariant forall j :: 0 <= j < k ==> Streak(seen[..j], p) < n
      decreases i - k
    {
      k := k + 1;
    }
    assert forall j :: 0 <= j < k ==> seen[..k][..j] == seen[..j];
  }

  lemma {:induction false} ActiveUntilStreak(cfg: Config, p: real, seen: seq<Observation>)
    requires cfg.clearWindows >= 1
    requires forall i :: 0 <= i <= |seen| ==> Streak(seen[..i], Calms) < cfg.clearWindows
    ensures Play(cfg, Control(true, 0, 0, p), seen) == Control(true, 0, Streak(seen, Calms), Peak(p, seen))
  {
    if seen != [] {
      var init := seen[..|seen| - 1];
      assert forall i :: 0 <= i <= |init| ==> init[..i] == seen[..i];
      assert seen[..|seen|] == seen;
      ActiveUntilStreak(cfg, p, init);
    }
  }

  lemma ClearsHere(cfg: Config, p: real, seen: seq<Observation>)
    requires cfg.clearWindows >= 1 && FirstStreak(seen, Calms, cfg.clearWindows)
    ensures Play(cfg, Control(true, 0, 0, p), seen) == Control(false, 0, 0, Peak(p, seen))
  {
    var init := seen[..|seen| - 1];
    assert forall i :: 0 <= i <= |init| ==> init[..i] == seen[..i];
    ActiveUntilStreak(cfg, p, init);
  }

  /** A just opened alert has cleared for the first time exactly when the last `clearWindows` observations
      are below the clear threshold and no earlier streak was that long; its record then holds the peak. */
  lemma ClearsAtFirstStreak(cfg: Config, p: real, seen: seq<Observation>)
    requires cfg.clearWindows >= 1
    ensures var fresh_ := Control(true, 0, 0, p);
      (!Play(cfg, fresh_, seen).active && forall i :: 0 <= i < |seen| ==> Play(cfg, fresh_, seen[..i]).active)
      <==> FirstStreak(seen, Calms, cfg.clearWindows)
    ensures FirstStreak(seen, Calms, cfg.clearWindows) ==>
      Play(cfg, Control(true, 0, 0, p), seen) == Control(false, 0, 0, Peak(p, seen))
  {
    var fresh_ := Control(true, 0, 0, p);
    if i :| 0 <= i < |seen| && Streak(seen[..i], Calms) >= cfg.clearWindows {
      var k := ShortestStreak(seen, Calms, cfg.clearWindows, i);
      ClearsHere(cfg, p, seen[..k]);
    } else if Streak(seen, Calms) >= cfg.clearWindows {
      ClearsHere(cfg, p, seen);
      forall i | 0 <= i < |seen| ensures Play(cfg, fresh_, seen[..i]).active {
        assert forall j :: 0 <= j <= i ==> seen[..i][..j] == seen[..j];
        ActiveUntilStreak(cfg, p, seen[..i]);
      }
    } else {
      assert seen[..|seen|] == seen;
      ActiveUntilStreak(cfg, p, seen);
    }
  }

  /** Nothing seen so far lies above the record's indicator, and some observation or the opening one
      reached it. */
  lemma {:induction false} PeakIsMaximum(p: real, seen: seq<Observation>)
    ensures Peak(p, seen) >= p && forall i :: 0 <= i < |seen| ==> seen[i].indicator <= Peak(p, seen)
    ensures Peak(p, seen) == p || exists i :: 0 <= i < |seen| && seen[i].indicator == Peak(p, seen)
  {
    if seen != [] {
      var init := seen[..|seen| - 1];
      PeakIsMaximum(p, init);
      if Peak(p, seen) == seen[|seen| - 1].indicator {
      } else if Peak(p, init) != p {
        var i :| 0 <= i < |init| && init[i].indicator == Peak(p, init);
        assert seen[i].indicator == Peak(p, seen);
      }
    }
  }

  /** How many incidents a history opens. */
  function Openings(cfg: Config, c: Control, seen: seq<Observation>): nat {
    if seen == [] then 0
    else
      var init := seen[..|seen| - 1];
      Openings(cfg, c, init) + if !Play(cfg, c, init).active && Play(cfg, c, seen).active then 1 else 0
  }

  lemma {:induction false} OpeningsAreEarned(cfg: Config, p: real, seen: seq<Observation>)
    requires cfg.triggerWindows >= 1 && cfg.clearWindows >= 1
    ensures var rest := Control(false, 0, 0, p); var c := Play(cfg, rest, seen);
      var k := Openings(cfg, rest, seen);
      && (c.active ==> k >= 1 && |seen| >= k * cfg.triggerWindows + (k - 1) * cfg.clearWindows + c.clear)
      && (!c.active ==> |seen| >= k * cfg.triggerWindows + k * cfg.clearWindows + c.breach)
  {
    if seen != [] {
      OpeningsAreEarned(cfg, p, seen[..|seen| - 1]);
    }
  }

  /** k incidents need at least k triggers and k - 1 clearings of observations. */
  lemma IncidentsNeedTime(cfg: Config, seen: seq<Observation>)
    requires cfg.triggerWindows >= 1 && cfg.clearWindows >= 1
    ensures var k := Openings(cfg, ControlOf(Fresh), seen);
      k > 0 ==> |seen| >= k * cfg.triggerWindows + (k - 1) * cfg.clearWindows
  {
    OpeningsAreEarned(cfg, 0.0, seen);
  }
}
