/** What is enqueued, and when, in histories without failures (alerts.go): stated on the log of enqueued records and
    the times they were enqueued, against the observations alone. */
module AlertUpdates {
  import opened Options
  import opened Alerts
  import opened AlertManagers
  import opened Hysteresis

  /** A collector that started with no state file and evaluated these observations. */
  function After(cfg: Config, evals: seq<Evaluation>): World {
    EvaluateAll(cfg, Init.(pc := Idle), evals)
  }

  /** What the observations of alert `n` make of it. */
  function Played(cfg: Config, evals: seq<Evaluation>, n: string): Control {
    Play(cfg, ControlOf(Fresh), SeenBy(evals, n))
  }

  /** The time of each record in the log: the clock of the evaluation that enqueued it. */
  function Times(cfg: Config, evals: seq<Evaluation>): seq<int> {
    if evals == [] then []
    else
      var init, e := evals[..|evals| - 1], evals[|evals| - 1];
      Stamped(Times(cfg, init), |After(cfg, evals).log|, e.now)
  }

  function Stamped(times: seq<int>, length: nat, now: int): seq<int> {
    if length <= |times| then times else times + seq(length - |times|, _ => now)
  }

  /** When a record of alert `n` was last enqueued. */
  function LastTime(log: seq<Record>, times: seq<int>, n: string): int
    requires |times| == |log|
  {
    if log == [] then ZERO_TIME
    else if log[|log| - 1].name == n then times[|log| - 1]
    else LastTime(log[..|log| - 1], times[..|log| - 1], n)
  }

  lemma LastOfSnoc(log: seq<Record>, times: seq<int>, r: Record, now: int, n: string)
    requires |times| == |log|
    ensures LastOf(log + [r], n) == if r.name == n then r else LastOf(log, n)
    ensures LastTime(log + [r], times + [now], n) == if r.name == n then now else LastTime(log, times, n)
  {
    assert (log + [r])[..|log|] == log && (times + [now])[..|log|] == times;
  }

  lemma {:induction false} LastTimeIsThere(log: seq<Record>, times: seq<int>, n: string) returns (i: nat)
    requires |times| == |log| && LastOf(log, n) != NoRecord
    ensures i < |log| && log[i] == LastOf(log, n) && log[i].name == n && times[i] == LastTime(log, times, n)
  {
    i := |log| - 1;
    if log[i].name != n {
      i := LastTimeIsThere(log[..|log| - 1], times[..|log| - 1], n);
    }
  }

  // ---- What memory and the log agree on ----

  /** The state of alert `n` is its last enqueued record, but for a peak that rose since. */
  predicate Told(w: World, times: seq<int>, n: string)
    requires |times| == |w.log|
  {
    var s, last := Get(w.mem, n), LastOf(w.log, n);
    if last == NoRecord then s.record == NoRecord && !s.active && !s.dirty
    else
      && last.id > 0 && last.name == n && s.lastEmitted == LastTime(w.log, times, n)
      && s.record == last.(indicator := s.record.indicator) && s.record.indicator >= last.indicator
      && (s.dirty <==> s.record.indicator > last.indicator) && (s.dirty ==> s.active)
  }

  ghost predicate AllTold(w: World, times: seq<int>) {
    w.pc.Idle? && |w.owner| > 0 && |times| == |w.log| && forall n :: Told(w, times, n)
  }

  predicate AllGood(io: seq<bool>) {
    io == seq(6, _ => true)
  }

  function Evaluated(cfg: Config, w: World, e: Evaluation): World {
    Finish(cfg, Begin(cfg, w, e.obs, e.now, true), e.io)
  }

  /** With nothing failing, a publication saves, enqueues the record and saves it clean. */
  lemma PublicationSucceeds(cfg: Config, w: World, io: seq<bool>)
    requires AllGood(io) && w.pc.Publishing? && w.pc.stage.SaveFirst? && w.pc.rest.None?
    ensures var s, w' := Get(w.mem, w.pc.name), Finish(cfg, w, io);
      && w'.pc.Idle? && w'.log == w.log + [s.record] && w'.mem == w.mem[w.pc.name := s.(dirty := false)]
      && w'.disk == w'.mem && w'.outbox == w.outbox + [s.record]
      && w'.openings == w.openings && w'.clearings == w.clearings && w'.owner == w.owner
  {
    PublicationOutcomes(cfg, w, io);
  }

  /** What an evaluation without failures enqueues, from the alert's last enqueued record and the control its
      observations have brought it to. */
  function Sent(cfg: Config, before: Control, after: Control, last: Record, lastTime: int, obs: Observation, now: int, id: nat): seq<Record> {
    if !before.active && after.active then [Record(id, cfg.hostname, cfg.ip, now, None, obs.name, obs.threshold, obs.indicator, Active)]
    else if before.active && !after.active then [last.(indicator := after.peak, phase := Cleared, end := Some(now))]
    else if before.active && after.peak > last.indicator && now - lastTime >= cfg.activeUpdate then [last.(indicator := after.peak)]
    else []
  }

  lemma OpeningTells(cfg: Config, w: World, times: seq<int>, e: Evaluation)
    requires AllTold(w, times) && AllGood(e.io) && !Get(w.mem, e.obs.name).active
    ensures var c, w' := ControlOf(Get(w.mem, e.obs.name)), Evaluated(cfg, w, e); var n := e.obs.name;
      && w'.pc.Idle? && ControlOf(Get(w'.mem, n)) == Advance(cfg, c, e.obs)
      && w'.log == w.log + Sent(cfg, c, Advance(cfg, c, e.obs), LastOf(w.log, n), LastTime(w.log, times, n), e.obs, e.now, |w.owner|)
      && AllTold(w', Stamped(times, |w'.log|, e.now))
  {
    var n := e.obs.name;
    assert Told(w, times, n);
    var begun := Begin(cfg, w, e.obs, e.now, true);
    assert begun == Breach(cfg, w, e.obs, e.now, true);
    TellingStep(cfg, w, times, e, begun);
  }

  lemma SustainingTells(cfg: Config, w: World, times: seq<int>, e: Evaluation)
    requires AllTold(w, times) && AllGood(e.io) && Get(w.mem, e.obs.name).active
    ensures var c, w' := ControlOf(Get(w.mem, e.obs.name)), Evaluated(cfg, w, e); var n := e.obs.name;
      && w'.pc.Idle? && ControlOf(Get(w'.mem, n)) == Advance(cfg, c, e.obs)
      && w'.log == w.log + Sent(cfg, c, Advance(cfg, c, e.obs), LastOf(w.log, n), LastTime(w.log, times, n), e.obs, e.now, |w.owner|)
      && AllTold(w', Stamped(times, |w'.log|, e.now))
  {
    var n := e.obs.name;
    assert Told(w, times, n);
    var begun := Begin(cfg, w, e.obs, e.now, true);
    assert begun.log == w.log && forall m :: m != n ==> Get(begun.mem, m) == Get(w.mem, m);
    TellingStep(cfg, w, times, e, begun);
  }

  /** An evaluation changed one state in memory and then either published it or left it unpublished. */
  lemma TellingStep(cfg: Config, w: World, times: seq<int>, e: Evaluation, begun: World)
    requires AllTold(w, times) && AllGood(e.io) && begun.log == w.log && |begun.owner| > 0
    requires forall m :: m != e.obs.name ==> Get(begun.mem, m) == Get(w.mem, m)
    requires begun.pc.Idle? || begun.pc == Publishing(e.obs.name, SaveFirst, None)
    requires begun.pc.Idle? ==> Told(begun, times, e.obs.name)
    requires begun.pc.Publishing? ==>
      var s := Get(begun.mem, e.obs.name); s.record.name == e.obs.name && s.record.id > 0 && s.lastEmitted == e.now
    ensures var w' := Finish(cfg, begun, e.io);
      && w'.pc.Idle? && AllTold(w', Stamped(times, |w'.log|, e.now))
      && w'.log == w.log + (if begun.pc.Publishing? then [Get(begun.mem, e.obs.name).record] else [])
      && ControlOf(Get(w'.mem, e.obs.name)) == ControlOf(Get(begun.mem, e.obs.name))
  {
    var n, s, w' := e.obs.name, Get(begun.mem, e.obs.name), Finish(cfg, begun, e.io);
    if begun.pc.Publishing? {
      PublicationSucceeds(cfg, begun, e.io);
      assert Stamped(times, |w'.log|, e.now) == times + [e.now];
      forall m ensures Told(w', times + [e.now], m) {
        assert Told(w, times, m);
        LastOfSnoc(w.log, times, s.record, e.now, m);
      }
    } else {
      forall m ensures Told(w', times, m) {
        assert m != n ==> Told(w, times, m);
      }
    }
  }

  lemma EvaluationTells(cfg: Config, w: World, times: seq<int>, e: Evaluation)
    requires AllTold(w, times) && AllGood(e.io)
    ensures var c, w' := ControlOf(Get(w.mem, e.obs.name)), Evaluated(cfg, w, e); var n := e.obs.name;
      && ControlOf(Get(w'.mem, n)) == Advance(cfg, c, e.obs)
      && w'.log == w.log + Sent(cfg, c, Advance(cfg, c, e.obs), LastOf(w.log, n), LastTime(w.log, times, n), e.obs, e.now, |w.owner|)
      && AllTold(w', Stamped(times, |w'.log|, e.now))
  {
    if Get(w.mem, e.obs.name).active {
      SustainingTells(cfg, w, times, e);
    } else {
      OpeningTells(cfg, w, times, e);
    }
  }

  lemma {:induction false} HistoryTells(cfg: Config, evals: seq<Evaluation>)
    requires NoFailure(evals)
    ensures AllTold(After(cfg, evals), Times(cfg, evals))
  {
    if evals != [] {
      var init, e := evals[..|evals| - 1], evals[|evals| - 1];
      HistoryTells(cfg, init);
      EvaluationTells(cfg, After(cfg, init), Times(cfg, init), e);
    }
  }

  // ---- The laws ----

  /** The whole log of a history without failures, evaluation by evaluation: an opening, a closing, and in between a
      record whenever the peak lies above the last enqueued one and `activeUpdate` seconds have passed since
      it was enqueued; nothing else, and nothing of another alert. */
  lemma LogFollowsObservations(cfg: Config, evals: seq<Evaluation>, e: Evaluation)
    requires NoFailure(evals + [e])
    ensures var n, w, w' := e.obs.name, After(cfg, evals), After(cfg, evals + [e]);
      && |Times(cfg, evals)| == |w.log|
      && w'.log == w.log + Sent(cfg, Played(cfg, evals, n), Played(cfg, evals + [e], n), LastOf(w.log, n),
                                LastTime(w.log, Times(cfg, evals), n), e.obs, e.now, |w.owner|)
  {
    var all := evals + [e];
    assert all[..|all| - 1] == evals && all[|all| - 1] == e;
    assert forall x :: x in evals ==> x in all;
    assert e in all;
    HistoryTells(cfg, evals);
    RunPlaysEachAlert(cfg, Init.(pc := Idle), evals, e.obs.name);
    var seen := SeenBy(evals, e.obs.name);
    assert SeenBy(all, e.obs.name) == seen + [e.obs] && (seen + [e.obs])[..|seen|] == seen;
    EvaluationTells(cfg, After(cfg, evals), Times(cfg, evals), e);
  }

  /** After every evaluation of an alert, either its last enqueued record is its record in memory, or a record of the
      same incident was enqueued less than `activeUpdate` seconds ago. */
  lemma UpdatesAreTimely(cfg: Config, evals: seq<Evaluation>, e: Evaluation)
    requires NoFailure(evals + [e])
    ensures var n, w', times := e.obs.name, After(cfg, evals + [e]), Times(cfg, evals + [e]);
      var s := Get(w'.mem, n);
      && |times| == |w'.log|
      && (LastOf(w'.log, n) == s.record
          || exists i :: 0 <= i < |w'.log| && w'.log[i].id == s.record.id && e.now - times[i] < cfg.activeUpdate)
  {
    var all, n := evals + [e], e.obs.name;
    assert all[..|all| - 1] == evals && all[|all| - 1] == e;
    var w, w', times := After(cfg, evals), After(cfg, all), Times(cfg, all);
    HistoryTells(cfg, all);
    LogFollowsObservations(cfg, evals, e);
    RunPlaysEachAlert(cfg, Init.(pc := Idle), all, n);
    assert Told(w', times, n);
    if LastOf(w'.log, n) != Get(w'.mem, n).record {
      var i := LastTimeIsThere(w'.log, times, n);
      HistoryTells(cfg, evals);
      assert e in all;
      NotSentIsRecent(cfg, w, Times(cfg, evals), e);
      assert w'.log[i].id == Get(w'.mem, n).record.id;
    }
  }

  lemma NotSentIsRecent(cfg: Config, w: World, times: seq<int>, e: Evaluation)
    requires AllTold(w, times) && AllGood(e.io)
    requires LastOf(Evaluated(cfg, w, e).log, e.obs.name) != Get(Evaluated(cfg, w, e).mem, e.obs.name).record
    ensures var w' := Evaluated(cfg, w, e); var times' := Stamped(times, |w'.log|, e.now);
      |times'| == |w'.log| && e.now - LastTime(w'.log, times', e.obs.name) < cfg.activeUpdate
  {
    var n, w' := e.obs.name, Evaluated(cfg, w, e);
    var times' := Stamped(times, |w'.log|, e.now);
    EvaluationTells(cfg, w, times, e);
    assert Told(w, times, n) && Told(w', times', n);
    var c := ControlOf(Get(w.mem, n));
    var sent := Sent(cfg, c, Advance(cfg, c, e.obs), LastOf(w.log, n), LastTime(w.log, times, n), e.obs, e.now, |w.owner|);
    if sent != [] {
      assert sent == [sent[0]];
      LastOfSnoc(w.log, times, sent[0], e.now, n);
    }
  }

  // ---- After failures ----

  /** What enqueueing a record leaves: the state of its alert is clean and its record the last one enqueued. */
  predicate JustSent(w: World, n: string) {
    !Get(w.mem, n).dirty && w.log != [] && w.log[|w.log| - 1] == Get(w.mem, n).record
  }

  lemma BreachSends(cfg: Config, w: World, obs: Observation, now: int, io: seq<bool>)
    requires |io| >= 3 && io[0] && io[1] && io[2] && w.pc.Idle? && !Get(w.mem, obs.name).active
    ensures var s, w' := Get(w.mem, obs.name), Finish(cfg, Breach(cfg, w, obs, now, true), io);
      var s' := Get(w'.mem, obs.name);
      && w.log <= w'.log
      && (if s'.active then JustSent(w', obs.name) && |w'.log| > |w.log|
          else w'.log == w.log && s'.record == s.record && s'.dirty == s.dirty && s'.lastEmitted == s.lastEmitted)
  {
    var counted := Breach(cfg, w, obs, now, true);
    if counted.pc.Publishing? {
      PublicationOutcomes(cfg, counted, io);
    }
  }

  lemma ResendSends(cfg: Config, w: World, e: Evaluation)
    requires w.pc.Idle? && AllGood(e.io)
    requires var s := Get(w.mem, e.obs.name); !s.active && s.dirty && e.now - s.lastEmitted >= cfg.activeUpdate
    ensures var w' := Evaluated(cfg, w, e);
      && JustSent(w', e.obs.name) && |w'.log| > |w.log| && w'.log[|w.log|] == Get(w.mem, e.obs.name).record
  {
    var begun := Begin(cfg, w, e.obs, e.now, true);
    PublicationOutcomes(cfg, begun, e.io);
    var sent := Published(begun, e.obs.name, e.io);
    assert sent.log == w.log + [Get(w.mem, e.obs.name).record] && JustSent(sent, e.obs.name);
    BreachSends(cfg, sent, e.obs, e.now, e.io[3..]);
  }

  lemma SustainSends(cfg: Config, w: World, e: Evaluation)
    requires w.pc.Idle? && AllGood(e.io) && Get(w.mem, e.obs.name).active
    ensures var w' := Evaluated(cfg, w, e); var s, s' := Get(w.mem, e.obs.name), Get(w'.mem, e.obs.name);
      if s'.dirty then e.now - s'.lastEmitted < cfg.activeUpdate
      else (JustSent(w', e.obs.name) && |w'.log| > |w.log|) || (!s.dirty && s'.record == s.record)
  {
    var begun := Begin(cfg, w, e.obs, e.now, true);
    if begun.pc.Publishing? {
      PublicationSucceeds(cfg, begun, e.io);
    }
  }

  /** Whatever failed before: an evaluation whose own file operations succeed leaves nothing undelivered that was last
      tried `activeUpdate` seconds ago or longer; what it makes clean it has just enqueued; and the record of an
      incident that is over is sent again before anything else, as soon as it is due. */
  lemma RetryIsTimely(cfg: Config, w: World, e: Evaluation)
    requires w.pc.Idle? && AllGood(e.io)
    ensures var w' := Evaluated(cfg, w, e); var s, s' := Get(w.mem, e.obs.name), Get(w'.mem, e.obs.name);
      && (s'.dirty ==> e.now - s'.lastEmitted < cfg.activeUpdate)
      && (!s'.dirty && (s.dirty || s'.record != s.record) ==> JustSent(w', e.obs.name) && |w'.log| > |w.log|)
      && (!s.active && s.dirty && e.now - s.lastEmitted >= cfg.activeUpdate ==>
            |w'.log| > |w.log| && w'.log[|w.log|] == s.record)
  {
    var s := Get(w.mem, e.obs.name);
    if s.active {
      SustainSends(cfg, w, e);
    } else if s.dirty && e.now - s.lastEmitted >= cfg.activeUpdate {
      ResendSends(cfg, w, e);
    } else {
      BreachSends(cfg, w, e.obs, e.now, e.io);
    }
  }

  // ---- The totals ----

  /** Between the two worlds exactly the transition of alert `n` was counted. */
  predicate Counted(w: World, w': World, n: string) {
    var was, is_ := Get(w.mem, n).active, Get(w'.mem, n).active;
    && w'.openings == w.openings + (if !was && is_ then 1 else 0)
    && w'.clearings == w.clearings + (if was && !is_ then 1 else 0)
  }

  lemma PublicationIsNotCounted(cfg: Config, w: World, n: string, io: seq<bool>)
    requires |io| >= 3 && w.pc == Publishing(n, SaveFirst, None)
    ensures var w' := Finish(cfg, w, io);
      w'.openings == w.openings && w'.clearings == w.clearings && Get(w'.mem, n).active == Get(w.mem, n).active
  {
    PublicationOutcomes(cfg, w, io);
  }

  lemma BreachIsCounted(cfg: Config, w: World, obs: Observation, now: int, idOk: bool, io: seq<bool>)
    requires |io| >= 3 && w.pc.Idle? && !Get(w.mem, obs.name).active
    ensures Counted(w, Finish(cfg, Breach(cfg, w, obs, now, idOk), io), obs.name)
  {
    var counted := Breach(cfg, w, obs, now, idOk);
    if counted.pc.Publishing? {
      PublicationIsNotCounted(cfg, counted, obs.name, io);
    }
  }

  lemma ResendIsCounted(cfg: Config, w: World, begun: World, obs: Observation, now: int, idOk: bool, io: seq<bool>)
    requires |io| >= 6 && begun.pc == Publishing(obs.name, SaveFirst, Some(Rest(obs, now, idOk)))
    requires begun.openings == w.openings && begun.clearings == w.clearings
    requires !Get(begun.mem, obs.name).active && !Get(w.mem, obs.name).active
    ensures Counted(w, Finish(cfg, begun, io), obs.name)
  {
    PublicationOutcomes(cfg, begun, io);
    if io[0] && io[1] && io[2] {
      BreachIsCounted(cfg, Published(begun, obs.name, io), obs, now, idOk, io[3..]);
    }
  }

  /** The totals of opened and cleared incidents count exactly those transitions. */
  lemma TransitionsAreCounted(cfg: Config, w: World, obs: Observation, now: int, idOk: bool, io: seq<bool>)
    requires w.pc.Idle? && |io| >= 6
    ensures Counted(w, Finish(cfg, Begin(cfg, w, obs, now, idOk), io), obs.name)
  {
    var s, begun := Get(w.mem, obs.name), Begin(cfg, w, obs, now, idOk);
    if s.active {
      if begun.pc.Publishing? {
        PublicationIsNotCounted(cfg, begun, obs.name, io);
      }
    } else if s.dirty && now - s.lastEmitted >= cfg.activeUpdate {
      ResendIsCounted(cfg, w, begun, obs, now, idOk, io);
    } else {
      BreachIsCounted(cfg, w, obs, now, idOk, io);
    }
  }
}
