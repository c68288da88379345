/** The promises of the alert protocol, for every run from the empty state. */
module AlertTheorems {
  import opened Options
  import opened Alerts
  import opened AlertInvariants

  function Reached(cfg: Config, steps: seq<Step>): World {
    Exec(cfg, Init, steps)
  }

  lemma ReachedInv(cfg: Config, steps: seq<Step>)
    ensures Inv(Reached(cfg, steps))
  {
    InitInv();
    RunKeepsInv(cfg, Init, steps);
  }

  // ---- Delivery ----

  /** The last record with identifier `id`. */
  function LastWithId(log: seq<Record>, id: nat): Option<Record> {
    if log == [] then None
    else if log[|log| - 1].id == id then Some(log[|log| - 1])
    else LastWithId(log[..|log| - 1], id)
  }

  /** First-in first-out, at least once: the positions the sink applied are 0, 1, 2, ... each repeated at
      least once and never revisited, covering what has left the outbox and at most one record more. */
  lemma DeliveryIsFifo(cfg: Config, steps: seq<Step>)
    returns (k: nat)
    ensures var w := Reached(cfg, steps);
      && Collapse(w.sink) == UpTo(k)
      && w.delivered <= k <= w.delivered + 1 && k <= |w.log|
      && w.outbox == w.log[w.delivered..]
  {
    ReachedInv(cfg, steps);
    var w := Reached(cfg, steps);
    k := if w.sink == [] then 0 else w.sink[|w.sink| - 1] + 1;
  }

  lemma UpToEnds(collapsed: seq<nat>, x: nat, k: nat)
    requires collapsed + [x] == UpTo(k)
    ensures k > 0 && x == k - 1 && collapsed == UpTo(k - 1)
  {
    assert |collapsed + [x]| == k;
    assert (collapsed + [x])[k - 1] == UpTo(k)[k - 1];
    forall i | 0 <= i < k - 1 ensures collapsed[i] == i {
      assert (collapsed + [x])[i] == UpTo(k)[i];
    }
  }

  lemma UpToTail(init: seq<nat>, x: nat, k: nat)
    requires Collapse(init + [x]) == UpTo(k)
    ensures k > 0 && x == k - 1
    ensures Collapse(init) == if init != [] && init[|init| - 1] == x then UpTo(k) else UpTo(k - 1)
  {
    CollapseAppend(init, x);
    if init != [] && init[|init| - 1] == x {
      LastCollapsed(init);
    } else {
      UpToEnds(Collapse(init), x, k);
    }
  }

  lemma {:induction false} LastCollapsed(s: seq<nat>)
    requires s != []
    ensures Collapse(s) != [] && Collapse(s)[|Collapse(s)| - 1] == s[|s| - 1]
  {
    if |s| > 1 {
      LastCollapsed(s[..|s| - 1]);
    }
  }

  lemma {:induction false} LastVersionIsLastEnqueued(log: seq<Record>, sink: seq<nat>, k: nat, id: nat)
    requires k <= |log| && Collapse(sink) == UpTo(k)
    ensures LastVersion(log, sink, id) == LastWithId(log[..k], id)
    decreases |sink|
  {
    if sink == [] {
      assert k == |UpTo(k)| == 0;
    } else {
      var init, x := sink[..|sink| - 1], sink[|sink| - 1];
      assert sink == init + [x];
      UpToTail(init, x, k);
      if init != [] && init[|init| - 1] == x {
        LastVersionIsLastEnqueued(log, init, k, id);
      } else {
        LastVersionIsLastEnqueued(log, init, k - 1, id);
        assert log[..k][..k - 1] == log[..k - 1];
      }
    }
  }

  lemma {:induction false} LastWithIdOfOwner(log: seq<Record>, n: string, r: Record)
    requires r != NoRecord && r == LastOf(log, n)
    requires forall i :: 0 <= i < |log| && log[i].id == r.id ==> log[i].name == n
    requires forall i :: 0 <= i < |log| && log[i].name == n ==> Precedes(log[i], r)
    ensures LastWithId(log, r.id) == Some(r)
  {
    if log[|log| - 1].name != n {
      LastWithIdOfOwner(log[..|log| - 1], n, r);
    }
  }

  /** Whatever crashed, failed or was ambiguous before: once the outbox is empty, the sink's row for the
      incident of a clean alert is the record in memory. */
  lemma SinkMatchesMemory(cfg: Config, steps: seq<Step>, n: string)
    requires var w := Reached(cfg, steps); w.outbox == [] && !Get(w.mem, n).dirty && Get(w.mem, n).record != NoRecord
    ensures var w := Reached(cfg, steps);
      SinkRow(w, Get(w.mem, n).record.id) == Some(Get(w.mem, n).record)
  {
    var w := Reached(cfg, steps);
    var r := Get(w.mem, n).record;
    ReachedInv(cfg, steps);
    assert ChainAt(w, n) && StateOk(Get(w.mem, n), n, w.owner);
    var k := DeliveryIsFifo(cfg, steps);
    assert k == |w.log| && w.log[..k] == w.log;
    LastVersionIsLastEnqueued(w.log, w.sink, k, r.id);
    LastOfIsLast(w.log, n);
    LastWithIdOfOwner(w.log, n, r);
  }

  // ---- Durability ----

  /** Record `r` was enqueued, and it is what the disk holds for its alert, marked undelivered. */
  predicate EnqueuesSaved(w: World, w': World, r: Record) {
    && w'.log == w.log + [r] && w'.disk == w.disk && Get(w.disk, r.name) == Get(w.mem, r.name)
    && Get(w.disk, r.name).record == r && Get(w.disk, r.name).dirty
  }

  lemma FileOpEnqueuesSaved(cfg: Config, w: World, ok: bool)
    requires PcOk(w) && StatesOk(w.mem, w.owner) && w.pc.Publishing?
    ensures DoFileOp(cfg, w, ok).log != w.log ==> EnqueuesSaved(w, DoFileOp(cfg, w, ok), Get(w.mem, w.pc.name).record)
  {
    assert StateOk(Get(w.mem, w.pc.name), w.pc.name, w.owner);
  }

  lemma ReconcileEnqueuesSaved(cfg: Config, w: World, n: string, ok: bool)
    requires PcOk(w) && StatesOk(w.mem, w.owner)
    ensures Do(cfg, w, Reconcile(n, ok)).log != w.log ==> EnqueuesSaved(w, Do(cfg, w, Reconcile(n, ok)), Get(w.mem, n).record)
  {
    assert StateOk(Get(w.mem, n), n, w.owner);
  }

  /** No record is enqueued that is not the one saved on disk for that alert, marked undelivered. */
  lemma EnqueuedIsSaved(cfg: Config, steps: seq<Step>, step: Step)
    ensures var w := Reached(cfg, steps); var w' := Do(cfg, w, step);
      w'.log != w.log ==> exists r: Record :: EnqueuesSaved(w, w', r)
  {
    var w := Reached(cfg, steps);
    ReachedInv(cfg, steps);
    match step
    case FileOp(ok) =>
      if w.pc.Publishing? {
        FileOpEnqueuesSaved(cfg, w, ok);
      }
    case Reconcile(n, ok) => ReconcileEnqueuesSaved(cfg, w, n, ok);
    case Observe(obs, now, idOk) => assert Begin(cfg, w, obs, now, idOk).log == w.log;
    case _ =>
  }

  /** A clean state on disk holds the last record enqueued for its alert, and the disk is never older
      than the outbox. */
  lemma DiskNeverOlderThanOutbox(cfg: Config, steps: seq<Step>, n: string)
    ensures var w := Reached(cfg, steps);
      && Precedes(LastOf(w.log, n), Get(w.disk, n).record)
      && (!Get(w.disk, n).dirty ==> Get(w.disk, n).record == LastOf(w.log, n))
  {
    ReachedInv(cfg, steps);
    assert ChainAt(Reached(cfg, steps), n);
  }

  /** A restart whose reconciliation leaves `n` clean has enqueued the record the disk held for it. */
  lemma ReconcileMissesNothing(cfg: Config, steps: seq<Step>, n: string)
    requires var w := Reached(cfg, steps); w.pc.Starting? && !Get(w.mem, n).dirty
    ensures var w := Reached(cfg, steps); LastOf(w.log, n) == Get(w.disk, n).record
  {
    var w := Reached(cfg, steps);
    ReachedInv(cfg, steps);
    assert ChainAt(w, n);
    assert Get(w.mem, n) == Get(w.disk, n) || Get(w.mem, n) == Get(w.disk, n).(dirty := false);
  }

  // ---- Shape of the enqueue log and overwritten records ----

  /** The records of one alert are a sequence of incidents: identifiers never come back, an incident's
      indicator never falls, its start and threshold never change, and nothing follows its CLEARED
      record except that same record again. No identifier is shared by two alerts. */
  lemma LogIsIncidentSequence(cfg: Config, steps: seq<Step>, i: nat, j: nat)
    requires i <= j < |Reached(cfg, steps).log|
    ensures var log := Reached(cfg, steps).log;
      && (log[i].name == log[j].name ==> Precedes(log[i], log[j]))
      && (log[i].id == log[j].id ==> log[i].name == log[j].name)
      && (log[j].phase.Cleared? <==> log[j].end.Some?)
  {
    ReachedInv(cfg, steps);
  }

  /** Every enqueued incident is still current, or its CLEARED record was enqueued, or its undelivered
      record was once overwritten in memory by a new incident. An overwritten incident need not be lost: its
      record may have been enqueued, or come back from disk. */
  lemma EveryIncidentIsSettled(cfg: Config, steps: seq<Step>, i: nat)
    requires i < |Reached(cfg, steps).log|
    ensures var w := Reached(cfg, steps);
      || w.log[i].id == Get(w.mem, w.log[i].name).record.id
      || ClosedInLog(w.log, w.log[i].id)
      || w.log[i].id in w.overwritten
  {
    ReachedInv(cfg, steps);
    assert SettledAt(Reached(cfg, steps), Reached(cfg, steps).mem, i);
  }

  /** Checked before the evaluation: an inactive alert whose last record is undelivered and too young to
      be re-sent, about to open. */
  predicate OverwriteGuard(cfg: Config, s: AlertState, obs: Observation, now: int, idOk: bool) {
    && !s.active && s.dirty && now - s.lastEmitted < cfg.activeUpdate
    && obs.indicator >= obs.threshold && s.breach + 1 >= cfg.triggerWindows && idOk
  }

  predicate Overwrites(w: World, w': World, n: string) {
    Get(w.mem, n).dirty && Get(w'.mem, n).record.id != Get(w.mem, n).record.id
  }

  /** The history of overwritten incidents gains the one incident `n` loses, if it loses one. */
  predicate RecordsOverwrite(w: World, w': World, n: string) {
    w'.overwritten == if Overwrites(w, w', n) then w.overwritten + {Get(w.mem, n).record.id} else w.overwritten
  }

  lemma EvaluationOverwrites(cfg: Config, w: World, obs: Observation, now: int, idOk: bool)
    requires Inv(w) && w.pc.Idle?
    ensures var w' := Begin(cfg, w, obs, now, idOk);
      && (Overwrites(w, w', obs.name) <==> OverwriteGuard(cfg, Get(w.mem, obs.name), obs, now, idOk))
      && (forall n :: n != obs.name ==> !Overwrites(w, w', n))
      && RecordsOverwrite(w, w', obs.name)
  {
    var s := Get(w.mem, obs.name);
    assert StateOk(s, obs.name, w.owner);
  }

  lemma FileOpOverwritesNothing(cfg: Config, w: World, ok: bool, n: string)
    requires Inv(w) && w.pc.Publishing?
    ensures !Overwrites(w, DoFileOp(cfg, w, ok), n) && DoFileOp(cfg, w, ok).overwritten == w.overwritten
  {
  }

  /** Short of a crash, an undelivered record is overwritten in memory exactly when the guard holds, and only
      then does the history of overwritten incidents change. */
  lemma OverwriteCondition(cfg: Config, steps: seq<Step>, step: Step, n: string)
    requires !step.Crash?
    ensures var w := Reached(cfg, steps); var w' := Do(cfg, w, step);
      && (Overwrites(w, w', n) <==>
           (step.Observe? && step.obs.name == n && w.pc.Idle?
            && OverwriteGuard(cfg, Get(w.mem, n), step.obs, step.now, step.idOk)))
      && (if step.Observe? then RecordsOverwrite(w, w', step.obs.name) else w'.overwritten == w.overwritten)
  {
    var w := Reached(cfg, steps);
    ReachedInv(cfg, steps);
    if step.Observe? && w.pc.Idle? {
      EvaluationOverwrites(cfg, w, step.obs, step.now, step.idOk);
    } else if step.FileOp? && w.pc.Publishing? {
      FileOpOverwritesNothing(cfg, w, step.ok, n);
    }
  }

  /** The gauge of active alerts counts the active states, in every life of the process. */
  lemma GaugeCountsActives(cfg: Config, steps: seq<Step>)
    ensures var w := Reached(cfg, steps); w.active == |Actives(w.mem)|
  {
    ReachedInv(cfg, steps);
  }

  // ---- Restarts ----

  /** What a completed start has reconciled is saved: a crash right after it finds the same states, with nothing to send
      again that was written. */
  lemma StartIsDurable(cfg: Config, w: World)
    requires w.pc.Starting?
    ensures var started := Do(cfg, w, FinishStart(true));
      && started.pc.Idle? && started.mem == w.mem && started.log == w.log
      && Do(cfg, started, Crash).mem == w.mem
  {
  }
}
