/** What every run of the alert protocol keeps. */
module AlertInvariants {
  import opened Options
  import opened Alerts

  /** `b` may follow `a` as the record of one alert: a later incident, or the same incident with an
      indicator that did not fall; a cleared incident never changes again. */
  predicate Precedes(a: Record, b: Record) {
    || a.id < b.id
    || (&& a.id == b.id && a.name == b.name && a.start == b.start && a.threshold == b.threshold
        && a.hostname == b.hostname && a.ip == b.ip && a.indicator <= b.indicator
        && (!a.phase.Active? ==> a == b))
  }

  predicate WellFormed(r: Record, n: string, owner: seq<string>) {
    || r == NoRecord
    || (&& 0 < r.id < |owner| && owner[r.id] == n && r.name == n
        && ((r.phase.Active? && r.end.None?) || (r.phase.Cleared? && r.end.Some?)))
  }

  predicate StateOk(s: AlertState, n: string, owner: seq<string>) {
    && WellFormed(s.record, n, owner)
    && (s.active <==> s.record.phase.Active?)
    && (s.dirty ==> s.record != NoRecord)
  }

  ghost predicate StatesOk(m: States, owner: seq<string>) {
    forall n :: StateOk(Get(m, n), n, owner)
  }

  ghost predicate LogOk(log: seq<Record>, owner: seq<string>) {
    && (forall i :: 0 <= i < |log| ==> log[i] != NoRecord && WellFormed(log[i], log[i].name, owner))
    && (forall i, j :: 0 <= i < j < |log| && log[i].name == log[j].name ==> Precedes(log[i], log[j]))
  }

  /** The chain log <= disk <= memory, with equality to the log wherever the state is clean. */
  predicate ChainAt(w: World, n: string) {
    && Precedes(LastOf(w.log, n), Get(w.disk, n).record)
    && Precedes(Get(w.disk, n).record, Get(w.mem, n).record)
    && (!Get(w.mem, n).dirty ==> Get(w.mem, n).record == LastOf(w.log, n))
    && (!Get(w.disk, n).dirty ==> Get(w.disk, n).record == LastOf(w.log, n))
  }

  ghost predicate Chain(w: World) {
    forall n :: ChainAt(w, n)
  }

  ghost predicate ClosedInLog(log: seq<Record>, id: nat) {
    exists j :: 0 <= j < |log| && log[j].id == id && log[j].phase.Cleared?
  }

  /** An enqueued incident is still current in `m`, or its CLEARED record was enqueued, or it was
      overwritten while undelivered. */
  ghost predicate SettledAt(w: World, m: States, i: nat)
    requires i < |w.log|
  {
    || w.log[i].id == Get(m, w.log[i].name).record.id
    || ClosedInLog(w.log, w.log[i].id)
    || w.log[i].id in w.overwritten
  }

  ghost predicate Settled(w: World, m: States) {
    forall i: nat :: i < |w.log| ==> SettledAt(w, m, i)
  }

  ghost predicate PcOk(w: World) {
    match w.pc
    case Idle => true
    case Starting => forall n :: Get(w.mem, n) == Get(w.disk, n) || Get(w.mem, n) == Get(w.disk, n).(dirty := false)
    case Publishing(n, stage, rest) =>
      && (stage.SaveFirst? || stage.Enqueue? ==> Get(w.mem, n).dirty)
      && (stage.Enqueue? ==> w.disk == w.mem)
      && (rest.Some? ==> rest.value.obs.name == n && !Get(w.mem, n).active)
      && (stage.SaveAgain? ==> !Get(w.mem, n).dirty)
  }

  predicate DeliveryOk(w: World) {
    && w.delivered <= |w.log|
    && w.outbox == w.log[w.delivered..]
    && (w.delivering ==> w.outbox != [] && w.sink != [] && w.sink[|w.sink| - 1] == w.delivered)
    && (w.sink == [] ==> w.delivered == 0)
    && (w.sink != [] ==>
          var last := w.sink[|w.sink| - 1];
          && Collapse(w.sink) == UpTo(last + 1)
          && w.delivered <= last + 1 <= w.delivered + 1
          && last < |w.log|)
  }

  ghost predicate Inv(w: World) {
    && |w.owner| >= 1
    && StatesOk(w.mem, w.owner)
    && StatesOk(w.disk, w.owner)
    && LogOk(w.log, w.owner)
    && Chain(w)
    && Settled(w, w.mem)
    && Settled(w, w.disk)
    && PcOk(w)
    && DeliveryOk(w)
    && w.active == ActiveCount(w.mem)
  }

  // ---- Facts about the last enqueued record ----

  lemma {:induction false} LastOfAppend(log: seq<Record>, r: Record, n: string)
    ensures LastOf(log + [r], n) == if r.name == n then r else LastOf(log, n)
  {
    assert (log + [r])[..|log|] == log;
  }

  lemma {:induction false} LastOfIsLast(log: seq<Record>, n: string)
    requires forall i :: 0 <= i < |log| ==> log[i] != NoRecord
    ensures LastOf(log, n) == NoRecord ==> forall i :: 0 <= i < |log| ==> log[i].name != n
    ensures LastOf(log, n) != NoRecord ==>
      exists j :: 0 <= j < |log| && log[j] == LastOf(log, n) && log[j].name == n
        && forall i :: j < i < |log| ==> log[i].name != n
  {
    if log == [] {
    } else if log[|log| - 1].name == n {
      assert log[|log| - 1] == LastOf(log, n);
    } else {
      var init := log[..|log| - 1];
      LastOfIsLast(init, n);
      if LastOf(init, n) != NoRecord {
        var j :| 0 <= j < |init| && init[j] == LastOf(init, n) && init[j].name == n
          && forall i :: j < i < |init| ==> init[i].name != n;
        assert log[j] == LastOf(log, n);
      } else {
        forall i | 0 <= i < |log| ensures log[i].name != n {
          assert i < |init| ==> init[i] == log[i];
        }
      }
    }
  }

  lemma {:induction false} PrecedesTransitive(a: Record, b: Record, c: Record)
    requires Precedes(a, b) && Precedes(b, c)
    ensures Precedes(a, c)
  {
  }

  /** Every enqueued record of `n` precedes the last one. */
  lemma LogPrecedesLast(w: World, i: nat)
    requires LogOk(w.log, w.owner) && i < |w.log|
    ensures Precedes(w.log[i], LastOf(w.log, w.log[i].name))
  {
    LastOfIsLast(w.log, w.log[i].name);
  }

  // ---- Enqueueing one record ----

  lemma EmitKeepsLog(w: World, n: string)
    requires Inv(w) && Get(w.mem, n).dirty
    ensures LogOk(Emit(w, n).log, w.owner)
  {
    var w' := Emit(w, n);
    var r := Get(w.mem, n).record;
    forall i | 0 <= i < |w.log| && w.log[i].name == r.name
      ensures Precedes(w.log[i], r)
    {
      assert StateOk(Get(w.mem, n), n, w.owner);
      LogPrecedesLast(w, i);
      assert ChainAt(w, n);
    }
  }

  lemma EmitKeepsChain(w: World, n: string)
    requires Inv(w) && Get(w.mem, n).dirty && Get(w.disk, n).record == Get(w.mem, n).record && Get(w.disk, n).dirty
    ensures Chain(Emit(w, n))
  {
    var w' := Emit(w, n);
    forall m ensures ChainAt(w', m) {
      assert ChainAt(w, m) && StateOk(Get(w.mem, n), n, w.owner);
      LastOfAppend(w.log, Get(w.mem, n).record, m);
    }
  }

  lemma EmitKeepsSettled(w: World, n: string, m: States)
    requires Inv(w) && Get(w.mem, n).dirty && Settled(w, m)
    requires Get(m, n).record == Get(w.mem, n).record
    ensures Settled(Emit(w, n), m)
    ensures Settled(Emit(w, n), m[n := Get(w.mem, n).(dirty := false)])
  {
    var w' := Emit(w, n);
    var m' := m[n := Get(w.mem, n).(dirty := false)];
    assert StateOk(Get(w.mem, n), n, w.owner);
    forall i: nat | i < |w'.log|
      ensures SettledAt(w', m, i) && SettledAt(w', m', i)
    {
      if i < |w.log| {
        assert SettledAt(w, m, i) && w'.log[i] == w.log[i];
        assert Get(m', w.log[i].name).record == Get(m, w.log[i].name).record;
        ClosedGrows(w.log, Get(w.mem, n).record, w.log[i].id);
      }
    }
    assert Settled(w', m');
  }

  lemma ClosedGrows(log: seq<Record>, r: Record, id: nat)
    ensures ClosedInLog(log, id) ==> ClosedInLog(log + [r], id)
  {
    if ClosedInLog(log, id) {
      var j :| 0 <= j < |log| && log[j].id == id && log[j].phase.Cleared?;
      assert (log + [r])[j] == log[j];
    }
  }

  lemma ActiveCountUpdate(m: States, n: string, s: AlertState)
    ensures ActiveCount(m[n := s]) ==
      ActiveCount(m) + (if s.active then 1 else 0) - (if Get(m, n).active then 1 else 0)
  {
    var others := Actives(m) - {n};
    assert Actives(m[n := s]) - {n} == others;
    assert Actives(m[n := s]) == if s.active then others + {n} else others;
    assert Actives(m) == if Get(m, n).active then others + {n} else others;
  }

  lemma EmitKeepsDelivery(w: World, n: string)
    requires DeliveryOk(w)
    ensures DeliveryOk(Emit(w, n))
  {
    var r := Get(w.mem, n).record;
    assert (w.log + [r])[w.delivered..] == w.log[w.delivered..] + [r];
  }

  lemma EmitKeepsInv(w: World, n: string, pc: Pc)
    requires Inv(w) && Get(w.mem, n).dirty && Get(w.disk, n).record == Get(w.mem, n).record && Get(w.disk, n).dirty
    requires PcOk(Emit(w, n).(pc := pc))
    ensures Inv(Emit(w, n).(pc := pc))
  {
    var w' := Emit(w, n).(pc := pc);
    EmitKeepsLog(w, n);
    EmitKeepsChain(w, n);
    forall m ensures ChainAt(w', m) { assert ChainAt(Emit(w, n), m); }
    EmitKeepsSettled(w, n, w.mem);
    EmitKeepsSettled(w, n, w.disk);
    SettledFrame(Emit(w, n), w', w'.mem);
    SettledFrame(Emit(w, n), w', w'.disk);
    EmitKeepsDelivery(w, n);
    ActiveCountUpdate(w.mem, n, Get(w'.mem, n));
    forall m ensures StateOk(Get(w'.mem, m), m, w'.owner) { assert StateOk(Get(w.mem, m), m, w.owner); }
  }

  lemma SettledFrame(w: World, w': World, m: States)
    requires Settled(w, m) && w'.log == w.log && w'.overwritten >= w.overwritten
    ensures Settled(w', m)
  {
    forall i: nat | i < |w'.log| ensures SettledAt(w', m, i) { assert SettledAt(w, m, i); }
  }

  // ---- Steps of the evaluator ----

  /** Any change of memory for one alert that keeps or advances its record, and marks it dirty if it
      changed the record. */
  lemma MemoryStep(w: World, w': World, n: string, s: AlertState)
    requires Inv(w)
    requires w' == w.(mem := w.mem[n := s], pc := w'.pc, active := w'.active, openings := w'.openings,
                      clearings := w'.clearings)
    requires StateOk(s, n, w.owner) && Precedes(Get(w.mem, n).record, s.record)
    requires s.record.id == Get(w.mem, n).record.id
    requires !s.dirty ==> !Get(w.mem, n).dirty && s.record == Get(w.mem, n).record
    requires w'.active == w.active + (if s.active then 1 else 0) - (if Get(w.mem, n).active then 1 else 0)
    requires PcOk(w')
    ensures Inv(w')
  {
    forall m ensures StateOk(Get(w'.mem, m), m, w'.owner) { assert StateOk(Get(w.mem, m), m, w.owner); }
    forall m ensures ChainAt(w', m) { assert ChainAt(w, m); }
    forall i: nat | i < |w'.log| ensures SettledAt(w', w'.mem, i) { assert SettledAt(w, w.mem, i); }
    SettledFrame(w, w', w'.disk);
    ActiveCountUpdate(w.mem, n, s);
  }

  lemma OpeningKeepsSettled(cfg: Config, w: World, obs: Observation, now: int)
    requires Inv(w) && !Get(w.mem, obs.name).active
    requires obs.indicator >= obs.threshold && Get(w.mem, obs.name).breach + 1 >= cfg.triggerWindows
    ensures var w' := Breach(cfg, w, obs, now, true); Settled(w', w'.mem)
  {
    var n := obs.name;
    var w' := Breach(cfg, w, obs, now, true);
    var replaced := Get(w.mem, n);
    assert StateOk(replaced, n, w.owner);
    forall i: nat | i < |w'.log| ensures SettledAt(w', w'.mem, i) {
      assert SettledAt(w, w.mem, i);
      if w.log[i].name == n && w.log[i].id == replaced.record.id && !replaced.dirty {
        // A clean inactive record is the last one enqueued, and it is CLEARED.
        assert ChainAt(w, n);
        LastOfIsLast(w.log, n);
        assert ClosedInLog(w.log, w.log[i].id);
      }
    }
  }

  /** Opening an incident is the only step that can overwrite an undelivered record. */
  lemma OpeningKeepsInv(cfg: Config, w: World, obs: Observation, now: int)
    requires Inv(w) && !Get(w.mem, obs.name).active
    requires obs.indicator >= obs.threshold && Get(w.mem, obs.name).breach + 1 >= cfg.triggerWindows
    ensures Inv(Breach(cfg, w, obs, now, true))
  {
    var n := obs.name;
    var w' := Breach(cfg, w, obs, now, true);
    OpeningKeepsStates(w, w', n);
    forall m ensures ChainAt(w', m) {
      assert ChainAt(w, m) && StateOk(Get(w.disk, m), m, w.owner);
    }
    OpeningKeepsSettled(cfg, w, obs, now);
    SettledFrame(w, w', w'.disk);
    ActiveCountUpdate(w.mem, n, Get(w'.mem, n));
  }

  lemma OpeningKeepsStates(w: World, w': World, n: string)
    requires Inv(w) && w'.disk == w.disk && w'.log == w.log && w'.owner == w.owner + [n]
    requires w'.mem == w.mem[n := Get(w'.mem, n)] && StateOk(Get(w'.mem, n), n, w'.owner)
    ensures StatesOk(w'.mem, w'.owner) && StatesOk(w'.disk, w'.owner) && LogOk(w'.log, w'.owner)
  {
    forall m ensures StateOk(Get(w'.mem, m), m, w'.owner) && StateOk(Get(w'.disk, m), m, w'.owner) {
      assert StateOk(Get(w.mem, m), m, w.owner) && StateOk(Get(w.disk, m), m, w.owner);
    }
  }

  lemma BreachKeepsInv(cfg: Config, w: World, obs: Observation, now: int, idOk: bool)
    requires Inv(w) && !Get(w.mem, obs.name).active
    ensures Inv(Breach(cfg, w, obs, now, idOk))
  {
    var s := Get(w.mem, obs.name);
    var w' := Breach(cfg, w, obs, now, idOk);
    assert StateOk(s, obs.name, w.owner);
    if obs.indicator < obs.threshold || s.breach + 1 < cfg.triggerWindows || !idOk {
      MemoryStep(w, w', obs.name, Get(w'.mem, obs.name));
    } else {
      OpeningKeepsInv(cfg, w, obs, now);
    }
  }

  lemma BeginKeepsInv(cfg: Config, w: World, obs: Observation, now: int, idOk: bool)
    requires Inv(w) && w.pc.Idle?
    ensures Inv(Begin(cfg, w, obs, now, idOk))
  {
    var s := Get(w.mem, obs.name);
    var w' := Begin(cfg, w, obs, now, idOk);
    assert StateOk(s, obs.name, w.owner);
    if s.active || (s.dirty && now - s.lastEmitted >= cfg.activeUpdate) {
      MemoryStep(w, w', obs.name, Get(w'.mem, obs.name));
    } else {
      BreachKeepsInv(cfg, w, obs, now, idOk);
    }
  }

  /** Saving the state file makes the disk equal to memory. */
  lemma SaveKeepsInv(w: World, pc: Pc)
    requires Inv(w) && PcOk(w.(disk := w.mem, pc := pc))
    ensures Inv(w.(disk := w.mem, pc := pc))
  {
    var w' := w.(disk := w.mem, pc := pc);
    forall m ensures ChainAt(w', m) {
      assert ChainAt(w, m);
      PrecedesTransitive(LastOf(w.log, m), Get(w.disk, m).record, Get(w.mem, m).record);
    }
    SettledFrame(w, w', w.mem);
  }

  lemma PcChange(w: World, w': World)
    requires Inv(w) && w' == w.(pc := w'.pc) && PcOk(w')
    ensures Inv(w')
  {
    forall m ensures ChainAt(w', m) { assert ChainAt(w, m); }
    SettledFrame(w, w', w.mem);
    SettledFrame(w, w', w.disk);
  }

  lemma FileOpKeepsInv(cfg: Config, w: World, ok: bool)
    requires Inv(w) && w.pc.Publishing?
    ensures Inv(DoFileOp(cfg, w, ok))
  {
    var n := w.pc.name;
    if !ok {
      PcChange(w, w.(pc := Idle));
    } else {
      match w.pc.stage
      case SaveFirst => SaveKeepsInv(w, w.pc.(stage := Enqueue));
      case Enqueue => EmitKeepsInv(w, n, w.pc.(stage := SaveAgain));
      case SaveAgain =>
        SaveKeepsInv(w, Idle);
        if w.pc.rest.Some? {
          var rest := w.pc.rest.value;
          BreachKeepsInv(cfg, w.(disk := w.mem, pc := Idle), rest.obs, rest.now, rest.idOk);
        }
    }
  }

  // ---- Restart and delivery ----

  lemma CrashKeepsInv(cfg: Config, w: World)
    requires Inv(w)
    ensures Inv(Do(cfg, w, Crash))
  {
    var w' := Do(cfg, w, Crash);
    forall m ensures ChainAt(w', m) { assert ChainAt(w, m); }
    SettledFrame(w, w', w.disk);
  }

  lemma ReconcileKeepsInv(cfg: Config, w: World, n: string)
    requires Inv(w) && w.pc.Starting? && Get(w.mem, n).dirty
    ensures Inv(Emit(w, n))
  {
    var w' := Emit(w, n);
    assert Get(w.mem, n) == Get(w.disk, n);
    forall m ensures Get(w'.mem, m) == Get(w'.disk, m) || Get(w'.mem, m) == Get(w'.disk, m).(dirty := false) {
      assert Get(w.mem, m) == Get(w.disk, m) || Get(w.mem, m) == Get(w.disk, m).(dirty := false);
    }
    EmitKeepsInv(w, n, Starting);
  }

  lemma CollapseAppend(s: seq<nat>, x: nat)
    ensures Collapse(s + [x]) == if s != [] && s[|s| - 1] == x then Collapse(s) else Collapse(s) + [x]
  {
    assert (s + [x])[..|s|] == s;
  }

  lemma UpToSnoc(k: nat)
    ensures UpTo(k + 1) == UpTo(k) + [k]
  {
  }

  lemma UpsertKeepsDelivery(w: World, sink: seq<nat>, delivering: bool)
    requires DeliveryOk(w) && !w.delivering && w.outbox != []
    requires sink == w.sink + [w.delivered]
    ensures DeliveryOk(w.(sink := sink, delivering := delivering))
  {
    CollapseAppend(w.sink, w.delivered);
    UpToSnoc(w.delivered);
    assert sink[|sink| - 1] == w.delivered;
    if w.sink == [] {
      assert Collapse(w.sink) == UpTo(0);
    }
  }

  lemma RemoveKeepsDelivery(w: World)
    requires DeliveryOk(w) && w.delivering
    ensures DeliveryOk(w.(outbox := w.outbox[1..], delivered := w.delivered + 1, delivering := false))
  {
    assert w.log[w.delivered..][1..] == w.log[w.delivered + 1..];
  }

  lemma UpsertKeepsInv(cfg: Config, w: World, result: UpsertResult)
    requires Inv(w)
    ensures Inv(Do(cfg, w, Upsert(result)))
  {
    if !w.delivering && w.outbox != [] && !result.Refused? {
      var sink := w.sink + [w.delivered];
      UpsertKeepsDelivery(w, sink, result.Applied?);
      DeliveryFrame(w, w.(sink := sink, delivering := result.Applied?));
    }
  }

  lemma RemoveKeepsInv(cfg: Config, w: World, ok: bool)
    requires Inv(w)
    ensures Inv(Do(cfg, w, Remove(ok)))
  {
    if w.delivering && ok {
      RemoveKeepsDelivery(w);
      DeliveryFrame(w, w.(outbox := w.outbox[1..], delivered := w.delivered + 1, delivering := false));
    } else if w.delivering {
      DeliveryFrame(w, w.(delivering := false));
    }
  }

  lemma DeliveryFrame(w: World, w': World)
    requires Inv(w) && DeliveryOk(w')
    requires w' == w.(outbox := w'.outbox, delivered := w'.delivered, sink := w'.sink, delivering := w'.delivering)
    ensures Inv(w')
  {
    forall m ensures ChainAt(w', m) { assert ChainAt(w, m); }
    SettledFrame(w, w', w.mem);
    SettledFrame(w, w', w.disk);
  }

  // ---- Runs ----

  lemma StepKeepsInv(cfg: Config, w: World, step: Step)
    requires Inv(w)
    ensures Inv(Do(cfg, w, step))
  {
    match step
    case Observe(obs, now, idOk) => if w.pc.Idle? { BeginKeepsInv(cfg, w, obs, now, idOk); }
    case FileOp(ok) => if w.pc.Publishing? { FileOpKeepsInv(cfg, w, ok); }
    case Reconcile(n, ok) => if w.pc.Starting? && Get(w.mem, n).dirty && ok { ReconcileKeepsInv(cfg, w, n); }
    case FinishStart(ok) =>
      if w.pc.Starting? && ok { SaveKeepsInv(w, Idle); }
      else if w.pc.Starting? { PcChange(w, w.(pc := Idle)); }
    case Crash => CrashKeepsInv(cfg, w);
    case Upsert(result) => UpsertKeepsInv(cfg, w, result);
    case Remove(ok) => RemoveKeepsInv(cfg, w, ok);
  }

  lemma {:induction false} RunKeepsInv(cfg: Config, w: World, steps: seq<Step>)
    requires Inv(w)
    ensures Inv(Exec(cfg, w, steps))
    decreases |steps|
  {
    if steps != [] {
      StepKeepsInv(cfg, w, steps[0]);
      RunKeepsInv(cfg, Do(cfg, w, steps[0]), steps[1..]);
    }
  }

  lemma InitInv()
    ensures Inv(Init)
  {
    var none: States := map[];
    assert Actives(none) == {};
  }
}
