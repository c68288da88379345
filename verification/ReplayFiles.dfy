/** The spool directories of the replayer (reprocesador/reprocessor.go): every rename and removal is a step
    that may fail, the process may stop between any two, and workers handle different pairs at once. */
module ReplayFiles {

  datatype Dir = Done | Bad | Archive

  datatype Part = Data | Meta

  datatype File = File(dir: Dir, name: string, part: Part)

  datatype Pair = Pair(data: string, meta: string)

  function Content(pair: Pair, part: Part): string {
    if part.Data? then pair.data else pair.meta
  }

  type Files = map<File, string>

  // ---- What a worker does to one pair ----

  datatype Pc = StatData | StatMeta | MoveData | MoveMeta | Rollback | RemoveData | RemoveMeta

  datatype Task = Task(dest: Dir, pc: Pc)

  /** `spool` holds the pairs the collector ever wrote, `before` what was in the other directories at the
      start. `condemned` pairs were found invalid by a scan and `acked` pairs were acknowledged by an insert;
      `interrupted` pairs are those whose rollback or second removal failed or met a crash. */
  datatype World = World(files: Files, before: Files, spool: map<string, Pair>, tasks: map<string, Task>,
                         condemned: set<string>, acked: set<string>, interrupted: set<string>)

  datatype Step =
    | SpoolData(name: string, pair: Pair)
    | SpoolMeta(name: string)
    | Quarantine(name: string)
    | Acknowledge(name: string)
    | Advance(name: string, ok: bool)
    | Crash

  predicate PairInDone(files: Files, n: string) {
    File(Done, n, Data) in files && File(Done, n, Meta) in files
  }

  /** Moves a file, replacing whatever has the new name. */
  function Rename(files: Files, from: File, to: File): Files
    requires from in files
  {
    (files - {from})[to := files[from]]
  }

  function Source(n: string, task: Task): File {
    match task.pc
    case MoveData => File(Done, n, Data)
    case MoveMeta => File(Done, n, Meta)
    case RemoveMeta => File(task.dest, n, Meta)
    case _ => File(task.dest, n, Data)
  }

  predicate Enabled(w: World, step: Step) {
    match step
    case SpoolData(n, _) => n !in w.spool
    case SpoolMeta(n) => n in w.spool && File(Done, n, Data) in w.files && File(Done, n, Meta) !in w.files
    case Quarantine(n) => n in w.spool && n !in w.tasks && PairInDone(w.files, n)
    case Acknowledge(n) => n in w.spool && n !in w.tasks && PairInDone(w.files, n)
    case Advance(n, ok) =>
      && n in w.tasks
      && (ok && !w.tasks[n].pc.StatData? && !w.tasks[n].pc.StatMeta? ==> Source(n, w.tasks[n]) in w.files)
    case Crash => true
  }

  predicate Midway(pc: Pc) {
    pc.MoveMeta? || pc.Rollback? || pc.RemoveMeta?
  }

  function GoOn(w: World, n: string, pc: Pc): World
    requires n in w.tasks
  {
    w.(tasks := w.tasks[n := w.tasks[n].(pc := pc)])
  }

  function Drop(w: World, n: string): World {
    w.(tasks := w.tasks - {n})
  }

  /** The next operation on the pair `n`, which succeeds or fails. */
  function AdvanceTask(w: World, n: string, ok: bool, deletes: bool): World
    requires Enabled(w, Advance(n, ok))
  {
    var task := w.tasks[n];
    var data, meta := File(task.dest, n, Data), File(task.dest, n, Meta);
    match task.pc
    case StatData => if ok && data !in w.files then GoOn(w, n, StatMeta) else Drop(w, n)
    case StatMeta => if ok && meta !in w.files then GoOn(w, n, MoveData) else Drop(w, n)
    case MoveData =>
      if ok then GoOn(w, n, MoveMeta).(files := Rename(w.files, File(Done, n, Data), data)) else Drop(w, n)
    case MoveMeta =>
      if !ok then GoOn(w, n, Rollback)
      else
        var moved := w.(files := Rename(w.files, File(Done, n, Meta), meta));
        if task.dest.Archive? && deletes then GoOn(moved, n, RemoveData) else Drop(moved, n)
    case Rollback =>
      if ok then Drop(w, n).(files := Rename(w.files, data, File(Done, n, Data)))
      else Drop(w, n).(interrupted := w.interrupted + {n})
    case RemoveData => if ok then GoOn(w, n, RemoveMeta).(files := w.files - {data}) else Drop(w, n)
    case RemoveMeta =>
      if ok then Drop(w, n).(files := w.files - {meta}) else Drop(w, n).(interrupted := w.interrupted + {n})
  }

  function Do(w: World, step: Step, deletes: bool): World
    requires Enabled(w, step)
  {
    match step
    case SpoolData(n, pair) => w.(files := w.files[File(Done, n, Data) := pair.data], spool := w.spool[n := pair])
    case SpoolMeta(n) => w.(files := w.files[File(Done, n, Meta) := w.spool[n].meta])
    case Quarantine(n) => w.(tasks := w.tasks[n := Task(Bad, StatData)], condemned := w.condemned + {n})
    case Acknowledge(n) => w.(tasks := w.tasks[n := Task(Archive, StatData)], acked := w.acked + {n})
    case Advance(n, ok) => AdvanceTask(w, n, ok, deletes)
    case Crash => w.(tasks := map[], interrupted := w.interrupted + set n | n in w.tasks && Midway(w.tasks[n].pc))
  }

  // ---- Where a pair can be ----

  datatype Place = Arriving | InDone | Split(dest: Dir) | Moved(dest: Dir) | MetaLeft | Gone

  predicate Holds(place: Place, dir: Dir, part: Part) {
    match place
    case Arriving => dir.Done? && part.Data?
    case InDone => dir.Done?
    case Split(d) => if part.Data? then dir == d else dir.Done?
    case Moved(d) => dir == d
    case MetaLeft => dir.Archive? && part.Meta?
    case Gone => false
  }

  /** The pair of name `n` is at `place`, with its own contents, and nowhere else; every other file of that
      name is one that was there at the start, as it was. */
  predicate At(w: World, n: string, place: Place) {
    forall dir, part :: AtFile(w, n, place, dir, part)
  }

  predicate AtFile(w: World, n: string, place: Place, dir: Dir, part: Part) {
    var f := File(dir, n, part);
    if Holds(place, dir, part)
    then n in w.spool && f !in w.before && f in w.files && w.files[f] == Content(w.spool[n], part)
    else (f in w.files <==> f in w.before) && (f in w.before ==> w.files[f] == w.before[f])
  }

  /** Why a pair may leave `done`. */
  predicate Reason(w: World, n: string, dest: Dir) {
    match dest
    case Done => false
    case Bad => n in w.condemned
    case Archive => n in w.acked
  }

  predicate Checked(w: World, n: string, task: Task) {
    && (task.pc.StatMeta? || task.pc.MoveData? ==> File(task.dest, n, Data) !in w.files)
    && (task.pc.MoveData? ==> File(task.dest, n, Meta) !in w.files)
    && (task.pc.MoveMeta? || task.pc.Rollback? ==> File(task.dest, n, Meta) !in w.files)
  }

  /** What brought a pair to its place, and what its worker may still do. */
  predicate Justified(w: World, n: string, place: Place, deletes: bool) {
    && (n in w.tasks ==> Reason(w, n, w.tasks[n].dest) && Checked(w, n, w.tasks[n]))
    && match place
       case Arriving => n !in w.tasks
       case InDone => n in w.tasks ==> w.tasks[n].pc.StatData? || w.tasks[n].pc.StatMeta? || w.tasks[n].pc.MoveData?
       case Split(d) =>
         && Reason(w, n, d)
         && (if n in w.tasks then w.tasks[n] == Task(d, MoveMeta) || w.tasks[n] == Task(d, Rollback)
             else n in w.interrupted)
       case Moved(d) =>
         && Reason(w, n, d)
         && (n in w.tasks ==> deletes && w.tasks[n] == Task(Archive, RemoveData) && d.Archive?)
       case MetaLeft =>
         && deletes && n in w.acked
         && (if n in w.tasks then w.tasks[n] == Task(Archive, RemoveMeta) else n in w.interrupted)
       case Gone => n !in w.tasks && (n in w.spool ==> deletes && n in w.acked)
  }

  ghost predicate NameOk(w: World, n: string, deletes: bool) {
    exists place :: At(w, n, place) && Justified(w, n, place, deletes)
  }

  /** At the start: no task, what is in `done` is what the collector wrote, and `before` is the rest. */
  ghost predicate Init(w: World) {
    && w.tasks == map[] && w.condemned == {} && w.acked == {} && w.interrupted == {}
    && (forall f :: f in w.before ==> !f.dir.Done?)
    && (forall n :: At(w, n, if n !in w.spool then Gone else if File(Done, n, Meta) in w.files then InDone else Arriving))
  }

  /** Two worlds agree on the pair of name `n`. */
  ghost predicate SameName(w: World, w': World, n: string) {
    && w'.before == w.before
    && (n in w.spool <==> n in w'.spool) && (n in w.spool ==> w'.spool[n] == w.spool[n])
    && (forall dir, part :: SameFile(w, w', File(dir, n, part)))
    && (n in w.tasks <==> n in w'.tasks) && (n in w.tasks ==> w'.tasks[n] == w.tasks[n])
    && w.condemned <= w'.condemned && w.acked <= w'.acked && w.interrupted <= w'.interrupted
  }

  predicate SameFile(w: World, w': World, f: File) {
    (f in w'.files <==> f in w.files) && (f in w.files ==> w'.files[f] == w.files[f])
  }

  lemma SameNameStaysOk(w: World, w': World, n: string, deletes: bool)
    requires NameOk(w, n, deletes) && SameName(w, w', n)
    ensures NameOk(w', n, deletes)
  {
    var place :| At(w, n, place) && Justified(w, n, place, deletes);
    forall dir, part ensures AtFile(w', n, place, dir, part) {
      assert AtFile(w, n, place, dir, part) && SameFile(w, w', File(dir, n, part));
    }
    assert n in w.tasks ==> SameFile(w, w', File(w.tasks[n].dest, n, Data)) && SameFile(w, w', File(w.tasks[n].dest, n, Meta));
    assert At(w', n, place) && Justified(w', n, place, deletes);
  }

  lemma TaskIsLocal(w: World, n: string, ok: bool, deletes: bool, other: string)
    requires Enabled(w, Advance(n, ok)) && other != n
    ensures SameName(w, AdvanceTask(w, n, ok, deletes), other)
  {
    match w.tasks[n].pc
    case StatData =>
    case StatMeta =>
    case MoveData =>
    case MoveMeta =>
    case Rollback =>
    case RemoveData =>
    case RemoveMeta =>
  }

  lemma StepIsLocal(w: World, step: Step, deletes: bool, other: string)
    requires Enabled(w, step) && !step.Crash? && step.name != other
    ensures SameName(w, Do(w, step, deletes), other)
  {
    match step
    case Advance(n, ok) => TaskIsLocal(w, n, ok, deletes, other);
    case _ =>
  }

  // ---- Each operation of a task ----

  /** A task that only looks, or whose operation changed nothing, leaves the pair where it is. */
  lemma LookingKeepsPlace(w: World, n: string, ok: bool, place: Place, deletes: bool)
    requires At(w, n, place) && Justified(w, n, place, deletes) && Enabled(w, Advance(n, ok))
    requires w.tasks[n].pc.StatData? || w.tasks[n].pc.StatMeta? || !ok
    ensures At(AdvanceTask(w, n, ok, deletes), n, place) && Justified(AdvanceTask(w, n, ok, deletes), n, place, deletes)
  {
    var w' := AdvanceTask(w, n, ok, deletes);
    forall dir, part ensures AtFile(w', n, place, dir, part) {
      assert AtFile(w, n, place, dir, part);
    }
  }

  lemma MoveDataSplits(w: World, n: string, deletes: bool)
    requires At(w, n, InDone) && Justified(w, n, InDone, deletes) && Enabled(w, Advance(n, true)) && w.tasks[n].pc.MoveData?
    ensures var w', place := AdvanceTask(w, n, true, deletes), Split(w.tasks[n].dest);
      At(w', n, place) && Justified(w', n, place, deletes)
  {
    var w', d := AdvanceTask(w, n, true, deletes), w.tasks[n].dest;
    forall dir, part ensures AtFile(w', n, Split(d), dir, part) {
      assert AtFile(w, n, InDone, dir, part) && AtFile(w, n, InDone, Done, Data);
    }
  }

  lemma MoveMetaJoins(w: World, n: string, deletes: bool)
    requires n in w.tasks && At(w, n, Split(w.tasks[n].dest)) && Justified(w, n, Split(w.tasks[n].dest), deletes)
    requires Enabled(w, Advance(n, true)) && w.tasks[n].pc.MoveMeta?
    ensures var w', place := AdvanceTask(w, n, true, deletes), Moved(w.tasks[n].dest);
      At(w', n, place) && Justified(w', n, place, deletes)
  {
    var w', d := AdvanceTask(w, n, true, deletes), w.tasks[n].dest;
    forall dir, part ensures AtFile(w', n, Moved(d), dir, part) {
      assert AtFile(w, n, Split(d), dir, part) && AtFile(w, n, Split(d), Done, Meta);
    }
  }

  lemma RollbackRestores(w: World, n: string, deletes: bool)
    requires n in w.tasks && At(w, n, Split(w.tasks[n].dest)) && Justified(w, n, Split(w.tasks[n].dest), deletes)
    requires Enabled(w, Advance(n, true)) && w.tasks[n].pc.Rollback? && (forall f :: f in w.before ==> !f.dir.Done?)
    ensures var w' := AdvanceTask(w, n, true, deletes); At(w', n, InDone) && Justified(w', n, InDone, deletes)
  {
    var w', d := AdvanceTask(w, n, true, deletes), w.tasks[n].dest;
    forall dir, part ensures AtFile(w', n, InDone, dir, part) {
      assert AtFile(w, n, Split(d), dir, part) && AtFile(w, n, Split(d), d, Data);
    }
  }

  lemma RemovalsEmpty(w: World, n: string, place: Place, deletes: bool)
    requires At(w, n, place) && Justified(w, n, place, deletes) && Enabled(w, Advance(n, true))
    requires w.tasks[n].pc.RemoveData? || w.tasks[n].pc.RemoveMeta?
    ensures var w', place' := AdvanceTask(w, n, true, deletes), if w.tasks[n].pc.RemoveData? then MetaLeft else Gone;
      At(w', n, place') && Justified(w', n, place', deletes)
  {
    var w', place' := AdvanceTask(w, n, true, deletes), if w.tasks[n].pc.RemoveData? then MetaLeft else Gone;
    forall dir, part ensures AtFile(w', n, place', dir, part) {
      assert AtFile(w, n, place, dir, part);
    }
  }

  lemma AdvanceKeepsOk(w: World, n: string, ok: bool, deletes: bool)
    requires NameOk(w, n, deletes) && Enabled(w, Advance(n, ok)) && (forall f :: f in w.before ==> !f.dir.Done?)
    ensures NameOk(AdvanceTask(w, n, ok, deletes), n, deletes)
  {
    var place :| At(w, n, place) && Justified(w, n, place, deletes);
    var pc := w.tasks[n].pc;
    if pc.StatData? || pc.StatMeta? || !ok {
      LookingKeepsPlace(w, n, ok, place, deletes);
    } else {
      match pc {
        case MoveData => MoveDataSplits(w, n, deletes);
        case MoveMeta => MoveMetaJoins(w, n, deletes);
        case Rollback => RollbackRestores(w, n, deletes);
        case _ => RemovalsEmpty(w, n, place, deletes);
      }
    }
  }

  // ---- Every step ----

  lemma SpoolKeepsOk(w: World, n: string, step: Step, deletes: bool)
    requires NameOk(w, n, deletes) && Enabled(w, step) && (forall f :: f in w.before ==> !f.dir.Done?)
    requires step == SpoolMeta(n) || (step.SpoolData? && step.name == n)
    ensures NameOk(Do(w, step, deletes), n, deletes)
  {
    var place :| At(w, n, place) && Justified(w, n, place, deletes);
    var w', place' := Do(w, step, deletes), if step.SpoolData? then Arriving else InDone;
    assert AtFile(w, n, place, Done, Data) && AtFile(w, n, place, Done, Meta);
    assert AtFile(w, n, place, Bad, Meta) && AtFile(w, n, place, Archive, Meta);
    forall dir, part ensures AtFile(w', n, place', dir, part) {
      assert AtFile(w, n, place, dir, part);
    }
    assert At(w', n, place') && Justified(w', n, place', deletes);
  }

  lemma StartKeepsOk(w: World, n: string, step: Step, deletes: bool)
    requires NameOk(w, n, deletes) && Enabled(w, step) && (forall f :: f in w.before ==> !f.dir.Done?)
    requires step == Quarantine(n) || step == Acknowledge(n)
    ensures NameOk(Do(w, step, deletes), n, deletes)
  {
    var place :| At(w, n, place) && Justified(w, n, place, deletes);
    var w' := Do(w, step, deletes);
    assert AtFile(w, n, place, Done, Data) && AtFile(w, n, place, Done, Meta);
    forall dir, part ensures AtFile(w', n, InDone, dir, part) {
      assert AtFile(w, n, place, dir, part);
    }
    assert At(w', n, InDone) && Justified(w', n, InDone, deletes);
  }

  lemma CrashKeepsOk(w: World, n: string, deletes: bool)
    requires NameOk(w, n, deletes)
    ensures NameOk(Do(w, Crash, deletes), n, deletes)
  {
    var place :| At(w, n, place) && Justified(w, n, place, deletes);
    var w' := Do(w, Crash, deletes);
    forall dir, part ensures AtFile(w', n, place, dir, part) {
      assert AtFile(w, n, place, dir, part);
    }
    assert At(w', n, place) && Justified(w', n, place, deletes);
  }

  ghost predicate AllOk(w: World, deletes: bool) {
    && (forall f :: f in w.before ==> !f.dir.Done?)
    && (forall n :: NameOk(w, n, deletes))
  }

  lemma StepKeepsOk(w: World, step: Step, deletes: bool)
    requires AllOk(w, deletes) && Enabled(w, step)
    ensures AllOk(Do(w, step, deletes), deletes)
  {
    var w' := Do(w, step, deletes);
    forall n ensures NameOk(w', n, deletes) {
      assert NameOk(w, n, deletes);
      if step.Crash? {
        CrashKeepsOk(w, n, deletes);
      } else if step.name != n {
        StepIsLocal(w, step, deletes, n);
        SameNameStaysOk(w, w', n, deletes);
      } else if step.Advance? {
        AdvanceKeepsOk(w, n, step.ok, deletes);
      } else if step.Quarantine? || step.Acknowledge? {
        StartKeepsOk(w, n, step, deletes);
      } else {
        SpoolKeepsOk(w, n, step, deletes);
      }
    }
  }

  ghost predicate IsRun(ws: seq<World>, steps: seq<Step>, deletes: bool) {
    && |ws| == |steps| + 1 && Init(ws[0])
    && forall k :: 0 <= k < |steps| ==> Enabled(ws[k], steps[k]) && ws[k + 1] == Do(ws[k], steps[k], deletes)
  }

  lemma {:induction false} RunIsOk(ws: seq<World>, steps: seq<Step>, k: nat, deletes: bool)
    requires IsRun(ws, steps, deletes) && k <= |steps|
    ensures AllOk(ws[k], deletes)
  {
    if k == 0 {
      var w := ws[0];
      forall n ensures NameOk(w, n, deletes) {
        var place := if n !in w.spool then Gone else if File(Done, n, Meta) in w.files then InDone else Arriving;
        assert At(w, n, place) && Justified(w, n, place, deletes);
      }
    } else {
      RunIsOk(ws, steps, k - 1, deletes);
      StepKeepsOk(ws[k - 1], steps[k - 1], deletes);
    }
  }

  // ---- What every run keeps ----

  predicate Whole(w: World, n: string) {
    At(w, n, Arriving) || At(w, n, InDone) || At(w, n, Moved(Bad)) || At(w, n, Moved(Archive)) || At(w, n, Gone)
  }

  predicate Torn(w: World, n: string) {
    At(w, n, Split(Bad)) || At(w, n, Split(Archive)) || At(w, n, MetaLeft)
  }

  /** In every run, with any failures and crashes and any workers at once, a pair is whole in one directory or
      deleted, except while its worker is between two renames or two removals, or after a failed rollback, a
      failed second removal or a crash left it there. It is in `bad` only if a scan condemned it, and in the
      archive or deleted only after an acknowledged insert. */
  lemma PairsAreConserved(ws: seq<World>, steps: seq<Step>, k: nat, n: string, deletes: bool)
    requires IsRun(ws, steps, deletes) && k <= |steps| && n in ws[k].spool
    ensures var w := ws[k];
      && (Whole(w, n) || (Torn(w, n) && ((n in w.tasks && Midway(w.tasks[n].pc)) || n in w.interrupted)))
      && (At(w, n, Moved(Bad)) || At(w, n, Split(Bad)) ==> n in w.condemned)
      && (At(w, n, Moved(Archive)) || At(w, n, Split(Archive)) ==> n in w.acked)
      && (At(w, n, MetaLeft) || At(w, n, Gone) ==> n in w.acked && deletes)
  {
    var w := ws[k];
    RunIsOk(ws, steps, k, deletes);
    assert NameOk(w, n, deletes);
    var place :| At(w, n, place) && Justified(w, n, place, deletes);
    PlacesExclude(w, n, place);
  }

  /** A pair is in one place only. */
  lemma PlacesExclude(w: World, n: string, place: Place)
    requires n in w.spool && At(w, n, place) && (place.Split? || place.Moved? ==> !place.dest.Done?)
    ensures forall other :: At(w, n, other) && (other.Split? || other.Moved? ==> !other.dest.Done?) ==> other == place
  {
    forall other | At(w, n, other) && (other.Split? || other.Moved? ==> !other.dest.Done?) ensures other == place {
      forall dir, part ensures Holds(other, dir, part) == Holds(place, dir, part) {
        assert AtFile(w, n, place, dir, part) && AtFile(w, n, other, dir, part);
      }
      assert Holds(other, Done, Data) == Holds(place, Done, Data) && Holds(other, Done, Meta) == Holds(place, Done, Meta);
      assert Holds(other, Bad, Data) == Holds(place, Bad, Data) && Holds(other, Bad, Meta) == Holds(place, Bad, Meta);
      assert Holds(other, Archive, Data) == Holds(place, Archive, Data);
      assert Holds(other, Archive, Meta) == Holds(place, Archive, Meta);
    }
  }

  /** What was in the other directories at the start is never overwritten or removed. */
  lemma NothingIsOverwritten(ws: seq<World>, steps: seq<Step>, k: nat, f: File, deletes: bool)
    requires IsRun(ws, steps, deletes) && k <= |steps| && f in ws[0].before
    ensures f in ws[k].files && ws[k].files[f] == ws[0].before[f]
  {
    RunIsOk(ws, steps, k, deletes);
    BeforeStays(ws, steps, k, deletes);
    var w := ws[k];
    assert NameOk(w, f.name, deletes);
    var place :| At(w, f.name, place) && Justified(w, f.name, place, deletes);
    assert AtFile(w, f.name, place, f.dir, f.part);
  }

  lemma {:induction false} BeforeStays(ws: seq<World>, steps: seq<Step>, k: nat, deletes: bool)
    requires IsRun(ws, steps, deletes) && k <= |steps|
    ensures ws[k].before == ws[0].before
  {
    if k > 0 {
      BeforeStays(ws, steps, k - 1, deletes);
    }
  }
}
