/** Moving and finalizing one pair as the replayer's own code does it (reprocesador/reprocessor.go), proved to
    be exactly the machine's steps on that pair. */
module Replayers {
  import opened ReplayFiles

  // ---- All operations on one pair ----

  function Rank(pc: Pc): nat {
    match pc
    case StatData => 6
    case StatMeta => 5
    case MoveData => 4
    case MoveMeta => 3
    case RemoveData => 2
    case _ => 1
  }

  /** An operation succeeds unless it is one of the failing ones or its file is missing. */
  predicate Succeeds(w: World, n: string, failing: set<Pc>)
    requires n in w.tasks
  {
    var pc := w.tasks[n].pc;
    pc !in failing && (pc.StatData? || pc.StatMeta? || Source(n, w.tasks[n]) in w.files)
  }

  function Settle(w: World, n: string, failing: set<Pc>, deletes: bool): World
    decreases if n in w.tasks then Rank(w.tasks[n].pc) else 0
  {
    if n in w.tasks then Settle(AdvanceTask(w, n, Succeeds(w, n, failing), deletes), n, failing, deletes) else w
  }

  lemma SettleStep(w: World, n: string, failing: set<Pc>, deletes: bool)
    requires n in w.tasks
    ensures Settle(w, n, failing, deletes) == Settle(AdvanceTask(w, n, Succeeds(w, n, failing), deletes), n, failing, deletes)
  {
  }

  lemma {:induction false} SettleKeepsOk(w: World, n: string, failing: set<Pc>, deletes: bool)
    requires AllOk(w, deletes)
    ensures AllOk(Settle(w, n, failing, deletes), deletes) && n !in Settle(w, n, failing, deletes).tasks
    decreases if n in w.tasks then Rank(w.tasks[n].pc) else 0
  {
    if n in w.tasks {
      var ok := Succeeds(w, n, failing);
      StepKeepsOk(w, Advance(n, ok), deletes);
      SettleKeepsOk(AdvanceTask(w, n, ok, deletes), n, failing, deletes);
    }
  }

  /** A task started on a pair in `done`. */
  predicate Starts(w: World, n: string, files: Files, task: Task) {
    n in w.tasks && w.tasks[n] == task && w.files == files
  }

  /** The data file is at `dest` and so, unless the pair is torn, is its metadata; every other file is as it
      was, and no file was replaced. */
  ghost predicate PairKept(files: Files, files': Files, n: string, dest: Dir, torn: bool) {
    var data, meta, destData, destMeta := File(Done, n, Data), File(Done, n, Meta), File(dest, n, Data), File(dest, n, Meta);
    && data in files && destData !in files && destMeta !in files
    && data !in files' && destData in files' && files'[destData] == files[data]
    && (!torn ==> meta in files && meta !in files' && destMeta in files' && files'[destMeta] == files[meta])
    && (forall f :: f != data && f != destData && (torn || (f != meta && f != destMeta)) ==>
          (f in files' <==> f in files) && (f in files ==> files'[f] == files[f]))
  }

  predicate PairIn(files: Files, dir: Dir, n: string) {
    File(dir, n, Data) in files && File(dir, n, Meta) in files
  }

  predicate NothingIn(files: Files, dir: Dir, n: string) {
    File(dir, n, Data) !in files && File(dir, n, Meta) !in files
  }

  /** What is left to do when the move is over. */
  predicate MoveEnds(after: World, n: string, files: Files, dest: Dir, moved: bool, deletes: bool) {
    && after.files == files
    && (if moved && dest.Archive? && deletes then n in after.tasks && after.tasks[n] == Task(dest, RemoveData)
        else n !in after.tasks)
  }

  /** The move ends before any rename. */
  predicate Blocked(files: Files, n: string, dest: Dir, failing: set<Pc>) {
    || StatData in failing || File(dest, n, Data) in files
    || StatMeta in failing || File(dest, n, Meta) in files
    || MoveData in failing || File(Done, n, Data) !in files
  }

  lemma SettleToFirstRename(w: World, n: string, dest: Dir, failing: set<Pc>, deletes: bool) returns (after: World)
    requires Starts(w, n, w.files, Task(dest, StatData))
    ensures Settle(w, n, failing, deletes) == Settle(after, n, failing, deletes)
    ensures Blocked(w.files, n, dest, failing) ==> n !in after.tasks && after.files == w.files
    ensures !Blocked(w.files, n, dest, failing) ==>
      Starts(after, n, Rename(w.files, File(Done, n, Data), File(dest, n, Data)), Task(dest, MoveMeta))
  {
    SettleStep(w, n, failing, deletes);
    after := AdvanceTask(w, n, Succeeds(w, n, failing), deletes);
    if !(StatData in failing || File(dest, n, Data) in w.files) {
      SettleStep(after, n, failing, deletes);
      after := AdvanceTask(after, n, Succeeds(after, n, failing), deletes);
      if !(StatMeta in failing || File(dest, n, Meta) in w.files) {
        SettleStep(after, n, failing, deletes);
        after := AdvanceTask(after, n, Succeeds(after, n, failing), deletes);
      }
    }
  }

  datatype MoveResult = Moved | Refused | TornApart

  class Replayer {
    var files: Files

    constructor (files: Files)
      ensures this.files == files
    {
      this.files := files;
    }

    /** The second half of a move: the metadata follows the data, or the data goes back. */
    method MoveMetaOrRollBack(n: string, dest: Dir, failing: set<Pc>, ghost w: World, ghost deletes: bool)
      returns (r: MoveResult, ghost after: World)
      requires !dest.Done? && Starts(w, n, files, Task(dest, MoveMeta))
      requires File(dest, n, Data) in files && File(Done, n, Data) !in files
      modifies this`files
      ensures files == match r
        case Moved =>
          if File(Done, n, Meta) in old(files) then Rename(old(files), File(Done, n, Meta), File(dest, n, Meta))
          else old(files)
        case Refused => Rename(old(files), File(dest, n, Data), File(Done, n, Data))
        case TornApart => old(files)
      ensures r.Moved? <==> MoveMeta !in failing && File(Done, n, Meta) in old(files)
      ensures r.TornApart? ==> Rollback in failing
      ensures Settle(w, n, failing, deletes) == Settle(after, n, failing, deletes)
      ensures MoveEnds(after, n, files, dest, r.Moved?, deletes)
    {
      SettleStep(w, n, failing, deletes);
      after := AdvanceTask(w, n, Succeeds(w, n, failing), deletes);
      if MoveMeta !in failing && File(Done, n, Meta) in files {
        files := Rename(files, File(Done, n, Meta), File(dest, n, Meta));
        return MoveResult.Moved, after;
      }
      SettleStep(after, n, failing, deletes);
      after := AdvanceTask(after, n, Succeeds(after, n, failing), deletes);
      if Rollback in failing {
        return TornApart, after;
      }
      files := Rename(files, File(dest, n, Data), File(Done, n, Data));
      r := Refused;
    }

    /** Moves both files of a pair, or leaves them, or after a failed rollback leaves the pair torn. */
    method MovePair(n: string, dest: Dir, failing: set<Pc>, ghost w: World, ghost deletes: bool)
      returns (r: MoveResult, ghost after: World)
      requires !dest.Done? && Starts(w, n, files, Task(dest, StatData))
      modifies this`files
      ensures r.Refused? ==> files == old(files)
      ensures !r.Refused? ==> PairKept(old(files), files, n, dest, r.TornApart?)
      ensures r.TornApart? ==> Rollback in failing && (MoveMeta in failing || File(Done, n, Meta) !in old(files))
      ensures r.Moved? <==>
        && {StatData, StatMeta, MoveData, MoveMeta} !! failing
        && PairIn(old(files), Done, n) && NothingIn(old(files), dest, n)
      ensures Settle(w, n, failing, deletes) == Settle(after, n, failing, deletes)
      ensures MoveEnds(after, n, files, dest, r.Moved?, deletes)
    {
      after := SettleToFirstRename(w, n, dest, failing, deletes);
      if StatData in failing || File(dest, n, Data) in files {
        return Refused, after;
      }
      if StatMeta in failing || File(dest, n, Meta) in files {
        return Refused, after;
      }
      if MoveData in failing || File(Done, n, Data) !in files {
        return Refused, after;
      }
      files := Rename(files, File(Done, n, Data), File(dest, n, Data));
      r, after := MoveMetaOrRollBack(n, dest, failing, after, deletes);
      if r.Refused? {
        assert files == old(files);
      }
    }

    /** Removes an archived pair, data first. */
    method RemoveArchived(n: string, failing: set<Pc>, ghost w: World) returns (ok: bool)
      requires Starts(w, n, files, Task(Archive, RemoveData)) && PairIn(files, Archive, n)
      modifies this`files
      ensures files == Settle(w, n, failing, true).files
      ensures ok <==> RemoveData !in failing && RemoveMeta !in failing
      ensures files == old(files) - (if RemoveData in failing then {} else {File(Archive, n, Data)})
                                  - (if RemoveData in failing || RemoveMeta in failing then {} else {File(Archive, n, Meta)})
    {
      ghost var after := w;
      SettleStep(after, n, failing, true);
      after := AdvanceTask(after, n, Succeeds(after, n, failing), true);
      if RemoveData in failing {
        return false;
      }
      files := files - {File(Archive, n, Data)};
      SettleStep(after, n, failing, true);
      after := AdvanceTask(after, n, Succeeds(after, n, failing), true);
      if RemoveMeta in failing {
        return false;
      }
      files := files - {File(Archive, n, Meta)};
      ok := true;
    }

    /** Archives an acknowledged pair, and removes it from the archive when pairs are to be deleted. */
    method FinalizeSuccess(n: string, failing: set<Pc>, deletes: bool, ghost w: World) returns (ok: bool)
      requires Starts(w, n, files, Task(Archive, StatData))
      modifies this`files
      ensures files == Settle(w, n, failing, deletes).files
      ensures ok <==>
        && {StatData, StatMeta, MoveData, MoveMeta} !! failing && (deletes ==> {RemoveData, RemoveMeta} !! failing)
        && PairIn(old(files), Done, n) && NothingIn(old(files), Archive, n)
      ensures ok && !deletes ==> PairKept(old(files), files, n, Archive, false)
      ensures ok && deletes ==> NothingIn(files, Done, n) && NothingIn(files, Archive, n)
    {
      ghost var after;
      var r;
      r, after := MovePair(n, Archive, failing, w, deletes);
      if !r.Moved? || !deletes {
        return r.Moved?;
      }
      ok := RemoveArchived(n, failing, after);
    }

    /** Sends one candidate: up to `maxRetries` inserts, the first acknowledged one followed by its archiving, and nothing
        moved without one. `answers` tells which inserts are acknowledged and `cancels` after which attempt the wait
        for the next is cut short. */
    method ProcessCandidate(n: string, answers: seq<bool>, cancels: seq<bool>, maxRetries: nat, failing: set<Pc>,
                            deletes: bool, ghost w: World)
      returns (ok: bool, inserted: bool, attempts: nat)
      requires maxRetries >= 1 && |answers| == |cancels| == maxRetries
      requires w.files == files && Enabled(w, Acknowledge(n))
      modifies this`files
      ensures 1 <= attempts <= maxRetries && inserted == answers[attempts - 1]
      ensures forall k :: 0 <= k < attempts - 1 ==> !answers[k] && !cancels[k]
      ensures !inserted ==> attempts == maxRetries || cancels[attempts - 1]
      ensures ok <==>
        && inserted && NothingIn(old(files), Archive, n)
        && {StatData, StatMeta, MoveData, MoveMeta} !! failing && (deletes ==> {RemoveData, RemoveMeta} !! failing)
      ensures files == if inserted then Settle(Do(w, Acknowledge(n), deletes), n, failing, deletes).files else old(files)
      ensures ok && !deletes ==> PairKept(old(files), files, n, Archive, false)
      ensures ok && deletes ==> NothingIn(files, Done, n) && NothingIn(files, Archive, n)
    {
      ok, inserted, attempts := false, false, 0;
      while attempts < maxRetries
        invariant attempts <= maxRetries && files == old(files) && !ok && !inserted
        invariant forall k :: 0 <= k < attempts ==> !answers[k] && (k < maxRetries - 1 ==> !cancels[k])
      {
        attempts := attempts + 1;
        if answers[attempts - 1] {
          inserted := true;
          ok := FinalizeSuccess(n, failing, deletes, Do(w, Acknowledge(n), deletes));
          return;
        }
        if attempts < maxRetries && cancels[attempts - 1] {
          return;
        }
      }
    }
  }
}
