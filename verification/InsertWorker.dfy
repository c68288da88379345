/** The retry loop of an insert worker (main.go), proved to be a run of the pipeline's steps. */
module InsertWorkers {
  import opened Options
  import opened Cohorts
  import opened Pipeline

  /** `trace` is what the pipeline goes through when insert worker `i` takes `steps` one after another. */
  ghost predicate Plays(cfg: Config, i: nat, trace: seq<World>, steps: seq<InserterStep>) {
    && |trace| == |steps| + 1
    && forall k :: 0 <= k < |steps| ==> Follows(cfg, i, trace[k], steps[k], trace[k + 1])
  }

  ghost predicate Follows(cfg: Config, i: nat, w: World, step: InserterStep, w': World) {
    InserterMay(cfg, w, i, step) && w' == InserterDoes(cfg, w, i, step)
  }

  /** The steps lead from `w` to `goal`. */
  ghost predicate Leads(cfg: Config, i: nat, trace: seq<World>, steps: seq<InserterStep>, w: World, goal: World) {
    Plays(cfg, i, trace, steps) && trace[0] == w && trace[|trace| - 1] == goal
  }

  lemma LeadsOn(cfg: Config, i: nat, trace: seq<World>, steps: seq<InserterStep>, w: World, goal: World,
                step: InserterStep, next: World)
    requires Leads(cfg, i, trace, steps, w, goal) && Follows(cfg, i, goal, step, next)
    ensures Leads(cfg, i, trace + [next], steps + [step], w, next)
  {
    var trace', steps' := trace + [next], steps + [step];
    forall k | 0 <= k < |steps'| ensures Follows(cfg, i, trace'[k], steps'[k], trace'[k + 1]) {
      if k < |steps| {
        assert Follows(cfg, i, trace[k], steps[k], trace[k + 1]);
      }
    }
  }

  /** The worker holds the batch it took, after `attempts` refused inserts. */
  ghost function Tried(w: World, i: nat, attempts: nat): World
    requires i < |w.inserters| && w.inserters[i].Holding?
  {
    WithInserter(w, i, Holding(w.inserters[i].batch, attempts))
  }

  lemma NotYetTried(w: World, i: nat)
    requires i < |w.inserters| && w.inserters[i].Holding? && w.inserters[i].attempts == 0
    ensures Tried(w, i, 0) == w
  {
    assert w.inserters[i := w.inserters[i]] == w.inserters;
  }

  /** The batch has ended as `kind` says, or was dropped. */
  ghost function Released(cfg: Config, w: World, i: nat, kind: Option<Kind>): World
    requires i < |w.inserters| && w.inserters[i].Holding?
  {
    var free := WithInserter(w, i, Waiting);
    if kind.Some? then EndBatch(cfg, free, w.inserters[i].batch, kind.value) else free
  }

  lemma AttemptFollows(cfg: Config, w: World, i: nat, attempts: nat, ok: bool)
    requires i < |w.inserters| && w.inserters[i].Holding? && attempts < cfg.maxRetries
    ensures Follows(cfg, i, Tried(w, i, attempts), Attempt(ok),
                    if ok then Released(cfg, w, i, Some(Kind.Inserted)) else Tried(w, i, attempts + 1))
  {
    assert WithInserter(Tried(w, i, attempts), i, Waiting) == WithInserter(w, i, Waiting);
  }

  ghost function AfterAttempt(cfg: Config, w: World, i: nat, attempts: nat, ok: bool): World
    requires i < |w.inserters| && w.inserters[i].Holding?
  {
    if ok then Released(cfg, w, i, Some(Kind.Inserted)) else Tried(w, i, attempts + 1)
  }

  lemma AttemptLeads(cfg: Config, w: World, i: nat, trace: seq<World>, steps: seq<InserterStep>, attempts: nat, ok: bool)
    requires i < |w.inserters| && w.inserters[i].Holding? && attempts < cfg.maxRetries
    requires Leads(cfg, i, trace, steps, w, Tried(w, i, attempts))
    ensures var next := AfterAttempt(cfg, w, i, attempts, ok);
      Leads(cfg, i, trace + [next], steps + [Attempt(ok)], w, next)
  {
    AttemptFollows(cfg, w, i, attempts, ok);
    LeadsOn(cfg, i, trace, steps, w, Tried(w, i, attempts), Attempt(ok), AfterAttempt(cfg, w, i, attempts, ok));
  }

  function Spilled(cfg: Config, spools: bool): Option<Kind> {
    if cfg.maxRetries == 0 then None else Some(SpoolKind(spools))
  }

  lemma GiveUpFollows(cfg: Config, w: World, i: nat, spools: bool)
    requires i < |w.inserters| && w.inserters[i].Holding?
    ensures Follows(cfg, i, Tried(w, i, cfg.maxRetries), GiveUp(spools),
                    Released(cfg, w, i, Spilled(cfg, spools)))
  {
    assert WithInserter(Tried(w, i, cfg.maxRetries), i, Waiting) == WithInserter(w, i, Waiting);
  }

  lemma GiveUpLeads(cfg: Config, w: World, i: nat, trace: seq<World>, steps: seq<InserterStep>, spools: bool)
    requires i < |w.inserters| && w.inserters[i].Holding?
    requires Leads(cfg, i, trace, steps, w, Tried(w, i, cfg.maxRetries))
    ensures var next := Released(cfg, w, i, Spilled(cfg, spools));
      Leads(cfg, i, trace + [next], steps + [GiveUp(spools)], w, next)
  {
    GiveUpFollows(cfg, w, i, spools);
    LeadsOn(cfg, i, trace, steps, w, Tried(w, i, cfg.maxRetries), GiveUp(spools), Released(cfg, w, i, Spilled(cfg, spools)));
  }

  /** The batch a worker took is attempted until ClickHouse acknowledges it or the attempts run out, and then
      ends in exactly one place; `answers[k]` tells whether attempt `k` is acknowledged. */
  method HandleBatch(cfg: Config, answers: seq<bool>, spools: bool, ghost w: World, ghost i: nat)
    returns (inserted: bool, kind: Option<Kind>, attempts: nat, ghost trace: seq<World>, ghost steps: seq<InserterStep>)
    requires i < |w.inserters| && w.inserters[i].Holding? && w.inserters[i].attempts == 0
    requires |answers| >= cfg.maxRetries
    ensures attempts <= cfg.maxRetries && forall k :: 0 <= k < attempts - 1 ==> !answers[k]
    ensures inserted <==> attempts > 0 && answers[attempts - 1]
    ensures !inserted ==> attempts == cfg.maxRetries
    ensures kind == if inserted then Some(Kind.Inserted) else if cfg.maxRetries == 0 then None else Some(SpoolKind(spools))
    ensures Leads(cfg, i, trace, steps, w, Released(cfg, w, i, kind))
  {
    attempts, trace, steps := 0, [w], [];
    NotYetTried(w, i);
    while attempts < cfg.maxRetries
      invariant attempts <= cfg.maxRetries && forall k :: 0 <= k < attempts ==> !answers[k]
      invariant Leads(cfg, i, trace, steps, w, Tried(w, i, attempts))
    {
      var ok := answers[attempts];
      AttemptLeads(cfg, w, i, trace, steps, attempts, ok);
      trace, steps := trace + [AfterAttempt(cfg, w, i, attempts, ok)], steps + [Attempt(ok)];
      attempts := attempts + 1;
      if ok {
        return true, Some(Kind.Inserted), attempts, trace, steps;
      }
    }
    inserted, kind := false, Spilled(cfg, spools);
    GiveUpLeads(cfg, w, i, trace, steps, spools);
    trace, steps := trace + [Released(cfg, w, i, kind)], steps + [GiveUp(spools)];
  }
}
