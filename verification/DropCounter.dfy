/** The lock-free counter of kernel drops shared by cloned receivers (udp_receiver_linux.go).

    The shared word is 0 before the first observation and 2^32 plus the last accepted kernel count
    afterwards. Threads load it and compare-and-swap it in any interleaving. */
module DropCounter {
  import opened Bytes

  const M := 0x1_0000_0000
  const HALF := 0x8000_0000

  /** What the code does with a loaded word and a count: report nothing, or try to swap and report. */
  datatype Decision = Ignore | Swap(next: nat, delta: nat)

  function Decide(word: nat, count: u32): Decision {
    if word == 0 then Swap(M + count, count)
    else
      var previous := word % M;
      var delta := (count - previous) % M;
      if previous == count || delta > HALF then Ignore else Swap(M + count, delta)
  }

  /** The word the receivers share. */
  class DropTracker {
    var state: nat

    constructor ()
      ensures state == 0
    {
      state := 0;
    }

    method CompareAndSwap(expected: nat, next: nat) returns (swapped: bool)
      modifies this
      ensures swapped == (old(state) == expected)
      ensures state == if swapped then next else old(state)
    {
      swapped := state == expected;
      if swapped {
        state := next;
      }
    }

    /** `interference` lists what the other threads leave in the word between each load and the swap that
        follows it; the call takes effect atomically on one of those words. */
    method ObserveSocketDrops(count: u32, interference: seq<nat>) returns (delta: nat, ghost seen: nat)
      modifies this
      ensures seen == old(state) || seen in interference
      ensures match Decide(seen, count)
        case Ignore => delta == 0 && (state == old(state) || state in interference)
        case Swap(next, d) => delta == d && state == next
    {
      var round := 0;
      while true
        invariant 0 <= round <= |interference|
        invariant state == old(state) || state in interference
        decreases |interference| - round
      {
        var word := state;
        seen := word;
        var swapped;
        if round < |interference| {
          state := interference[round];
        }
        if word == 0 {
          swapped := CompareAndSwap(0, M + count);
          if swapped {
            return count, seen;
          }
        } else {
          var previous := word % M;
          if previous == count {
            return 0, seen;
          }
          delta := (count - previous) % M;
          if delta > HALF {
            return 0, seen;
          }
          swapped := CompareAndSwap(word, M + count);
          if swapped {
            return delta, seen;
          }
        }
        round := round + 1;
      }
    }
  }

  // ---- Every interleaving ----

  /** A thread between its load and its swap. `truth` is the kernel's unbounded count, of which the
      thread sees the low 32 bits; `sum` is the total of the deltas when the word was loaded. */
  datatype Thread = Quiet | Loaded(word: nat, sum: nat, truth: nat)

  /** `sum` is the total of the deltas returned so far and `largest` the largest kernel count that a
      finished call observed. */
  datatype World = World(word: nat, threads: seq<Thread>, sum: nat, largest: nat)

  datatype Step = Load(thread: nat, truth: nat) | Finish(thread: nat)

  predicate Enabled(w: World, step: Step) {
    match step
    case Load(t, _) => t < |w.threads| && w.threads[t].Quiet?
    case Finish(t) => t < |w.threads| && w.threads[t].Loaded?
  }

  function Larger(a: nat, b: nat): nat {
    if a < b then b else a
  }

  /** Finishing is the decision on the loaded word; a lost swap goes back to the load. */
  function Do(w: World, step: Step): World
    requires Enabled(w, step)
  {
    match step
    case Load(t, truth) => w.(threads := w.threads[t := Loaded(w.word, w.sum, truth)])
    case Finish(t) =>
      var loaded := w.threads[t];
      match Decide(loaded.word, loaded.truth % M)
      case Ignore =>
        w.(threads := w.threads[t := Quiet], largest := Larger(w.largest, loaded.truth))
      case Swap(next, delta) =>
        if loaded.word == w.word
        then w.(word := next, threads := w.threads[t := Quiet], sum := w.sum + delta,
                largest := Larger(w.largest, loaded.truth))
        else w.(threads := w.threads[t := Loaded(w.word, w.sum, loaded.truth)])
  }

  ghost predicate IsRun(ws: seq<World>, steps: seq<Step>, threads: nat) {
    && |ws| == |steps| + 1
    && ws[0] == World(0, seq(threads, _ => Quiet), 0, 0)
    && forall i :: 0 <= i < |steps| ==> Enabled(ws[i], steps[i]) && ws[i + 1] == Do(ws[i], steps[i])
  }

  /** The word is 0 while nothing was accepted, and otherwise holds the sum of the deltas modulo 2^32. */
  predicate Holds(word: nat, sum: nat) {
    if word == 0 then sum == 0 else word == M + sum % M
  }

  predicate Inv(w: World) {
    && Holds(w.word, w.sum)
    && forall t :: 0 <= t < |w.threads| && w.threads[t].Loaded? ==>
         Holds(w.threads[t].word, w.threads[t].sum) && w.threads[t].sum <= w.sum
  }

  lemma SwapAddsDelta(word: nat, sum: nat, count: u32)
    requires Holds(word, sum) && Decide(word, count).Swap?
    ensures Holds(Decide(word, count).next, sum + Decide(word, count).delta)
  {
    if word != 0 {
      var previous := sum % M;
      assert word % M == previous;
      assert (sum + (count - previous) % M) % M == count by {
        assert sum == M * (sum / M) + previous;
      }
    }
  }

  lemma StepKeepsInv(w: World, step: Step)
    requires Inv(w) && Enabled(w, step)
    ensures Inv(Do(w, step)) && Do(w, step).sum >= w.sum
  {
    if step.Finish? && Decide(w.threads[step.thread].word, w.threads[step.thread].truth % M).Swap? {
      var loaded := w.threads[step.thread];
      if loaded.word == w.word {
        SwapAddsDelta(w.word, w.sum, loaded.truth % M);
      }
    }
  }

  lemma {:induction false} RunKeepsInv(ws: seq<World>, steps: seq<Step>, threads: nat, i: nat)
    requires IsRun(ws, steps, threads) && i <= |steps|
    ensures Inv(ws[i])
  {
    if i > 0 {
      RunKeepsInv(ws, steps, threads, i - 1);
      StepKeepsInv(ws[i - 1], steps[i - 1]);
    }
  }

  /** In every interleaving the deltas returned so far add up, modulo 2^32, to the stored count. */
  lemma DeltasAddUp(ws: seq<World>, steps: seq<Step>, threads: nat, i: nat)
    requires IsRun(ws, steps, threads) && i <= |steps|
    ensures ws[i].word == 0 ==> ws[i].sum == 0
    ensures ws[i].word != 0 ==> ws[i].sum % M == ws[i].word - M
  {
    RunKeepsInv(ws, steps, threads, i);
  }

  // ---- When the sum is the kernel's count ----

  /** The sum after a decision taken on a word that holds `sum`. */
  function SumAfter(word: nat, sum: nat, truth: nat): nat {
    match Decide(word, truth % M)
    case Ignore => sum
    case Swap(_, delta) => sum + delta
  }

  /** The first count fits 32 bits; a later one is at most 2^31 ahead, or less than 2^31 behind up to
      whole wraps of the counter. */
  predicate InRange(word: nat, sum: nat, truth: nat) {
    if word == 0 then truth < M
    else if truth >= sum then truth - sum <= HALF
    else (sum - truth) % M < HALF
  }

  lemma WrapAhead(sum: nat, truth: nat)
    requires truth >= sum
    ensures (truth % M - sum % M) % M == (truth - sum) % M
  {
  }

  lemma WrapBehind(sum: nat, truth: nat)
    requires truth < sum
    ensures var d := (sum - truth) % M;
      (truth % M - sum % M) % M == if d == 0 then 0 else M - d
  {
  }

  lemma SameLowBits(a: u32, b: u32)
    ensures a == b <==> (b - a) % M == 0
  {
  }

  /** A decision moves the sum to the larger of itself and the observed kernel count exactly when the
      observation is in range. */
  lemma DecisionIsExact(word: nat, sum: nat, truth: nat)
    requires Holds(word, sum)
    ensures SumAfter(word, sum, truth) == Larger(sum, truth) <==> InRange(word, sum, truth)
  {
    if word != 0 {
      SameLowBits(sum % M, truth % M);
      if truth >= sum {
        WrapAhead(sum, truth);
      } else {
        WrapBehind(sum, truth);
      }
    }
  }

  /** A finished call was in range for the word it took effect on. */
  predicate AppliedInRange(w: World, step: Step)
    requires Enabled(w, step)
  {
    step.Finish? ==>
      var loaded := w.threads[step.thread];
      if Decide(loaded.word, loaded.truth % M).Ignore? then InRange(loaded.word, loaded.sum, loaded.truth)
      else loaded.word == w.word ==> InRange(w.word, w.sum, loaded.truth)
  }

  /** While every call is in range, the deltas add up to the largest kernel count any call observed,
      although each of them saw only 32 bits of it. */
  lemma {:induction false} SumIsLargestCount(ws: seq<World>, steps: seq<Step>, threads: nat, i: nat)
    requires IsRun(ws, steps, threads) && i <= |steps|
    requires forall j :: 0 <= j < i ==> AppliedInRange(ws[j], steps[j])
    ensures ws[i].sum == ws[i].largest
  {
    if i > 0 {
      SumIsLargestCount(ws, steps, threads, i - 1);
      RunKeepsInv(ws, steps, threads, i - 1);
      var w, step := ws[i - 1], steps[i - 1];
      assert AppliedInRange(w, step);
      if step.Finish? {
        var loaded := w.threads[step.thread];
        DecisionIsExact(loaded.word, loaded.sum, loaded.truth);
        if loaded.word == w.word {
          DecisionIsExact(w.word, w.sum, loaded.truth);
        }
      }
    }
  }
}
