/** Every run of the work list with finitely many nodes to push and finitely many
    spurious wakeups ends. */
module WorkListEnd {
  import opened Prelude
  import opened WorkList
  import opened WorkListTheorems

  function Times(n: nat, unit: int): int { n * unit }

  lemma TimesOneLess(n: nat, unit: int)
    requires n > 0 && unit >= 0
    ensures Times(n, unit) == Times(n - 1, unit) + unit && Times(n - 1, unit) >= 0
  {
  }

  // What a thread can still add to a run. Finishing a node outweighs waking all workers.
  function Weight(th: Thread, unit: int): int {
    match th.pc
    case Make => Times(th.left, unit)
    case Fill => Times(th.left, unit) - 1
    case LockP => Times(th.left, unit) - 2
    case Link => Times(th.left, unit) - 3
    case Push => Times(th.left, unit) - 4
    case UnlockP => Times(th.left, unit) - 11
    case Signal => Times(th.left, unit) - 12
    case Wait => 0
    case Take => 7
    case Test => 8
    case Woken => 9
    case Lock => 9
    case Free => 10
    case Use => 11
    case Unlock => 12
  }

  function Weights(threads: seq<Thread>, unit: int): seq<int> {
    seq(|threads|, i requires 0 <= i < |threads| => Weight(threads[i], unit))
  }

  function Measure(s: State, list: seq<Addr>): int {
    Sum(Weights(s.threads, 13 + 9 * |s.threads|)) + 6 * |list|
  }

  lemma WeightsUpdate(threads: seq<Thread>, t: nat, th: Thread, unit: int)
    requires t < |threads|
    ensures Sum(Weights(threads[t := th], unit)) ==
            Sum(Weights(threads, unit)) - Weight(threads[t], unit) + Weight(th, unit)
  {
    assert Weights(threads[t := th], unit) == Weights(threads, unit)[t := Weight(th, unit)];
    SumUpdate(Weights(threads, unit), t, Weight(th, unit));
  }

  lemma WeightNotNegative(th: Thread, unit: int)
    requires unit >= 13 && (!IsWorker(th.pc) && th.pc != Make ==> th.left > 0)
    ensures Weight(th, unit) >= 0
  {
    if th.left > 0 { TimesOneLess(th.left, unit); }
    hide Times;
  }

  lemma MeasureNotNegative(s: State, list: seq<Addr>)
    requires Inv(s, list)
    ensures Measure(s, list) >= 0
  {
    hide Chain, Exclusive, NoLostWakeup, Conserved, Weight;
    var unit := 13 + 9 * |s.threads|;
    var w := Weights(s.threads, unit);
    forall t | 0 <= t < |s.threads| ensures w[t] >= 0 {
      assert ThreadInv(s, list, t);
      WeightNotNegative(s.threads[t], unit);
    }
    SumLowerBound(w, 0);
  }

  // Every step but a spurious wakeup brings the end nearer, whoever takes it.
  lemma StepDescends(s: State, a: Act, s': State, frees: bool, list: seq<Addr>)
    requires Inv(s, list) && Step(s, a, s', frees)
    ensures |s'.threads| == |s.threads|
    ensures a.Go? ==> Measure(s', NextList(s, a, list)) < Measure(s, list)
    ensures a.Spurious? ==> Measure(s', NextList(s, a, list)) == Measure(s, list) + 9
  {
    if a.Go? && s.threads[a.t].pc == Signal {
      SignalDescends(s, a.t, a.c, frees, list);
    } else {
      OneDescends(s, a, s', frees, list);
    }
  }

  lemma SignalDescends(s: State, t: nat, c: Choice, frees: bool, list: seq<Addr>)
    requires t < |s.threads| && Inv(s, list) && s.threads[t].pc == Signal && Next(s, t, c, frees).Moved?
    ensures |Next(s, t, c, frees).s.threads| == |s.threads|
    ensures Measure(Next(s, t, c, frees).s, list) < Measure(s, list)
  {
    hide Inv, Times, Sum, Weights, Weight, Awake;
    var th, unit := s.threads[t], 13 + 9 * |s.threads|;
    var before := s.threads[t := Finished(th)];
    assert th.left > 0 by { LeftPositive(s, t, list); }
    WeightsUpdate(s.threads, t, Finished(th), unit);
    SignalWeight(th, unit);
    AwakeWeights(before, c.wake, unit);
  }

  lemma LeftPositive(s: State, t: nat, list: seq<Addr>)
    requires t < |s.threads| && Inv(s, list) && s.threads[t].pc == Signal
    ensures s.threads[t].left > 0
  {
    assert ThreadInv(s, list, t);
  }

  lemma SignalWeight(th: Thread, unit: int)
    requires th.pc == Signal && th.left > 0 && unit >= 0
    ensures Weight(Finished(th), unit) == Weight(th, unit) + 12 - unit
  {
    TimesOneLess(th.left, unit);
  }

  lemma AwakeWeights(threads: seq<Thread>, wake: set<nat>, unit: int)
    requires forall i :: i in wake && i < |threads| ==> threads[i].pc == Wait
    ensures Sum(Weights(Awake(threads, wake), unit)) <= Sum(Weights(threads, unit)) + 9 * |threads|
  {
    SumCloseTo(Weights(Awake(threads, wake), unit), Weights(threads, unit), 9);
  }

  lemma OneDescends(s: State, a: Act, s': State, frees: bool, list: seq<Addr>)
    requires Inv(s, list) && Step(s, a, s', frees) && !(a.Go? && s.threads[a.t].pc == Signal)
    ensures |s'.threads| == |s.threads|
    ensures a.Spurious? ==> Measure(s', NextList(s, a, list)) == Measure(s, list) + 9
    ensures a.Go? ==> Measure(s', NextList(s, a, list)) < Measure(s, list)
  {
    hide Inv, Times, Sum, Weights, Weight;
    var t, unit := a.t, 13 + 9 * |s.threads|;
    var th' := s'.threads[t];
    OneWeight(s, a, s', frees, list, unit);
    WeightsUpdate(s.threads, t, th', unit);
    hide Next, NextList, Step;
  }

  // What a step changes in its own thread's weight and in the list.
  lemma OneWeight(s: State, a: Act, s': State, frees: bool, list: seq<Addr>, unit: int)
    requires Inv(s, list) && Step(s, a, s', frees) && !(a.Go? && s.threads[a.t].pc == Signal)
    ensures |s'.threads| == |s.threads| && s'.threads == s.threads[a.t := s'.threads[a.t]]
    ensures var was, now := Weight(s.threads[a.t], unit), Weight(s'.threads[a.t], unit);
      var grown := 6 * |NextList(s, a, list)| - 6 * |list|;
      if a.Spurious? then now + grown == was + 9 else now + grown < was
  {
    hide Inv, Times;
    if a.Go? {
      if IsWorker(s.threads[a.t].pc) {
        WorkerWeight(s, a.t, a.c, frees, list, unit);
      } else {
        hide Weight;
        ProducerWeight(s, a.t, a.c, frees, unit);
      }
    }
  }

  lemma WorkerWeight(s: State, t: nat, c: Choice, frees: bool, list: seq<Addr>, unit: int)
    requires Inv(s, list) && t < |s.threads| && IsWorker(s.threads[t].pc) && Next(s, t, c, frees).Moved?
    ensures var th := Next(s, t, c, frees).s.threads;
      && |th| == |s.threads| && th == s.threads[t := th[t]]
      && Weight(th[t], unit) + 6 * |NextList(s, Go(t, c), list)| - 6 * |list| < Weight(s.threads[t], unit)
  {
    hide Inv;
    if s.threads[t].pc == Take { TakeList(s, t, list); }
  }

  lemma ProducerWeight(s: State, t: nat, c: Choice, frees: bool, unit: int)
    requires t < |s.threads| && !IsWorker(s.threads[t].pc) && s.threads[t].pc != Signal && Next(s, t, c, frees).Moved?
    ensures var th := Next(s, t, c, frees).s.threads;
      && |th| == |s.threads| && th == s.threads[t := th[t]]
      && Weight(th[t], unit) + (if s.threads[t].pc == Push then 6 else 0) < Weight(s.threads[t], unit)
  {
    hide Times;
  }

  function Spurious(acts: seq<Act>): nat {
    if acts == [] then 0 else Spurious(acts[..|acts| - 1]) + if acts[|acts| - 1].Spurious? then 1 else 0
  }

  // The length of a run is bounded by what its threads set out to do and its spurious
  // wakeups; no fairness is assumed.
  lemma RunsEnd(states: seq<State>, acts: seq<Act>, frees: bool)
    requires Run(states, acts, frees)
    ensures |acts| <= Measure(states[0], []) + 10 * Spurious(acts)
  {
    var lists := RunKeepsInv(states, acts, frees);
    MeasureFalls(states, acts, frees, lists, |acts|);
    assert acts[..|acts|] == acts;
    MeasureNotNegative(states[|acts|], lists[|acts|]);
  }

  lemma {:induction false} MeasureFalls(states: seq<State>, acts: seq<Act>, frees: bool, lists: seq<seq<Addr>>, k: nat)
    requires Run(states, acts, frees) && Tracks(states, acts, lists) && k <= |acts|
    requires forall j :: 0 <= j < |states| ==> Inv(states[j], lists[j])
    ensures Measure(states[k], lists[k]) + k <= Measure(states[0], []) + 10 * Spurious(acts[..k])
  {
    hide Measure, NextList, Inv, Next;
    if k > 0 {
      MeasureFalls(states, acts, frees, lists, k - 1);
      StepDescends(states[k - 1], acts[k - 1], states[k], frees, lists[k - 1]);
      assert acts[..k][..k - 1] == acts[..k - 1];
    }
  }
}
