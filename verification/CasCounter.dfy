/** Any number N of threads that each add one to a shared counter, in `rounds` rounds,
    with compare-and-swap and no lock. A step is one read of the counter or one compare-and-swap. */
module CasCounter {
  import opened Prelude

  // Start: the first read of the counter; Try: at the compare-and-swap; Reload: it
  // failed, about to read again; Done: the loop is over.
  datatype Pc = Start | Try | Reload | Done

  // `copy` is the thread's copy of the counter and `i` its completed increments.
  // A successful swap leaves `copy` as it is.
  datatype Thread = Thread(pc: Pc, copy: int, i: nat)

  datatype State = State(sum: int, threads: seq<Thread>)

  // The next step of thread t, when each thread adds one in `rounds` rounds.
  function Next(s: State, t: nat, rounds: nat): Option<State>
    requires t < |s.threads|
  {
    var th := s.threads[t];
    match th.pc
    case Start => Some(s.(threads := s.threads[t := Thread(if rounds == 0 then Done else Try, s.sum, 0)]))
    case Try =>
      if s.sum == th.copy then
        var i := th.i + 1;
        Some(State(th.copy + 1, s.threads[t := Thread(if i >= rounds then Done else Try, th.copy, i)]))
      else Some(s.(threads := s.threads[t := th.(pc := Reload)]))
    case Reload => Some(s.(threads := s.threads[t := Thread(Try, s.sum, th.i)]))
    case Done => None
  }

  ghost predicate Init(s: State) {
    s.sum == 0 && forall t :: 0 <= t < |s.threads| ==> s.threads[t].pc == Start && s.threads[t].i == 0
  }

  ghost predicate Run(states: seq<State>, who: seq<nat>, rounds: nat) {
    && |states| == |who| + 1
    && Init(states[0])
    && forall k :: 0 <= k < |who| ==>
         who[k] < |states[k].threads| && Next(states[k], who[k], rounds) == Some(states[k + 1])
  }

  function Counts(threads: seq<Thread>): seq<int> {
    seq(|threads|, k requires 0 <= k < |threads| => threads[k].i)
  }

  function Completed(s: State): int { Sum(Counts(s.threads)) }

  ghost predicate Inv(s: State, rounds: nat) {
    && s.sum == Completed(s)
    && forall t :: 0 <= t < |s.threads| ==>
         var th := s.threads[t];
         && (th.pc == Start ==> th.i == 0)
         && (th.pc == Try || th.pc == Reload ==> th.i < rounds && th.copy <= s.sum)
         && (th.pc == Done ==> th.i == rounds)
  }

  lemma CompletedUpdate(s: State, t: nat, th: Thread)
    requires t < |s.threads|
    ensures Sum(Counts(s.threads[t := th])) == Completed(s) - s.threads[t].i + th.i
  {
    assert Counts(s.threads[t := th]) == Counts(s.threads)[t := th.i];
    SumUpdate(Counts(s.threads), t, th.i);
  }

  lemma StepKeepsInv(s: State, t: nat, rounds: nat)
    requires Inv(s, rounds) && t < |s.threads| && Next(s, t, rounds).Some?
    ensures Inv(Next(s, t, rounds).value, rounds) && |Next(s, t, rounds).value.threads| == |s.threads|
  {
    CompletedUpdate(s, t, Next(s, t, rounds).value.threads[t]);
  }

  // No thread has completed more than `rounds` increments, so the sum never passes N * rounds.
  lemma {:induction false} SumBound(threads: seq<Thread>, rounds: nat)
    requires forall k :: 0 <= k < |threads| ==> threads[k].i <= rounds
    ensures Sum(Counts(threads)) <= |threads| * rounds
    ensures (forall k :: 0 <= k < |threads| ==> threads[k].i == rounds) ==> Sum(Counts(threads)) == |threads| * rounds
  {
    if threads != [] {
      var tail := threads[1..];
      SumBound(tail, rounds);
      assert Counts(threads)[1..] == Counts(tail);
      assert |threads| * rounds == rounds + |tail| * rounds;
    }
  }

  lemma {:induction false} Reachable(states: seq<State>, who: seq<nat>, rounds: nat, k: nat)
    requires Run(states, who, rounds) && k < |states|
    ensures Inv(states[k], rounds) && |states[k].threads| == |states[0].threads|
  {
    if k == 0 {
      SumZero(Counts(states[0].threads));
    } else {
      Reachable(states, who, rounds, k - 1);
      assert Next(states[k - 1], who[k - 1], rounds) == Some(states[k]);
      StepKeepsInv(states[k - 1], who[k - 1], rounds);
    }
  }

  // In every reachable state the counter is the number of completed increments; it
  // never passes N * rounds, and it is N * rounds when all threads are done.
  lemma ExactTotal(states: seq<State>, who: seq<nat>, rounds: nat, k: nat)
    requires Run(states, who, rounds) && k < |states|
    ensures var s, n := states[k], |states[0].threads|;
      && s.sum == Completed(s) && s.sum <= n * rounds
      && (forall t :: 0 <= t < |s.threads| && s.threads[t].pc == Try ==> s.threads[t].copy <= s.sum)
      && ((forall t :: 0 <= t < |s.threads| ==> s.threads[t].pc == Done) ==> s.sum == n * rounds)
  {
    Reachable(states, who, rounds, k);
    SumBound(states[k].threads, rounds);
  }

  // ---- Termination under any schedule ----

  // Steps a thread takes until its swap succeeds if the counter stands still.
  function Distance(th: Thread, sum: int): int {
    match th.pc
    case Start => 2
    case Try => if th.copy == sum then 1 else 3
    case Reload => 2
    case Done => 0
  }

  function Distances(s: State): seq<int> {
    seq(|s.threads|, k requires 0 <= k < |s.threads| => Distance(s.threads[k], s.sum))
  }

  // Each increment still to come is worth more than all the retries it can cause.
  function Measure(s: State, rounds: nat): int {
    (|s.threads| * rounds - s.sum) * (3 * |s.threads|) + Sum(Distances(s))
  }

  // A read or a failed swap brings its thread one step nearer and nobody further away.
  lemma RetryDescends(s: State, t: nat, rounds: nat)
    requires Inv(s, rounds) && t < |s.threads| && Next(s, t, rounds).Some? && Next(s, t, rounds).value.sum == s.sum
    ensures Measure(Next(s, t, rounds).value, rounds) < Measure(s, rounds)
  {
    var s' := Next(s, t, rounds).value;
    var d := Distance(s'.threads[t], s.sum);
    assert Distances(s') == Distances(s)[t := d];
    SumUpdate(Distances(s), t, d);
  }

  lemma OneFewer(total: int, sum: int, n: nat)
    ensures (total - (sum + 1)) * (3 * n) == (total - sum) * (3 * n) - 3 * n
  {
  }

  // A successful swap makes every other copy stale: at most two steps lost each.
  lemma SuccessDescends(s: State, t: nat, rounds: nat)
    requires Inv(s, rounds) && t < |s.threads| && s.threads[t].pc == Try && s.threads[t].copy == s.sum
    ensures Measure(Next(s, t, rounds).value, rounds) < Measure(s, rounds)
  {
    var s' := Next(s, t, rounds).value;
    var n := |s.threads|;
    SumCloseTo(Distances(s'), Distances(s), 2);
    hide Distances, Sum, Inv, Next;
    OneFewer(n * rounds, s.sum, n);
  }

  lemma StepDescends(s: State, t: nat, rounds: nat)
    requires Inv(s, rounds) && t < |s.threads| && Next(s, t, rounds).Some?
    ensures Measure(Next(s, t, rounds).value, rounds) < Measure(s, rounds)
  {
    if s.threads[t].pc == Try && s.threads[t].copy == s.sum { SuccessDescends(s, t, rounds); }
    else { RetryDescends(s, t, rounds); }
  }

  lemma MeasureNonNegative(s: State, rounds: nat)
    requires Inv(s, rounds)
    ensures Measure(s, rounds) >= 0
  {
    SumBound(s.threads, rounds);
    SumLowerBound(Distances(s), 0);
    NonNegativeProduct(|s.threads| * rounds - s.sum, 3 * |s.threads|);
  }

  lemma NonNegativeProduct(x: int, y: int)
    requires x >= 0 && y >= 0
    ensures x * y >= 0
  {
  }

  // Under any schedule, fair or not, a run takes at most a fixed number of steps:
  // no livelock.
  lemma {:induction false} RunsEnd(states: seq<State>, who: seq<nat>, rounds: nat, k: nat)
    requires Run(states, who, rounds) && k < |states|
    ensures k <= Measure(states[0], rounds) - Measure(states[k], rounds)
    ensures k <= Measure(states[0], rounds)
  {
    Reachable(states, who, rounds, k);
    MeasureNonNegative(states[k], rounds);
    if k > 0 {
      RunsEnd(states, who, rounds, k - 1);
      Reachable(states, who, rounds, k - 1);
      assert Next(states[k - 1], who[k - 1], rounds) == Some(states[k]);
      StepDescends(states[k - 1], who[k - 1], rounds);
    }
  }

  // The bound, for N threads of `rounds` increments: 3 * N * N * rounds + 2 * N steps in all.
  lemma StepBound(states: seq<State>, who: seq<nat>, rounds: nat)
    requires Run(states, who, rounds)
    ensures var n := |states[0].threads|; |who| <= n * rounds * (3 * n) + 2 * n
  {
    RunsEnd(states, who, rounds, |who|);
    SumConstant(Distances(states[0]), 2);
  }

  // A run that cannot be continued has ended with the exact total.
  lemma StopsOnlyWhenDone(states: seq<State>, who: seq<nat>, rounds: nat)
    requires Run(states, who, rounds)
    requires forall t :: 0 <= t < |states[|who|].threads| ==> Next(states[|who|], t, rounds) == None
    ensures states[|who|].sum == |states[0].threads| * rounds
  {
    var s := states[|who|];
    forall t | 0 <= t < |s.threads| ensures s.threads[t].pc == Done { assert Next(s, t, rounds) == None; }
    Reachable(states, who, rounds, |who|);
    ExactTotal(states, who, rounds, |who|);
  }

  // A thread that has just read the counter succeeds unless some other thread has
  // succeeded in between: it fails at most once for each value of the counter.
  lemma FailureMeansProgress(states: seq<State>, who: seq<nat>, rounds: nat, j: nat, k: nat, t: nat)
    requires Run(states, who, rounds) && j < k < |who| && who[j] == t == who[k]
    requires t < |states[j].threads| && states[j].threads[t].pc == Reload
    requires forall x :: j < x < k ==> who[x] != t
    ensures states[k + 1].sum == states[k].sum ==> states[j].sum < states[k].sum
  {
    assert Next(states[k], who[k], rounds) == Some(states[k + 1]);
    KeepsCopy(states, who, rounds, j, k, t);
  }

  lemma {:induction false} KeepsCopy(states: seq<State>, who: seq<nat>, rounds: nat, j: nat, k: nat, t: nat)
    requires Run(states, who, rounds) && j < k <= |who| && who[j] == t
    requires t < |states[j].threads| && states[j].threads[t].pc == Reload
    requires forall x :: j < x < k ==> who[x] != t
    ensures t < |states[k].threads| && states[k].threads[t].pc == Try
    ensures states[k].threads[t].copy == states[j].sum && states[j].sum <= states[k].sum
  {
    assert Next(states[k - 1], who[k - 1], rounds) == Some(states[k]);
    if k > j + 1 { KeepsCopy(states, who, rounds, j, k - 1, t); }
  }
}
