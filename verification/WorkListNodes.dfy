/** Which nodes of the work list are live, and that what is pushed is what the
    producers set out to push. */
module WorkListNodes {
  import opened Prelude
  import opened WorkList
  import opened WorkListTheorems

  // ---- Live nodes ----

  function Owned(threads: seq<Thread>): set<Addr> {
    set t | 0 <= t < |threads| && Owns(threads[t].pc) :: threads[t].node
  }

  function Members(list: seq<Addr>): set<Addr> {
    set i | 0 <= i < |list| :: list[i]
  }

  ghost predicate NoneLost(s: State, list: seq<Addr>) {
    forall a :: a in s.heap ==> a in Owned(s.threads) || a in list
  }

  // Another thread is as it was, or was asleep and wakes up.
  lemma OthersAfter(s: State, act: Act, s': State, frees: bool, u: nat)
    requires Step(s, act, s', frees) && u < |s.threads| && u != act.t
    ensures |s'.threads| == |s.threads|
    ensures s'.threads[u] == s.threads[u]
            || (s.threads[u].pc == Wait && s'.threads[u] == s.threads[u].(pc := Woken))
  {
    hide Awake;
    if act.Go? && s.threads[act.t].pc == Signal { SignalWakes(s, act.t, act.c, s', frees, u); }
    else { OneMoves(s, act, s', frees); }
  }

  lemma SignalWakes(s: State, t: nat, c: Choice, s': State, frees: bool, u: nat)
    requires t < |s.threads| && s.threads[t].pc == Signal && Next(s, t, c, frees) == Moved(s')
    requires u < |s.threads| && u != t
    ensures |s'.threads| == |s.threads|
    ensures s'.threads[u] == s.threads[u]
            || (s.threads[u].pc == Wait && s'.threads[u] == s.threads[u].(pc := Woken))
  {
    hide Finished;
  }

  lemma OneMoves(s: State, act: Act, s': State, frees: bool)
    requires Step(s, act, s', frees) && !(act.Go? && s.threads[act.t].pc == Signal)
    ensures |s'.threads| == |s.threads| && s'.threads == s.threads[act.t := s'.threads[act.t]]
  {
    hide Awake, MayWake, Finished;
  }

  // A step of t moves its own node only; the others keep theirs.
  lemma OwnedByOthers(s: State, act: Act, s': State, frees: bool, a: Addr)
    requires Step(s, act, s', frees) && a in Owned(s.threads)
    requires !Owns(s.threads[act.t].pc) || s.threads[act.t].node != a
    ensures a in Owned(s'.threads)
  {
    var u :| 0 <= u < |s.threads| && Owns(s.threads[u].pc) && s.threads[u].node == a;
    assert u != act.t;
    OtherKeepsNode(s, act, s', frees, u);
  }

  lemma OtherKeepsNode(s: State, act: Act, s': State, frees: bool, u: nat)
    requires Step(s, act, s', frees) && u < |s.threads| && u != act.t && Owns(s.threads[u].pc)
    ensures |s'.threads| == |s.threads| && s'.threads[u] == s.threads[u]
  {
    hide Step;
    OthersAfter(s, act, s', frees, u);
  }

  // What a step does to the heap and to the node of its own thread.
  ghost predicate MovesOwn(s: State, t: nat, s': State, list: seq<Addr>, list': seq<Addr>) {
    && t < |s.threads| == |s'.threads|
    && var th, th' := s.threads[t], s'.threads[t];
       && (forall a :: a in s'.heap && a !in s.heap ==> Owns(th'.pc) && th'.node == a)
       && (Owns(th.pc) && th.node in s'.heap ==> (Owns(th'.pc) && th'.node == th.node) || th.node in list')
       && (forall a :: a in list && a !in list' ==> Owns(th'.pc) && th'.node == a)
  }

  lemma OwnNode(s: State, act: Act, s': State, list: seq<Addr>)
    requires Inv(s, list) && Step(s, act, s', true)
    ensures MovesOwn(s, act.t, s', list, NextList(s, act, list))
  {
    hide Inv, MovesOwn, Next;
    if act.Go? && s.threads[act.t].pc == Take { TakeNode(s, act.t, act.c, s', list); }
    else { OtherNode(s, act, s', list); }
  }

  lemma TakeNode(s: State, t: nat, c: Choice, s': State, list: seq<Addr>)
    requires Inv(s, list) && t < |s.threads| && s.threads[t].pc == Take && Next(s, t, c, true) == Moved(s')
    ensures list != [] && MovesOwn(s, t, s', list, list[1..])
  {
    TakeList(s, t, list);
    hide Inv;
  }

  lemma OtherNode(s: State, act: Act, s': State, list: seq<Addr>)
    requires Step(s, act, s', true) && !(act.Go? && s.threads[act.t].pc == Take)
    ensures MovesOwn(s, act.t, s', list, NextList(s, act, list))
  {
    hide MayWake, Finished;
  }

  lemma NoneLostKept(s: State, act: Act, s': State, list: seq<Addr>)
    requires Inv(s, list) && NoneLost(s, list) && Step(s, act, s', true)
    ensures NoneLost(s', NextList(s, act, list))
  {
    hide Inv, Step, NextList;
    OwnNode(s, act, s', list);
    assert act.t < |s.threads| by { StepThread(s, act, s', true); }
    forall a | a in s'.heap ensures a in Owned(s'.threads) || a in NextList(s, act, list) {
      if a in s.heap && a !in list && !(Owns(s.threads[act.t].pc) && s.threads[act.t].node == a) {
        OwnedByOthers(s, act, s', true, a);
      }
    }
  }

  lemma StepThread(s: State, act: Act, s': State, frees: bool)
    requires Step(s, act, s', frees)
    ensures act.t < |s.threads|
  {
  }

  lemma {:induction false} NoneLostAlways(states: seq<State>, acts: seq<Act>, lists: seq<seq<Addr>>, k: nat)
    requires Run(states, acts, true) && Tracks(states, acts, lists) && k < |states|
    requires forall j :: 0 <= j < |states| ==> Inv(states[j], lists[j])
    ensures NoneLost(states[k], lists[k])
  {
    hide Inv, Step, NextList;
    if k > 0 {
      NoneLostAlways(states, acts, lists, k - 1);
      assert Step(states[k - 1], acts[k - 1], states[k], true);
      NoneLostKept(states[k - 1], acts[k - 1], states[k], lists[k - 1]);
    }
  }

  // Where taken nodes are freed, the live nodes are at every moment those in the list and
  // those a producer is preparing or a worker has taken and not freed yet, and no others.
  lemma LiveNodes(states: seq<State>, acts: seq<Act>, k: nat) returns (lists: seq<seq<Addr>>)
    requires Run(states, acts, true) && k < |states|
    ensures Tracks(states, acts, lists)
    ensures states[k].heap.Keys == Members(lists[k]) + Owned(states[k].threads)
    ensures Members(lists[k]) !! Owned(states[k].threads)
  {
    lists := RunKeepsInv(states, acts, true);
    NoneLostAlways(states, acts, lists, k);
    var s, list := states[k], lists[k];
    InHeap(s, list);
    forall a | a in Owned(s.threads) ensures a in s.heap && a !in list {
      var t :| 0 <= t < |s.threads| && Owns(s.threads[t].pc) && s.threads[t].node == a;
      assert ThreadInv(s, list, t);
    }
    hide Inv, Owned;
    forall a ensures a in Members(list) <==> a in list {}
  }

  // Where they are not freed, no node ever goes.
  lemma {:induction false} NothingFreed(states: seq<State>, acts: seq<Act>, j: nat, k: nat)
    requires Run(states, acts, false) && j <= k < |states|
    ensures states[j].heap.Keys <= states[k].heap.Keys
    decreases k
  {
    hide Step, Init;
    if j < k {
      NothingFreed(states, acts, j, k - 1);
      assert Step(states[k - 1], acts[k - 1], states[k], false);
      NobodyFrees(states, acts, k - 1);
      HeapGrows(states[k - 1], acts[k - 1], states[k]);
    }
  }

  ghost predicate NoFree(s: State) {
    forall t :: 0 <= t < |s.threads| ==> s.threads[t].pc != Free
  }

  lemma HeapGrows(s: State, act: Act, s': State)
    requires Step(s, act, s', false) && NoFree(s)
    ensures s.heap.Keys <= s'.heap.Keys && NoFree(s')
  {
  }

  lemma {:induction false} NobodyFrees(states: seq<State>, acts: seq<Act>, k: nat)
    requires Run(states, acts, false) && k < |states|
    ensures NoFree(states[k])
  {
    hide Step;
    if k > 0 {
      NobodyFrees(states, acts, k - 1);
      assert Step(states[k - 1], acts[k - 1], states[k], false);
      HeapGrows(states[k - 1], acts[k - 1], states[k]);
    }
  }

  // ---- What is pushed ----

  // The number thread t puts into its node at its next Fill, or put there before this push.
  predicate Prepared(pc: Pc) {
    pc == LockP || pc == Link || pc == Push
  }

  lemma ThreadStep(s: State, act: Act, s': State, frees: bool, t: nat)
    requires Step(s, act, s', frees) && t < |s'.threads| && Prepared(s'.threads[t].pc)
    ensures t < |s.threads|
    ensures Prepared(s.threads[t].pc) ==> s'.threads[t].num == s.threads[t].num
    ensures !Prepared(s.threads[t].pc) ==>
              act.Go? && act.t == t && s.threads[t].pc == Fill && act.c.num == s'.threads[t].num
  {
    hide Step;
    SameThreads(s, act, s', frees);
    if t != act.t { OthersAfter(s, act, s', frees, t); }
    else if act.Go? && s.threads[t].pc == Signal { SignalEnds(s, t, act.c, s', frees); }
    else { PreparedOwn(s, act, s', frees); }
  }

  lemma SameThreads(s: State, act: Act, s': State, frees: bool)
    requires Step(s, act, s', frees)
    ensures act.t < |s.threads| && |s'.threads| == |s.threads|
  {
    hide Awake, MayWake, Finished;
    if act.Go? && s.threads[act.t].pc == Signal { SignalEnds(s, act.t, act.c, s', frees); }
  }

  lemma SignalEnds(s: State, t: nat, c: Choice, s': State, frees: bool)
    requires t < |s.threads| && s.threads[t].pc == Signal && Step(s, Go(t, c), s', frees)
    ensures |s'.threads| == |s.threads| && s'.threads[t] == Finished(s.threads[t]) && s'.put == s.put
  {
  }

  lemma PreparedOwn(s: State, act: Act, s': State, frees: bool)
    requires Step(s, act, s', frees) && act.t < |s.threads| == |s'.threads| && Prepared(s'.threads[act.t].pc)
    requires !(act.Go? && s.threads[act.t].pc == Signal)
    ensures var th, th' := s.threads[act.t], s'.threads[act.t];
      && (Prepared(th.pc) ==> th'.num == th.num)
      && (!Prepared(th.pc) ==> act.Go? && th.pc == Fill && act.c.num == th'.num)
  {
    hide Awake, MayWake, Finished;
  }

  // The number a producer is about to push is the one it chose when it last filled a node.
  lemma {:induction false} FilledBefore(states: seq<State>, acts: seq<Act>, frees: bool, k: nat, t: nat)
    returns (j: nat)
    requires Run(states, acts, frees) && k < |states| && t < |states[k].threads|
    requires Prepared(states[k].threads[t].pc)
    ensures j < k && acts[j].Go? && acts[j].t == t && t < |states[j].threads| && states[j].threads[t].pc == Fill
    ensures acts[j].c.num == states[k].threads[t].num
    ensures forall i :: j < i <= k ==> t < |states[i].threads| && Prepared(states[i].threads[t].pc)
    decreases k
  {
    hide Step;
    assert k > 0;
    assert Step(states[k - 1], acts[k - 1], states[k], frees);
    ThreadStep(states[k - 1], acts[k - 1], states[k], frees, t);
    if Prepared(states[k - 1].threads[t].pc) {
      j := FilledBefore(states, acts, frees, k - 1, t);
    } else {
      j := k - 1;
    }
  }

  // What a push adds is the number the producer chose for this node.
  lemma PushedIsMade(states: seq<State>, acts: seq<Act>, frees: bool, k: nat) returns (j: nat)
    requires Run(states, acts, frees) && k < |acts| && acts[k].Go? && acts[k].t < |states[k].threads|
    requires states[k].threads[acts[k].t].pc == Push
    ensures j < k && acts[j].Go? && acts[j].t == acts[k].t && acts[j].t < |states[j].threads|
    ensures states[j].threads[acts[j].t].pc == Fill
    ensures states[k + 1].put == states[k].put + [acts[j].c.num]
    ensures forall i :: j < i <= k ==> acts[k].t < |states[i].threads| && Prepared(states[i].threads[acts[k].t].pc)
  {
    j := FilledBefore(states, acts, frees, k, acts[k].t);
    assert Step(states[k], acts[k], states[k + 1], frees);
  }

  // ---- How much is pushed ----

  // The nodes a thread has still to push.
  function ToPush(th: Thread): int {
    if IsWorker(th.pc) then 0
    else if th.pc == UnlockP || th.pc == Signal then th.left - 1
    else th.left
  }

  function Quotas(threads: seq<Thread>): seq<int> {
    seq(|threads|, i requires 0 <= i < |threads| => ToPush(threads[i]))
  }

  lemma QuotaStep(s: State, act: Act, s': State, frees: bool, list: seq<Addr>)
    requires Inv(s, list) && Step(s, act, s', frees)
    ensures |s'.put| + Sum(Quotas(s'.threads)) == |s.put| + Sum(Quotas(s.threads))
  {
    hide Inv, Step, ToPush, Awake;
    QuotaOwn(s, act, s', frees, list);
    var was, now := Quotas(s.threads), Quotas(s'.threads);
    assert now == was[act.t := now[act.t]];
    SumUpdate(was, act.t, now[act.t]);
  }

  lemma QuotaOwn(s: State, act: Act, s': State, frees: bool, list: seq<Addr>)
    requires Inv(s, list) && Step(s, act, s', frees)
    ensures act.t < |s.threads| && |s'.threads| == |s.threads|
    ensures |s'.put| + ToPush(s'.threads[act.t]) == |s.put| + ToPush(s.threads[act.t])
    ensures forall u :: 0 <= u < |s.threads| && u != act.t ==> ToPush(s'.threads[u]) == ToPush(s.threads[u])
  {
    SameThreads(s, act, s', frees);
    assert ThreadInv(s, list, act.t);
    hide Inv, Step;
    if act.Go? && s.threads[act.t].pc == Signal { SignalQuota(s, act.t, act.c, s', frees); }
    else { OneQuota(s, act, s', frees); }
    forall u | 0 <= u < |s.threads| && u != act.t ensures ToPush(s'.threads[u]) == ToPush(s.threads[u]) {
      OthersAfter(s, act, s', frees, u);
    }
  }

  lemma SignalQuota(s: State, t: nat, c: Choice, s': State, frees: bool)
    requires t < |s.threads| && s.threads[t].pc == Signal && s.threads[t].left > 0
    requires Step(s, Go(t, c), s', frees)
    ensures |s'.threads| == |s.threads| && s'.put == s.put && ToPush(s'.threads[t]) == ToPush(s.threads[t])
  {
    SignalEnds(s, t, c, s', frees);
  }

  lemma OneQuota(s: State, act: Act, s': State, frees: bool)
    requires Step(s, act, s', frees) && !(act.Go? && s.threads[act.t].pc == Signal) && |s'.threads| == |s.threads|
    ensures |s'.put| + ToPush(s'.threads[act.t]) == |s.put| + ToPush(s.threads[act.t])
  {
    hide Awake, MayWake, Finished;
  }

  // Pushed and still to be pushed add up to what the producers set out with.
  lemma {:induction false} PushesCounted(states: seq<State>, acts: seq<Act>, frees: bool, k: nat)
    requires Run(states, acts, frees) && k < |states|
    ensures |states[k].put| + Sum(Quotas(states[k].threads)) == Sum(Quotas(states[0].threads))
  {
    hide Step, Quotas, Inv;
    if k > 0 {
      PushesCounted(states, acts, frees, k - 1);
      var lists := RunKeepsInv(states, acts, frees);
      assert Step(states[k - 1], acts[k - 1], states[k], frees);
      QuotaStep(states[k - 1], acts[k - 1], states[k], frees, lists[k - 1]);
    }
  }

  // Where nobody can go on, every producer has pushed its whole quota, and with a worker
  // all of it has been taken.
  lemma AllPushed(states: seq<State>, acts: seq<Act>, frees: bool, k: nat)
    requires Run(states, acts, frees) && k < |states| && Stuck(states[k], frees)
    ensures |states[k].put| == Sum(Quotas(states[0].threads))
    ensures (exists t :: 0 <= t < |states[k].threads| && IsWorker(states[k].threads[t].pc)) ==>
              |states[k].got| == |states[k].put|
  {
    hide Run, Stuck;
    PushesCounted(states, acts, frees, k);
    StuckMeansDone(states, acts, frees, k);
    SumZero(Quotas(states[k].threads));
    assert |multiset(states[k].put)| == |states[k].put| && |multiset(states[k].got)| == |states[k].got|;
  }
}
