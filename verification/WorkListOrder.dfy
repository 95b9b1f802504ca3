/** The order in which the work list hands out its numbers: that of a stack. */
module WorkListOrder {
  import opened Prelude
  import opened WorkList
  import opened WorkListTheorems

  datatype StackOp = PushOp(num: int) | PopOp

  // What a pure stack holds, top first, and what it has given out, in order.
  datatype Stack = Stack(items: seq<int>, out: seq<int>)

  function Do(st: Stack, op: StackOp): Stack {
    match op
    case PushOp(num) => Stack([num] + st.items, st.out)
    case PopOp => if st.items == [] then st else Stack(st.items[1..], st.out + [st.items[0]])
  }

  function Play(ops: seq<StackOp>): Stack {
    if ops == [] then Stack([], []) else Do(Play(ops[..|ops| - 1]), ops[|ops| - 1])
  }

  function Pushed(ops: seq<StackOp>): seq<int> {
    if ops == [] then []
    else Pushed(ops[..|ops| - 1]) + match ops[|ops| - 1] case PushOp(num) => [num] case PopOp => []
  }

  // The pushes and pops of a step, and of the first k steps of a run.
  function Effect(s: State, a: Act): seq<StackOp>
    requires a.t < |s.threads|
  {
    if a.Go? && s.threads[a.t].pc == Push then [PushOp(s.threads[a.t].num)]
    else if a.Go? && s.threads[a.t].pc == Take then [PopOp]
    else []
  }

  ghost function Ops(states: seq<State>, acts: seq<Act>, k: nat): seq<StackOp>
    requires k <= |acts| < |states|
    requires forall j :: 0 <= j < |acts| ==> acts[j].t < |states[j].threads|
  {
    if k == 0 then [] else Ops(states, acts, k - 1) + Effect(states[k - 1], acts[k - 1])
  }

  function Values(heap: map<Addr, Node>, list: seq<Addr>): seq<int> {
    seq(|list|, i requires 0 <= i < |list| => if list[i] in heap then heap[list[i]].num else 0)
  }

  lemma Plays(ops: seq<StackOp>, more: seq<StackOp>)
    requires |more| <= 1
    ensures Play(ops + more) == if more == [] then Play(ops) else Do(Play(ops), more[0])
    ensures Pushed(ops + more) == Pushed(ops) + (if more != [] && more[0].PushOp? then [more[0].num] else [])
  {
    if more == [] {
      assert ops + more == ops;
    } else {
      assert (ops + more)[..|ops|] == ops;
    }
  }

  // Every step does to the numbers in the list and the numbers given out what a stack does.
  lemma StepIsStack(s: State, a: Act, s': State, frees: bool, list: seq<Addr>)
    requires Inv(s, list) && Step(s, a, s', frees)
    ensures var st, st' := Stack(Values(s.heap, list), s.got), Stack(Values(s'.heap, NextList(s, a, list)), s'.got);
      st' == if Effect(s, a) == [] then st else Do(st, Effect(s, a)[0])
    ensures s'.put == s.put + (if Effect(s, a) != [] && Effect(s, a)[0].PushOp? then [Effect(s, a)[0].num] else [])
  {
    hide NoLostWakeup, Conserved, Exclusive;
    var t := a.t;
    assert ThreadInv(s, list, t);
    hide Chain, Inv;
    if a.Go? && s.threads[t].pc == Push {
      PushIsStack(s, t, list);
    } else if a.Go? && s.threads[t].pc == Take {
      TakeList(s, t, list);
      TakeIsStack(s.heap, list);
    } else if a.Go? {
      OtherIsStack(s, a.t, a.c, s', frees, list);
    }
  }

  lemma PushIsStack(s: State, t: nat, list: seq<Addr>)
    requires t < |s.threads| && s.threads[t].node in s.heap && s.heap[s.threads[t].node].num == s.threads[t].num
    ensures Values(s.heap, [s.threads[t].node] + list) == [s.threads[t].num] + Values(s.heap, list)
  {
  }

  lemma TakeIsStack(heap: map<Addr, Node>, list: seq<Addr>)
    requires list != [] && list[0] in heap
    ensures Values(heap, list) == [heap[list[0]].num] + Values(heap, list[1..])
  {
  }

  lemma OtherIsStack(s: State, t: nat, c: Choice, s': State, frees: bool, list: seq<Addr>)
    requires t < |s.threads| && Inv(s, list) && Next(s, t, c, frees) == Moved(s')
    requires s.threads[t].pc != Push && s.threads[t].pc != Take
    ensures Values(s'.heap, list) == Values(s.heap, list) && s'.got == s.got && s'.put == s.put
  {
    hide NoLostWakeup, Conserved, Exclusive;
    assert ThreadInv(s, list, t);
    InHeap(s, list);
    hide Chain, Inv, ThreadInv, Awake, MayWake;
    assert forall i :: 0 <= i < |list| ==> list[i] in list;
  }

  // Every run is one of a stack: the numbers given out, in order, are those a stack gives
  // out under the same pushes and pops, and the numbers left are what it still holds.
  lemma RunRefinesStack(states: seq<State>, acts: seq<Act>, frees: bool) returns (lists: seq<seq<Addr>>)
    requires Run(states, acts, frees)
    ensures Tracks(states, acts, lists)
    ensures forall k :: 0 <= k < |states| ==>
              && Play(Ops(states, acts, k)) == Stack(Values(states[k].heap, lists[k]), states[k].got)
              && Pushed(Ops(states, acts, k)) == states[k].put
  {
    lists := RunKeepsInv(states, acts, frees);
    hide Inv, Play, Pushed, Values;
    forall k | 0 <= k < |states|
      ensures Play(Ops(states, acts, k)) == Stack(Values(states[k].heap, lists[k]), states[k].got)
      ensures Pushed(Ops(states, acts, k)) == states[k].put
    {
      TakenInStackOrder(states, acts, frees, k, lists);
    }
  }

  lemma {:induction false} TakenInStackOrder(states: seq<State>, acts: seq<Act>, frees: bool, k: nat,
                                             lists: seq<seq<Addr>>)
    requires Run(states, acts, frees) && k <= |acts| && Tracks(states, acts, lists)
    requires forall j :: 0 <= j < |states| ==> Inv(states[j], lists[j])
    ensures Play(Ops(states, acts, k)) == Stack(Values(states[k].heap, lists[k]), states[k].got)
    ensures Pushed(Ops(states, acts, k)) == states[k].put
  {
    hide Inv, Next, NextList, Effect, Play, Pushed;
    if k == 0 {
      assert Play([]) == Stack([], []) && Pushed([]) == [] by { Nothing(); }
      assert Values(states[0].heap, lists[0]) == [];
    } else {
      TakenInStackOrder(states, acts, frees, k - 1, lists);
      assert Step(states[k - 1], acts[k - 1], states[k], frees);
      StepIsStack(states[k - 1], acts[k - 1], states[k], frees, lists[k - 1]);
      OneEffect(states[k - 1], acts[k - 1]);
      Plays(Ops(states, acts, k - 1), Effect(states[k - 1], acts[k - 1]));
    }
  }

  lemma Nothing()
    ensures Play([]) == Stack([], []) && Pushed([]) == []
  {
  }

  lemma OneEffect(s: State, a: Act)
    requires a.t < |s.threads|
    ensures |Effect(s, a)| <= 1
  {
  }
}
