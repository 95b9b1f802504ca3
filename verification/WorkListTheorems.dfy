/** What every run of the work list keeps, and where runs end. */
module WorkListTheorems {
  import opened Prelude
  import opened WorkList

  // ---- A step by t leaves the other threads' view alone ----

  lemma OthersKeep(s: State, s': State, list: seq<Addr>, list': seq<Addr>, t: nat)
    requires t < |s.threads| == |s'.threads| && Inv(s, list)
    requires forall u :: 0 <= u < |s.threads| && u != t ==> s'.threads[u] == s.threads[u]
    requires s'.mutex == s.mutex || (s.mutex == None && s'.mutex == Some(t)) || (s.mutex == Some(t) && s'.mutex == None)
    requires s'.head == s.head || s.mutex == Some(t)
    requires forall a :: a in s.heap && !(Owns(s.threads[t].pc) && a == s.threads[t].node) ==>
               a in s'.heap && s'.heap[a] == s.heap[a]
    requires forall a :: a in list' ==> a in list || (Owns(s.threads[t].pc) && a == s.threads[t].node)
    ensures forall u :: 0 <= u < |s.threads| && u != t ==> ThreadInv(s', list', u)
  {
    hide Chain, NoLostWakeup, Conserved;
    forall u | 0 <= u < |s.threads| && u != t ensures ThreadInv(s', list', u) {
      assert ThreadInv(s, list, u) && ThreadInv(s, list, t);
    }
  }

  lemma ExclusiveKept(s: State, list: seq<Addr>, t: nat, th: Thread)
    requires t < |s.threads| && Inv(s, list)
    requires Owns(th.pc) ==>
               (Owns(s.threads[t].pc) && th.node == s.threads[t].node) || th.node !in s.heap || th.node in list
    ensures Exclusive(s.threads[t := th])
  {
    hide Chain, NoLostWakeup, Conserved;
    forall u | 0 <= u < |s.threads| && u != t && Owns(th.pc) && Owns(s.threads[u].pc)
      ensures s.threads[u].node != th.node
    {
      assert ThreadInv(s, list, u);
    }
  }

  // Steps that keep the sleepers asleep.
  lemma WakeupKept(s: State, s': State, t: nat)
    requires t < |s.threads| == |s'.threads| && NoLostWakeup(s) && s'.threads == s.threads[t := s'.threads[t]]
    requires IsWorker(s'.threads[t].pc) <==> IsWorker(s.threads[t].pc)
    requires Alert(s'.threads[t].pc) || s'.head == None || (!Alert(s.threads[t].pc) && s'.head == s.head)
    ensures NoLostWakeup(s')
  {
    if s'.head.Some? && !Alert(s'.threads[t].pc) {
      if w :| 0 <= w < |s'.threads| && IsWorker(s'.threads[w].pc) {
        assert IsWorker(s.threads[w].pc);
        var u :| 0 <= u < |s.threads| && Alert(s.threads[u].pc);
        assert Alert(s'.threads[u].pc);
      }
    }
  }

  // The parts of the invariant put together after a step of thread t.
  lemma Together(s: State, s': State, list: seq<Addr>, list': seq<Addr>, t: nat)
    requires t < |s.threads| == |s'.threads| && Inv(s, list)
    requires s'.threads == s.threads[t := s'.threads[t]]
    requires s'.mutex == s.mutex || (s.mutex == None && s'.mutex == Some(t)) || (s.mutex == Some(t) && s'.mutex == None)
    requires s'.head == s.head || s.mutex == Some(t)
    requires forall a :: a in s.heap && !(Owns(s.threads[t].pc) && a == s.threads[t].node) ==>
               a in s'.heap && s'.heap[a] == s.heap[a]
    requires forall a :: a in list' ==> a in list || (Owns(s.threads[t].pc) && a == s.threads[t].node)
    requires Owns(s'.threads[t].pc) ==>
               (Owns(s.threads[t].pc) && s'.threads[t].node == s.threads[t].node)
               || s'.threads[t].node !in s.heap || s'.threads[t].node in list
    requires ThreadInv(s', list', t)
    requires IsWorker(s'.threads[t].pc) <==> IsWorker(s.threads[t].pc)
    requires Alert(s'.threads[t].pc) || s'.head == None || (!Alert(s.threads[t].pc) && s'.head == s.head)
    requires Chain(s'.heap, s'.head, list') && Conserved(s', list')
    ensures Inv(s', list')
  {
    OthersKeep(s, s', list, list', t);
    ExclusiveKept(s, list, t, s'.threads[t]);
    WakeupKept(s, s', t);
    hide Exclusive, NoLostWakeup, Chain, Conserved, ThreadInv;
  }

  // ---- The steps that leave the list alone ----

  lemma QuietKeeps(s: State, t: nat, c: Choice, frees: bool, list: seq<Addr>)
    requires t < |s.threads| && Inv(s, list)
    requires s.threads[t].pc !in {Make, Fill, Link, Push, Take, Free, Signal}
    ensures Next(s, t, c, frees) != Fault
    ensures Next(s, t, c, frees).Moved? ==> Inv(Next(s, t, c, frees).s, list)
  {
    hide Exclusive, NoLostWakeup, Chain, Nums;
    assert ThreadInv(s, list, t);
    if Next(s, t, c, frees).Moved? {
      var s' := Next(s, t, c, frees).s;
      assert s'.threads == s.threads[t := s'.threads[t]];
      assert ThreadInv(s', list, t);
      hide ThreadInv;
      Together(s, s', list, list, t);
    }
  }

  // ---- The steps on a node of the thread's own ----

  lemma OwnKeeps(s: State, t: nat, c: Choice, frees: bool, list: seq<Addr>)
    requires t < |s.threads| && Inv(s, list)
    requires s.threads[t].pc in {Make, Fill, Link, Free}
    ensures Next(s, t, c, frees) != Fault
    ensures Next(s, t, c, frees).Moved? ==> Inv(Next(s, t, c, frees).s, list)
  {
    hide Exclusive, NoLostWakeup, Chain, Nums, Conserved;
    InHeap(s, list);
    assert ThreadInv(s, list, t);
    if Next(s, t, c, frees).Moved? {
      var s' := Next(s, t, c, frees).s;
      OwnThread(s, t, c, frees, list);
      ListFrame(s, s', list);
      hide ThreadInv;
      Together(s, s', list, list, t);
    }
  }

  lemma OwnThread(s: State, t: nat, c: Choice, frees: bool, list: seq<Addr>)
    requires t < |s.threads| && ThreadInv(s, list, t) && (forall a :: a in list ==> a in s.heap)
    requires s.threads[t].pc in {Make, Fill, Link, Free} && Next(s, t, c, frees).Moved?
    ensures var s' := Next(s, t, c, frees).s;
      t < |s'.threads| && s'.threads == s.threads[t := s'.threads[t]] && ThreadInv(s', list, t)
  {
  }

  lemma InHeap(s: State, list: seq<Addr>)
    requires Chain(s.heap, s.head, list)
    ensures forall a :: a in list ==> a in s.heap
  {
  }

  lemma PushKeeps(s: State, t: nat, c: Choice, frees: bool, list: seq<Addr>)
    requires t < |s.threads| && Inv(s, list) && s.threads[t].pc == Push
    ensures Next(s, t, c, frees).Moved? && Inv(Next(s, t, c, frees).s, [s.threads[t].node] + list)
  {
    hide Exclusive, NoLostWakeup, Chain, Nums;
    var list' := [s.threads[t].node] + list;
    assert ThreadInv(s, list, t);
    PushList(s, t, list);
    Together(s, Next(s, t, c, frees).s, list, list', t);
  }

  lemma TakeKeeps(s: State, t: nat, c: Choice, frees: bool, list: seq<Addr>)
    requires t < |s.threads| && Inv(s, list) && s.threads[t].pc == Take
    ensures list != [] && Next(s, t, c, frees).Moved? && Inv(Next(s, t, c, frees).s, list[1..])
    ensures Next(s, t, c, frees).s.threads[t].node == list[0]
  {
    hide Exclusive, NoLostWakeup, Chain, Nums;
    TakeList(s, t, list);
    assert ThreadInv(s, list, t);
    Together(s, Next(s, t, c, frees).s, list, list[1..], t);
  }

  // ---- Waking up ----

  // Threads that wake up neither hold nor own anything.
  lemma AwakeThreads(s: State, wake: set<nat>, list: seq<Addr>)
    requires forall t :: 0 <= t < |s.threads| ==> ThreadInv(s, list, t)
    requires Exclusive(s.threads)
    requires forall i :: i in wake ==> i < |s.threads| && s.threads[i].pc == Wait
    ensures forall t :: 0 <= t < |s.threads| ==> ThreadInv(s.(threads := Awake(s.threads, wake)), list, t)
    ensures Exclusive(Awake(s.threads, wake))
  {
    var s' := s.(threads := Awake(s.threads, wake));
    forall u | 0 <= u < |s.threads| ensures ThreadInv(s', list, u) { assert ThreadInv(s, list, u); }
  }

  lemma SpuriousKeeps(s: State, t: nat, list: seq<Addr>)
    requires t < |s.threads| && Inv(s, list) && s.threads[t].pc == Wait
    ensures Inv(With(s, t, s.threads[t].(pc := Woken)), list)
  {
    hide Exclusive, NoLostWakeup, Chain, Nums;
    var s' := With(s, t, s.threads[t].(pc := Woken));
    assert ThreadInv(s, list, t);
    Together(s, s', list, list, t);
  }

  lemma SignalKeeps(s: State, t: nat, c: Choice, frees: bool, list: seq<Addr>)
    requires t < |s.threads| && Inv(s, list) && s.threads[t].pc == Signal
    ensures Next(s, t, c, frees) != Fault
    ensures Next(s, t, c, frees).Moved? ==> Inv(Next(s, t, c, frees).s, list)
  {
    hide Exclusive, NoLostWakeup, Chain, Nums, Awake;
    if Next(s, t, c, frees).Moved? {
      var next := Finished(s.threads[t]);
      var s1 := With(s, t, next);
      assert ThreadInv(s, list, t) && ThreadInv(s1, list, t);
      OthersKeep(s, s1, list, list, t);
      ExclusiveKept(s, list, t, next);
      SomebodyAwake(s, t, next, c.wake);
      hide ThreadInv;
      AwakeThreads(s1, c.wake, list);
    }
  }

  // After a signal somebody is awake to look at the list.
  lemma SomebodyAwake(s: State, t: nat, next: Thread, wake: set<nat>)
    requires t < |s.threads| && s.threads[t].pc == Signal && next.pc == Make && MayWake(s.threads, wake)
    ensures NoLostWakeup(s.(threads := Awake(s.threads[t := next], wake)))
  {
    var r := Awake(s.threads[t := next], wake);
    if w :| 0 <= w < |r| && IsWorker(r[w].pc) {
      if i :| i in wake {
        assert Alert(r[i].pc);
      } else {
        assert s.threads[w].pc != Wait && Alert(r[w].pc);
      }
    }
  }

  // ---- Every step ----

  lemma StepKeeps(s: State, a: Act, s': State, frees: bool, list: seq<Addr>)
    requires Inv(s, list) && Step(s, a, s', frees)
    ensures Inv(s', NextList(s, a, list))
  {
    hide Inv;
    match a
    case Spurious(t) =>
      SpuriousKeeps(s, t, list);
    case Go(t, c) => GoKeeps(s, t, c, frees, list);
  }

  // No step of any thread is a fault: no freed node is touched, none freed twice.
  lemma GoKeeps(s: State, t: nat, c: Choice, frees: bool, list: seq<Addr>)
    requires t < |s.threads| && Inv(s, list)
    ensures Next(s, t, c, frees) != Fault
    ensures Next(s, t, c, frees).Moved? ==> Inv(Next(s, t, c, frees).s, NextList(s, Go(t, c), list))
  {
    var pc := s.threads[t].pc;
    hide Inv;
    if pc == Push { PushKeeps(s, t, c, frees, list); }
    else if pc == Take { TakeKeeps(s, t, c, frees, list); }
    else if pc == Signal { SignalKeeps(s, t, c, frees, list); }
    else if pc in {Make, Fill, Link, Free} { OwnKeeps(s, t, c, frees, list); }
    else { QuietKeeps(s, t, c, frees, list); }
  }

  // ---- Every run ----

  lemma InitInv(s: State)
    requires Init(s)
    ensures Inv(s, [])
  {
    forall t | 0 <= t < |s.threads| ensures ThreadInv(s, [], t) {}
  }

  // The lists of a run, starting empty: each is its predecessor with a node pushed on or
  // taken off its head, or the same.
  ghost predicate Tracks(states: seq<State>, acts: seq<Act>, lists: seq<seq<Addr>>) {
    && |lists| == |states| == |acts| + 1 && lists[0] == []
    && forall k :: 0 <= k < |acts| ==>
         acts[k].t < |states[k].threads| && lists[k + 1] == NextList(states[k], acts[k], lists[k])
  }

  // There is a list for every state of a run, and the invariant ties the two together.
  lemma {:induction false} RunKeepsInv(states: seq<State>, acts: seq<Act>, frees: bool)
    returns (lists: seq<seq<Addr>>)
    requires Run(states, acts, frees)
    ensures Tracks(states, acts, lists)
    ensures forall k :: 0 <= k < |states| ==> Inv(states[k], lists[k])
    decreases |acts|
  {
    hide Inv, Init, Next, NextList;
    if acts == [] {
      InitInv(states[0]);
      lists := [[]];
    } else {
      var n := |acts| - 1;
      var before := RunKeepsInv(states[..n + 1], acts[..n], frees);
      StepKeeps(states[n], acts[n], states[n + 1], frees, before[n]);
      lists := before + [NextList(states[n], acts[n], before[n])];
    }
  }

  // No thread of a run ever touches a node that was freed, frees one twice, or gives up
  // a mutex it does not hold.
  lemma NoFault(states: seq<State>, acts: seq<Act>, frees: bool, k: nat, t: nat, c: Choice)
    requires Run(states, acts, frees) && k < |states| && t < |states[k].threads|
    ensures Next(states[k], t, c, frees) != Fault
  {
    var lists := RunKeepsInv(states, acts, frees);
    GoKeeps(states[k], t, c, frees, lists[k]);
  }

  // Whenever the list is not empty, some worker is not asleep or some producer has yet
  // to signal.
  lemma WakeupNotLost(states: seq<State>, acts: seq<Act>, frees: bool, k: nat, w: nat)
    requires Run(states, acts, frees) && k < |states|
    requires states[k].head.Some? && w < |states[k].threads| && IsWorker(states[k].threads[w].pc)
    ensures exists t :: 0 <= t < |states[k].threads| && Alert(states[k].threads[t].pc)
  {
    var lists := RunKeepsInv(states, acts, frees);
  }

  // A node taken belongs to its taker alone until it is done with it: it is in no list,
  // no other thread's, and still holds the number it was taken with.
  lemma TakenIsOwned(states: seq<State>, acts: seq<Act>, frees: bool, k: nat, t: nat) returns (lists: seq<seq<Addr>>)
    requires Run(states, acts, frees) && k < |states| && t < |states[k].threads|
    requires Owns(states[k].threads[t].pc) && states[k].threads[t].pc != Fill
    ensures Tracks(states, acts, lists)
    ensures var s, th := states[k], states[k].threads[t];
      && th.node in s.heap && s.heap[th.node].num == th.num && th.node !in lists[k]
      && forall u :: 0 <= u < |s.threads| && u != t && Owns(s.threads[u].pc) ==> s.threads[u].node != th.node
  {
    lists := RunKeepsInv(states, acts, frees);
    assert ThreadInv(states[k], lists[k], t);
  }

  // ---- Where runs end ----

  // Nobody can go on, spurious wakeups apart.
  ghost predicate Stuck(s: State, frees: bool) {
    forall t, c :: 0 <= t < |s.threads| ==> Next(s, t, c, frees) == Blocked
  }

  // A thread can go on unless it sleeps, is done producing, or needs a mutex that
  // another holds.
  lemma CanGo(s: State, t: nat, frees: bool, list: seq<Addr>) returns (c: Choice)
    requires t < |s.threads| && Inv(s, list)
    requires s.threads[t].pc != Wait && (s.threads[t].pc == Make ==> s.threads[t].left > 0)
    requires s.threads[t].pc in {LockP, Lock, Woken} ==> s.mutex == None
    ensures Next(s, t, c, frees).Moved?
  {
    var addr := Fresh(s.heap.Keys);
    var wake := set i | 0 <= i < |s.threads| && s.threads[i].pc == Wait;
    c := Choice(addr, Node(None, 0), 0, wake);
    GoKeeps(s, t, c, frees, list);
    WakeAll(s.threads, wake);
    hide Inv;
  }

  lemma WakeAll(threads: seq<Thread>, wake: set<nat>)
    requires wake == set i | 0 <= i < |threads| && threads[i].pc == Wait
    ensures MayWake(threads, wake)
  {
    forall i | 0 <= i < |threads| ensures threads[i].pc == Wait <==> i in wake {}
  }

  lemma {:induction false} Fresh(used: set<nat>) returns (a: nat)
    ensures forall x :: x in used ==> x < a
    decreases |used|
  {
    if used == {} {
      a := 0;
    } else {
      var x :| x in used;
      var b := Fresh(used - {x});
      a := if x < b then b else x + 1;
      forall y | y in used ensures y < a {
        if y != x { assert y in used - {x}; }
      }
    }
  }

  // Where nobody can go on, all producers are done, all workers are asleep and, with at
  // least one worker, the list is empty and what was pushed is exactly what was taken.
  lemma StuckMeansDone(states: seq<State>, acts: seq<Act>, frees: bool, k: nat)
    requires Run(states, acts, frees) && k < |states| && Stuck(states[k], frees)
    ensures forall t :: 0 <= t < |states[k].threads| ==>
              states[k].threads[t].pc == if IsWorker(states[k].threads[t].pc) then Wait else Make
    ensures forall t :: 0 <= t < |states[k].threads| && !IsWorker(states[k].threads[t].pc) ==>
              states[k].threads[t].left == 0
    ensures (exists t :: 0 <= t < |states[k].threads| && IsWorker(states[k].threads[t].pc)) ==>
              states[k].head == None && multiset(states[k].put) == multiset(states[k].got)
  {
    var lists := RunKeepsInv(states, acts, frees);
    var s, list := states[k], lists[k];
    hide Run, Tracks;
    if s.mutex.Some? {
      assert ThreadInv(s, list, s.mutex.value);
      var c := CanGo(s, s.mutex.value, frees, list);
      assert false;
    }
    forall t | 0 <= t < |s.threads|
      ensures s.threads[t].pc == Wait || (s.threads[t].pc == Make && s.threads[t].left == 0)
    {
      if s.threads[t].pc != Wait && (s.threads[t].pc == Make ==> s.threads[t].left > 0) {
        var c := CanGo(s, t, frees, list);
      }
    }
  }
}
