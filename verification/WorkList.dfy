/** A work list guarded by a mutex and a condition variable: any number of producers
    push nodes at its head, any number of workers wait for one, take the head and, in
    one of the two programs, free it. One step is one call on the mutex or the condition
    variable or one access to a shared variable or a node. */
module WorkList {
  import opened Prelude

  type Addr = nat
  datatype Node = Node(next: Option<Addr>, num: int)

  // Producer: Make (allocate), Fill (set the number), LockP, Link (set the node's next),
  // Push (set the head), UnlockP, Signal. Worker: Lock, Test (the head), Wait (asleep),
  // Woken (taking the mutex back), Take (move the head on), Unlock, Use, Free.
  datatype Pc = Make | Fill | LockP | Link | Push | UnlockP | Signal
              | Lock | Test | Wait | Woken | Take | Unlock | Use | Free

  predicate IsWorker(pc: Pc) {
    pc.Lock? || pc.Test? || pc.Wait? || pc.Woken? || pc.Take? || pc.Unlock? || pc.Use? || pc.Free?
  }

  // `node` is the local pointer, `num` the number of the node it was last at, `left` how
  // many nodes a producer has still to finish.
  datatype Thread = Thread(pc: Pc, node: Addr, num: int, left: nat)

  // `put` and `got` record the numbers in the order their nodes were pushed and taken.
  datatype State = State(heap: map<Addr, Node>, head: Option<Addr>, mutex: Option<nat>,
                         threads: seq<Thread>, put: seq<int>, got: seq<int>)

  // What a step may choose: a fresh node and what is in it, a number, who wakes up.
  datatype Choice = Choice(addr: Addr, junk: Node, num: int, wake: set<nat>)

  datatype Outcome = Moved(s: State) | Blocked | Fault

  function With(s: State, t: nat, th: Thread): State
    requires t < |s.threads|
  {
    s.(threads := s.threads[t := th])
  }

  function Awake(threads: seq<Thread>, wake: set<nat>): (r: seq<Thread>)
    ensures |r| == |threads|
    ensures forall i :: 0 <= i < |threads| ==> r[i] == if i in wake then threads[i].(pc := Woken) else threads[i]
  {
    seq(|threads|, i requires 0 <= i < |threads| => if i in wake then threads[i].(pc := Woken) else threads[i])
  }

  // A producer that has finished a node.
  function Finished(th: Thread): Thread {
    th.(pc := Make, left := if th.left > 0 then th.left - 1 else 0)
  }

  // A signal wakes at least one waiting thread, if there is one.
  predicate MayWake(threads: seq<Thread>, wake: set<nat>) {
    && (forall i :: i in wake ==> i < |threads| && threads[i].pc == Wait)
    && (wake == {} ==> forall i :: 0 <= i < |threads| ==> threads[i].pc != Wait)
  }

  // The next step of thread t. Touching a node that is not there is a fault, and so is
  // giving up a mutex that is not held.
  function Next(s: State, t: nat, c: Choice, frees: bool): Outcome
    requires t < |s.threads|
  {
    var th := s.threads[t];
    match th.pc
    case Make =>
      if th.left == 0 || c.addr in s.heap then Blocked
      else Moved(With(s, t, th.(pc := Fill, node := c.addr)).(heap := s.heap[c.addr := c.junk]))
    case Fill =>
      if th.node !in s.heap then Fault
      else Moved(With(s, t, th.(pc := LockP, num := c.num)).(heap := s.heap[th.node := s.heap[th.node].(num := c.num)]))
    case LockP =>
      if s.mutex.Some? then Blocked else Moved(With(s, t, th.(pc := Link)).(mutex := Some(t)))
    case Link =>
      if th.node !in s.heap then Fault
      else Moved(With(s, t, th.(pc := Push)).(heap := s.heap[th.node := s.heap[th.node].(next := s.head)]))
    case Push =>
      Moved(With(s, t, th.(pc := UnlockP)).(head := Some(th.node), put := s.put + [th.num]))
    case UnlockP =>
      if s.mutex != Some(t) then Fault else Moved(With(s, t, th.(pc := Signal)).(mutex := None))
    case Signal =>
      if !MayWake(s.threads, c.wake) then Blocked
      else
        Moved(s.(threads := Awake(s.threads[t := Finished(th)], c.wake)))
    case Lock =>
      if s.mutex.Some? then Blocked else Moved(With(s, t, th.(pc := Test)).(mutex := Some(t)))
    case Test =>
      if s.head.Some? then Moved(With(s, t, th.(pc := Take, node := s.head.value)))
      else if s.mutex != Some(t) then Fault
      else Moved(With(s, t, th.(pc := Wait)).(mutex := None))
    case Wait => Blocked
    case Woken =>
      if s.mutex.Some? then Blocked else Moved(With(s, t, th.(pc := Test)).(mutex := Some(t)))
    case Take =>
      if th.node !in s.heap then Fault
      else
        var n := s.heap[th.node];
        Moved(With(s, t, th.(pc := Unlock, num := n.num)).(head := n.next, got := s.got + [n.num]))
    case Unlock =>
      if s.mutex != Some(t) then Fault else Moved(With(s, t, th.(pc := Use)).(mutex := None))
    case Use =>
      if th.node !in s.heap then Fault
      else Moved(With(s, t, th.(pc := if frees then Free else Lock, num := s.heap[th.node].num)))
    case Free =>
      if th.node !in s.heap then Fault
      else Moved(With(s, t, th.(pc := Lock)).(heap := s.heap - {th.node}))
  }

  // A waiting thread may also wake up for no reason.
  datatype Act = Go(t: nat, c: Choice) | Spurious(t: nat)

  ghost predicate Step(s: State, a: Act, s': State, frees: bool) {
    && a.t < |s.threads|
    && match a
       case Go(t, c) => Next(s, t, c, frees) == Moved(s')
       case Spurious(t) => s.threads[t].pc == Wait && s' == With(s, t, s.threads[t].(pc := Woken))
  }

  ghost predicate Init(s: State) {
    && s.heap == map[] && s.head == None && s.mutex == None && s.put == [] && s.got == []
    && forall t :: 0 <= t < |s.threads| ==> s.threads[t].pc == Make || s.threads[t].pc == Lock
  }

  ghost predicate Run(states: seq<State>, acts: seq<Act>, frees: bool) {
    && |states| == |acts| + 1 && Init(states[0])
    && forall k :: 0 <= k < |acts| ==> Step(states[k], acts[k], states[k + 1], frees)
  }

  // ---- The invariant; `list` is the work list as a sequence, head first ----

  ghost predicate Chain(heap: map<Addr, Node>, head: Option<Addr>, list: seq<Addr>) {
    && head == At(list, 0)
    && NoDuplicates(list)
    && (forall i :: 0 <= i < |list| ==> list[i] in heap)
    && (forall i, j {:trigger list[i], At(list, j)} ::
          0 <= i < |list| && j == i + 1 ==> heap[list[i]].next == At(list, j))
  }

  function Nums(heap: map<Addr, Node>, list: seq<Addr>): multiset<int> {
    if list == [] then multiset{}
    else multiset{if list[0] in heap then heap[list[0]].num else 0} + Nums(heap, list[1..])
  }

  // The thread's node is its own: not yet pushed, or taken.
  predicate Owns(pc: Pc) {
    pc.Fill? || pc.LockP? || pc.Link? || pc.Push? || pc.Unlock? || pc.Use? || pc.Free?
  }

  predicate Holds(pc: Pc) {
    pc.Link? || pc.Push? || pc.UnlockP? || pc.Test? || pc.Take? || pc.Unlock?
  }

  ghost predicate ThreadInv(s: State, list: seq<Addr>, t: nat)
    requires t < |s.threads|
  {
    var th := s.threads[t];
    && (Holds(th.pc) <==> s.mutex == Some(t))
    && (Owns(th.pc) ==> th.node in s.heap && th.node !in list)
    && (Owns(th.pc) && th.pc != Fill ==> th.node in s.heap && s.heap[th.node].num == th.num)
    && (th.pc == Push ==> th.node in s.heap && s.heap[th.node].next == s.head)
    && (th.pc == Take ==> s.head == Some(th.node))
    && (!IsWorker(th.pc) && th.pc != Make ==> th.left > 0)
  }

  ghost predicate Exclusive(threads: seq<Thread>) {
    forall t, u :: 0 <= t < u < |threads| && Owns(threads[t].pc) && Owns(threads[u].pc) ==>
                     threads[t].node != threads[u].node
  }

  // Somebody will look at the list: a worker that is not asleep, or a producer that has
  // pushed and not signalled yet.
  predicate Alert(pc: Pc) {
    (IsWorker(pc) && pc != Wait) || pc == UnlockP || pc == Signal
  }

  ghost predicate NoLostWakeup(s: State) {
    s.head.Some? && (exists t :: 0 <= t < |s.threads| && IsWorker(s.threads[t].pc)) ==>
      exists t :: 0 <= t < |s.threads| && Alert(s.threads[t].pc)
  }

  ghost predicate Conserved(s: State, list: seq<Addr>) {
    multiset(s.put) == Nums(s.heap, list) + multiset(s.got)
  }

  ghost predicate Inv(s: State, list: seq<Addr>) {
    && Chain(s.heap, s.head, list)
    && (s.mutex.Some? ==> s.mutex.value < |s.threads|)
    && (forall t :: 0 <= t < |s.threads| ==> ThreadInv(s, list, t))
    && Exclusive(s.threads)
    && NoLostWakeup(s)
    && Conserved(s, list)
  }

  // What a step does to the list: a push or a removal at its head, or nothing.
  ghost function NextList(s: State, a: Act, list: seq<Addr>): seq<Addr>
    requires a.t < |s.threads|
  {
    if a.Go? && s.threads[a.t].pc == Push then [s.threads[a.t].node] + list
    else if a.Go? && s.threads[a.t].pc == Take && list != [] then list[1..]
    else list
  }

  // ---- Facts about the list ----

  lemma {:induction false} NumsFrame(heap: map<Addr, Node>, heap': map<Addr, Node>, list: seq<Addr>)
    requires forall i :: 0 <= i < |list| ==>
               list[i] in heap && list[i] in heap' && heap[list[i]].num == heap'[list[i]].num
    ensures Nums(heap, list) == Nums(heap', list)
  {
    if list != [] {
      assert forall i :: 0 <= i < |list[1..]| ==> list[1..][i] == list[i + 1];
      NumsFrame(heap, heap', list[1..]);
    }
  }

  // Nodes outside the list may change, come and go.
  lemma ListFrame(s: State, s': State, list: seq<Addr>)
    requires Chain(s.heap, s.head, list) && Conserved(s, list)
    requires s'.head == s.head && s'.put == s.put && s'.got == s.got
    requires forall a :: a in list ==> a in s'.heap && s'.heap[a] == s.heap[a]
    ensures Chain(s'.heap, s'.head, list) && Conserved(s', list)
  {
    assert forall i :: 0 <= i < |list| ==> list[i] in list;
    NumsFrame(s.heap, s'.heap, list);
  }

  lemma PushList(s: State, t: nat, list: seq<Addr>)
    requires t < |s.threads| && Inv(s, list) && s.threads[t].pc == Push
    ensures var th, list' := s.threads[t], [s.threads[t].node] + list;
      && Chain(s.heap, Some(th.node), list')
      && multiset(s.put + [th.num]) == Nums(s.heap, list') + multiset(s.got)
  {
    var th := s.threads[t];
    assert ThreadInv(s, list, t);
    hide Exclusive, NoLostWakeup;
    var list' := [th.node] + list;
    assert list'[1..] == list;
    forall i | 0 <= i < |list'| ensures list'[i] in s.heap && s.heap[list'[i]].next == At(list', i + 1) {
      if i > 0 {
        assert list'[i] == list[i - 1];
        assert At(list', i + 1) == At(list, i);
      } else {
        assert At(list', 1) == At(list, 0);
      }
    }
  }

  lemma TakeList(s: State, t: nat, list: seq<Addr>)
    requires t < |s.threads| && Inv(s, list) && s.threads[t].pc == Take
    ensures list != [] && s.threads[t].node == list[0] && list[0] in s.heap && list[0] !in list[1..]
    ensures var n := s.heap[list[0]];
      && Chain(s.heap, n.next, list[1..])
      && multiset(s.put) == Nums(s.heap, list[1..]) + multiset(s.got + [n.num])
  {
    assert ThreadInv(s, list, t);
    hide Exclusive, NoLostWakeup;
    var tail := list[1..];
    assert s.heap[list[0]].next == At(list, 1) == At(tail, 0);
    forall i | 0 <= i < |tail| ensures tail[i] in s.heap && s.heap[tail[i]].next == At(tail, i + 1) {
      assert tail[i] == list[i + 1];
      assert At(tail, i + 1) == At(list, i + 2);
    }
  }
}
