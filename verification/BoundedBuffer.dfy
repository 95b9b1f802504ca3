/** The bounded buffer shared by any number of producers and consumers: two
    counting semaphores, a mutex, a ring of BUFFER_SIZE slots with its in, out and
    count variables. One step is one semaphore or mutex call or one access to a
    shared variable. */
module BoundedBuffer {
  import opened Prelude

  const BUFFER_SIZE: nat := 5

  datatype Role = Producer | Consumer

  // The points of the loop body, the same for both roles.
  datatype Pc = Wait | Lock | Access | Advance | Count | Unlock | Post

  // `left` is the number of iterations still to finish, `item` the local item.
  datatype Thread = Thread(role: Role, pc: Pc, left: nat, item: int)

  // `put` and `got` record the items in the order they entered and left the buffer.
  datatype State = State(
    buffer: seq<int>, inPos: int, outPos: int, count: int,
    empty: int, full: int, mutex: Option<nat>,
    threads: seq<Thread>,
    put: seq<int>, got: seq<int>)

  function Goto(s: State, t: nat, pc: Pc): State
    requires t < |s.threads|
  {
    s.(threads := s.threads[t := s.threads[t].(pc := pc)])
  }

  // The next step of thread t; None when it waits or is finished. `item` is the
  // value a producer makes up.
  function Next(s: State, t: nat, item: int): Option<State>
    requires t < |s.threads|
  {
    var th := s.threads[t];
    match th.pc
    case Wait =>
      if th.left == 0 then None
      else if th.role.Producer? then
        if s.empty == 0 then None
        else Some(s.(empty := s.empty - 1, threads := s.threads[t := th.(pc := Lock, item := item)]))
      else
        if s.full == 0 then None else Some(Goto(s, t, Lock).(full := s.full - 1))
    case Lock =>
      if s.mutex.Some? then None else Some(Goto(s, t, Access).(mutex := Some(t)))
    case Access =>
      if th.role.Producer? then
        if !(0 <= s.inPos < |s.buffer|) then None
        else Some(Goto(s, t, Advance).(buffer := s.buffer[s.inPos := th.item], put := s.put + [th.item]))
      else
        if !(0 <= s.outPos < |s.buffer|) then None
        else
          var x := s.buffer[s.outPos];
          Some(s.(threads := s.threads[t := th.(pc := Advance, item := x)], got := s.got + [x]))
    case Advance =>
      if th.role.Producer? then Some(Goto(s, t, Count).(inPos := (s.inPos + 1) % BUFFER_SIZE))
      else Some(Goto(s, t, Count).(outPos := (s.outPos + 1) % BUFFER_SIZE))
    case Count =>
      Some(Goto(s, t, Unlock).(count := if th.role.Producer? then s.count + 1 else s.count - 1))
    case Unlock =>
      if s.mutex != Some(t) then None else Some(Goto(s, t, Post).(mutex := None))
    case Post =>
      var s1 := s.(threads := s.threads[t := th.(pc := Wait, left := if th.left > 0 then th.left - 1 else 0)]);
      Some(if th.role.Producer? then s1.(full := s.full + 1) else s1.(empty := s.empty + 1))
  }

  ghost predicate Step(s: State, t: nat, s': State) {
    t < |s.threads| && exists item :: Next(s, t, item) == Some(s')
  }

  ghost predicate Init(s: State) {
    && |s.buffer| == BUFFER_SIZE && s.inPos == 0 && s.outPos == 0 && s.count == 0
    && s.empty == BUFFER_SIZE && s.full == 0 && s.mutex == None
    && s.put == [] && s.got == []
    && forall t :: 0 <= t < |s.threads| ==> s.threads[t].pc == Wait
  }

  ghost predicate Run(states: seq<State>, who: seq<nat>) {
    && |states| == |who| + 1
    && Init(states[0])
    && forall i :: 0 <= i < |who| ==> Step(states[i], who[i], states[i + 1])
  }

  // ---- Permits ----

  predicate Has(th: Thread, role: Role, pcs: set<Pc>) {
    th.role == role && th.pc in pcs
  }

  // Threads that took a slot permit and have not written, or wrote and have not posted.
  function Writing(th: Thread): int { Ind(Has(th, Producer, {Lock, Access})) }
  function Written(th: Thread): int { Ind(Has(th, Producer, {Advance, Count, Unlock, Post})) }

  // Threads that took an item permit and have not read, or read and have not posted.
  function Reading(th: Thread): int { Ind(Has(th, Consumer, {Lock, Access})) }
  function Read(th: Thread): int { Ind(Has(th, Consumer, {Advance, Count, Unlock, Post})) }

  // Iterations left to a producer, and to a consumer.
  function ToPut(th: Thread): int { if th.role.Producer? then th.left else 0 }
  function ToGet(th: Thread): int { if th.role.Consumer? then th.left else 0 }

  // Steps left to a thread.
  function Rank(pc: Pc): int {
    match pc
    case Wait => 0 case Lock => 1 case Access => 2 case Advance => 3
    case Count => 4 case Unlock => 5 case Post => 6
  }

  function StepsLeft(th: Thread): int { 7 * th.left - Rank(th.pc) }

  function Tally(threads: seq<Thread>, f: Thread -> int): int {
    Sum(seq(|threads|, i requires 0 <= i < |threads| => f(threads[i])))
  }

  lemma TallyUpdate(threads: seq<Thread>, t: nat, th: Thread, f: Thread -> int)
    requires t < |threads|
    ensures Tally(threads[t := th], f) == Tally(threads, f) - f(threads[t]) + f(th)
  {
    var c := seq(|threads|, i requires 0 <= i < |threads| => f(threads[i]));
    assert seq(|threads|, i requires 0 <= i < |threads| => f(threads[t := th][i])) == c[t := f(th)];
    SumUpdate(c, t, f(th));
  }

  lemma TallyAtLeast(threads: seq<Thread>, t: nat, f: Thread -> int)
    requires t < |threads| && forall i :: 0 <= i < |threads| ==> f(threads[i]) >= 0
    ensures f(threads[t]) <= Tally(threads, f)
  {
    SumAtLeastOne(seq(|threads|, i requires 0 <= i < |threads| => f(threads[i])), t);
  }

  lemma TallyNonNegative(threads: seq<Thread>, f: Thread -> int)
    requires forall i :: 0 <= i < |threads| ==> f(threads[i]) >= 0
    ensures Tally(threads, f) >= 0
    ensures Tally(threads, f) == 0 ==> forall i :: 0 <= i < |threads| ==> f(threads[i]) == 0
  {
    var c := seq(|threads|, i requires 0 <= i < |threads| => f(threads[i]));
    SumLowerBound(c, 0);
    if Tally(threads, f) == 0 {
      forall i | 0 <= i < |threads| ensures f(threads[i]) == 0 { assert c[i] == 0; }
    }
  }

  // ---- The invariant ----

  predicate InSection(pc: Pc) { pc in {Access, Advance, Count, Unlock} }

  ghost predicate MutexOk(s: State) {
    && (s.mutex.Some? ==> s.mutex.value < |s.threads| && InSection(s.threads[s.mutex.value].pc))
    && (forall t :: 0 <= t < |s.threads| && InSection(s.threads[t].pc) ==> s.mutex == Some(t))
    && (forall t :: 0 <= t < |s.threads| && s.threads[t].pc != Wait ==> s.threads[t].left > 0)
  }

  // What the thread inside the section has done to the variables so far.
  function Holder(s: State): Option<Thread> {
    if s.mutex.Some? && s.mutex.value < |s.threads| then Some(s.threads[s.mutex.value]) else None
  }

  function Ahead(s: State, role: Role, pcs: set<Pc>): int {
    Ind(Holder(s).Some? && Has(Holder(s).value, role, pcs))
  }

  // The slot of the j-th item put.
  function Slot(j: int): (i: nat)
    ensures i < BUFFER_SIZE
  {
    j % BUFFER_SIZE
  }

  // The ring: the items put and not yet got lie in consecutive slots from outPos.
  ghost predicate RingOk(s: State) {
    var w, r := |s.put|, |s.got|;
    && |s.buffer| == BUFFER_SIZE
    && r <= w <= r + BUFFER_SIZE
    && s.got == s.put[..r]
    && (forall j :: r <= j < w ==> s.buffer[Slot(j)] == s.put[j])
  }

  ghost predicate PositionsOk(s: State) {
    var w, r := |s.put|, |s.got|;
    && s.inPos == Slot(w - Ahead(s, Producer, {Advance}))
    && s.outPos == Slot(r - Ahead(s, Consumer, {Advance}))
    && s.count == w - r - Ahead(s, Producer, {Advance, Count}) + Ahead(s, Consumer, {Advance, Count})
  }

  ghost predicate PermitsOk(s: State) {
    && s.full >= 0 && s.empty >= 0
    && |s.put| - |s.got| == s.full + Tally(s.threads, Written) + Tally(s.threads, Reading)
    && BUFFER_SIZE - (|s.put| - |s.got|) == s.empty + Tally(s.threads, Writing) + Tally(s.threads, Read)
  }

  ghost predicate Inv(s: State) {
    MutexOk(s) && RingOk(s) && PositionsOk(s) && PermitsOk(s)
  }

  // ---- Steps ----

  // How one thread's move changes the tallies.
  lemma Tallies(s: State, t: nat, th: Thread)
    requires t < |s.threads|
    ensures var a, b := s.threads, s.threads[t := th];
      && Tally(b, Writing) == Tally(a, Writing) - Writing(a[t]) + Writing(th)
      && Tally(b, Written) == Tally(a, Written) - Written(a[t]) + Written(th)
      && Tally(b, Reading) == Tally(a, Reading) - Reading(a[t]) + Reading(th)
      && Tally(b, Read) == Tally(a, Read) - Read(a[t]) + Read(th)
  {
    TallyUpdate(s.threads, t, th, Writing);
    TallyUpdate(s.threads, t, th, Written);
    TallyUpdate(s.threads, t, th, Reading);
    TallyUpdate(s.threads, t, th, Read);
  }

  // A thread with a permit for its access finds room to write, or an item to read.
  lemma PermitMeansRoom(s: State, t: nat)
    requires Inv(s) && t < |s.threads| && s.threads[t].pc in {Lock, Access}
    ensures s.threads[t].role == Producer ==> |s.put| < |s.got| + BUFFER_SIZE
    ensures s.threads[t].role == Consumer ==> |s.got| < |s.put|
  {
    TallyAtLeast(s.threads, t, Writing);
    TallyAtLeast(s.threads, t, Reading);
    TallyNonNegative(s.threads, Written);
    TallyNonNegative(s.threads, Writing);
    TallyNonNegative(s.threads, Reading);
    TallyNonNegative(s.threads, Read);
  }

  lemma MutexKept(s: State, t: nat, item: int)
    requires MutexOk(s) && t < |s.threads| && Next(s, t, item).Some?
    ensures MutexOk(Next(s, t, item).value)
  {
  }

  lemma PermitsKept(s: State, t: nat, item: int)
    requires MutexOk(s) && PermitsOk(s) && t < |s.threads| && Next(s, t, item).Some?
    ensures PermitsOk(Next(s, t, item).value)
  {
    hide MutexOk, Tally;
    var s' := Next(s, t, item).value;
    Tallies(s, t, s'.threads[t]);
  }

  lemma RingKept(s: State, t: nat, item: int)
    requires Inv(s) && t < |s.threads| && Next(s, t, item).Some?
    ensures RingOk(Next(s, t, item).value)
  {
    hide Slot, PermitsOk, MutexOk;
    if s.threads[t].pc == Access {
      PermitMeansRoom(s, t);
      PlaceIs(s, t);
      hide PositionsOk;
      if s.threads[t].role == Producer { PutKeepsRing(s, t, item); } else { GotKeepsRing(s, t, item); }
    } else {
      hide PositionsOk;
    }
  }

  // Where a thread in the section writes or reads.
  lemma PlaceIs(s: State, t: nat)
    requires MutexOk(s) && PositionsOk(s) && t < |s.threads| && s.threads[t].pc == Access
    ensures s.inPos == Slot(|s.put|) && s.outPos == Slot(|s.got|)
  {
    hide MutexOk, Slot;
    MutexSection(s, t);
  }

  lemma PutKeepsRing(s: State, t: nat, item: int)
    requires RingOk(s) && t < |s.threads| && s.threads[t].pc == Access && s.threads[t].role == Producer
    requires s.inPos == Slot(|s.put|) && |s.put| < |s.got| + BUFFER_SIZE && Next(s, t, item).Some?
    ensures RingOk(Next(s, t, item).value)
  {
    hide Slot;
    var s', w := Next(s, t, item).value, |s.put|;
    forall j | |s.got| <= j < w + 1 ensures s'.buffer[Slot(j)] == s'.put[j] {
      if j < w { OtherSlot(j, w); }
    }
  }

  lemma GotKeepsRing(s: State, t: nat, item: int)
    requires RingOk(s) && t < |s.threads| && s.threads[t].pc == Access && s.threads[t].role == Consumer
    requires s.outPos == Slot(|s.got|) && |s.got| < |s.put| && Next(s, t, item).Some?
    ensures RingOk(Next(s, t, item).value)
  {
    hide Slot;
    var r := |s.got|;
    assert s.put[..r + 1] == s.put[..r] + [s.put[r]];
  }

  lemma OtherSlot(j: int, k: int)
    requires j < k < j + BUFFER_SIZE
    ensures Slot(j) != Slot(k)
  {
    SlotsDiffer(j, k, BUFFER_SIZE);
  }

  lemma PositionsKeptInside(s: State, t: nat, item: int)
    requires MutexOk(s) && PositionsOk(s) && t < |s.threads| && Next(s, t, item).Some?
    requires s.threads[t].pc in {Access, Advance, Count}
    ensures PositionsOk(Next(s, t, item).value)
  {
    hide MutexOk, InSection;
    var s' := Next(s, t, item).value;
    MutexSection(s, t);
    SlotAfter(|s.put|);
    SlotAfter(|s.got|);
    hide Slot;
    assert Holder(s') == Some(s'.threads[t]);
  }

  lemma SlotAfter(x: int)
    ensures (Slot(x - 1) + 1) % BUFFER_SIZE == Slot(x)
  {
    NextSlot(x, BUFFER_SIZE);
  }

  lemma MutexSection(s: State, t: nat)
    requires MutexOk(s) && t < |s.threads|
    ensures s.threads[t].pc in {Access, Advance, Count, Unlock} ==>
              s.mutex == Some(t) && Holder(s) == Some(s.threads[t])
    ensures s.threads[t].pc in {Wait, Lock, Post} ==> s.mutex != Some(t)
  {
  }

  lemma PositionsKeptOutside(s: State, t: nat, item: int)
    requires MutexOk(s) && PositionsOk(s) && t < |s.threads| && Next(s, t, item).Some?
    requires s.threads[t].pc !in {Access, Advance, Count}
    ensures PositionsOk(Next(s, t, item).value)
  {
    hide MutexOk, InSection;
    var s' := Next(s, t, item).value;
    MutexSection(s, t);
    if s.mutex.Some? && s.mutex.value != t { assert Holder(s') == Holder(s); }
  }

  lemma StepKeepsInv(s: State, t: nat, item: int)
    requires Inv(s) && t < |s.threads| && Next(s, t, item).Some?
    ensures Inv(Next(s, t, item).value)
  {
    hide MutexOk, RingOk, PositionsOk, PermitsOk, Next;
    MutexKept(s, t, item);
    PermitsKept(s, t, item);
    RingKept(s, t, item);
    if s.threads[t].pc in {Access, Advance, Count} { PositionsKeptInside(s, t, item); }
    else { PositionsKeptOutside(s, t, item); }
  }

  lemma InitInv(s: State)
    requires Init(s)
    ensures Inv(s)
  {
    forall f: Thread -> int | forall i :: 0 <= i < |s.threads| ==> f(s.threads[i]) == 0
      ensures Tally(s.threads, f) == 0
    {
      TallyZero(s.threads, f);
    }
  }

  lemma TallyZero(threads: seq<Thread>, f: Thread -> int)
    requires forall i :: 0 <= i < |threads| ==> f(threads[i]) == 0
    ensures Tally(threads, f) == 0
  {
    SumZero(seq(|threads|, i requires 0 <= i < |threads| => f(threads[i])));
  }

  lemma {:induction false} Reachable(states: seq<State>, who: seq<nat>, i: nat)
    requires Run(states, who) && i < |states|
    ensures Inv(states[i])
  {
    hide Inv, Next;
    if i == 0 {
      InitInv(states[0]);
    } else {
      Reachable(states, who, i - 1);
      assert Step(states[i - 1], who[i - 1], states[i]);
      var item :| Next(states[i - 1], who[i - 1], item) == Some(states[i]);
      StepKeepsInv(states[i - 1], who[i - 1], item);
    }
  }

  // ---- The buffer is a bounded first-in first-out queue ----

  function Queue(s: State): seq<int> {
    if |s.got| <= |s.put| then s.put[|s.got|..] else []
  }

  // Each step adds the producer's item at the tail, takes the head, or leaves the
  // queue alone; it never holds more than BUFFER_SIZE items.
  lemma StepRefinesQueue(s: State, t: nat, item: int)
    requires Inv(s) && t < |s.threads| && Next(s, t, item).Some?
    ensures var s' := Next(s, t, item).value; var th := s.threads[t];
      if th.pc == Access && th.role == Producer then
        |Queue(s)| < BUFFER_SIZE && Queue(s') == Queue(s) + [th.item]
      else if th.pc == Access then
        |Queue(s)| > 0 && [s'.threads[t].item] + Queue(s') == Queue(s)
      else Queue(s') == Queue(s)
  {
    hide Slot, PermitsOk, MutexOk;
    if s.threads[t].pc == Access {
      PermitMeansRoom(s, t);
      PlaceIs(s, t);
      hide PositionsOk;
      QueueSlices(s.put, |s.got|, s.threads[t].item);
    } else {
      hide PositionsOk, RingOk;
    }
  }

  lemma QueueSlices(put: seq<int>, r: nat, item: int)
    requires r <= |put|
    ensures (put + [item])[r..] == put[r..] + [item]
    ensures r < |put| ==> put[r..] == [put[r]] + put[r + 1..]
  {
  }

  // ---- The items of a run ----

  // A producer on its way to the buffer with its item.
  predicate Carries(th: Thread) { th.role.Producer? && th.pc in {Lock, Access} }

  lemma CarriesOn(s: State, u: nat, s': State, t: nat) returns (item: int)
    requires Step(s, u, s') && t < |s'.threads| && Carries(s'.threads[t])
    ensures |s'.threads| == |s.threads| && Next(s, u, item) == Some(s')
    ensures Carries(s.threads[t]) ==> s'.threads[t].item == s.threads[t].item
    ensures !Carries(s.threads[t]) ==> u == t && s.threads[t].pc == Wait && s'.threads[t].item == item
  {
    item :| Next(s, u, item) == Some(s');
    CarriesNext(s, u, item, t);
  }

  lemma CarriesNext(s: State, u: nat, item: int, t: nat)
    requires u < |s.threads| && Next(s, u, item).Some?
    ensures var s' := Next(s, u, item).value;
      && |s'.threads| == |s.threads|
      && (t < |s.threads| && Carries(s'.threads[t]) ==>
            if Carries(s.threads[t]) then s'.threads[t].item == s.threads[t].item
            else u == t && s.threads[t].pc == Wait && s'.threads[t].item == item)
  {
  }

  // The item a producer carries is the one it made up when it last waited for a slot.
  lemma {:induction false} CarriesMade(states: seq<State>, who: seq<nat>, k: nat, t: nat) returns (j: nat, item: int)
    requires Run(states, who) && k < |states| && t < |states[k].threads| && Carries(states[k].threads[t])
    ensures j < k && who[j] == t && t < |states[j].threads| && states[j].threads[t].pc == Wait
    ensures Next(states[j], t, item) == Some(states[j + 1]) && states[k].threads[t].item == item
    ensures forall i :: j < i <= k ==> t < |states[i].threads| && Carries(states[i].threads[t])
    decreases k
  {
    hide Next, Carries;
    if k == 0 {
      StartsIdle(states[0], t);
      assert false;
    } else {
      assert Step(states[k - 1], who[k - 1], states[k]);
      item := CarriesOn(states[k - 1], who[k - 1], states[k], t);
      if Carries(states[k - 1].threads[t]) {
        j, item := CarriesMade(states, who, k - 1, t);
      } else {
        j := k - 1;
      }
    }
  }

  lemma StartsIdle(s: State, t: nat)
    requires Init(s) && t < |s.threads|
    ensures !Carries(s.threads[t])
  {
  }

  // What enters the buffer is the item the producer made up for this iteration.
  lemma PutIsMade(states: seq<State>, who: seq<nat>, k: nat) returns (j: nat, item: int)
    requires Run(states, who) && k < |who| && who[k] < |states[k].threads|
    requires states[k].threads[who[k]].role == Producer && states[k].threads[who[k]].pc == Access
    ensures j < k && who[j] == who[k] && who[k] < |states[j].threads| && states[j].threads[who[k]].pc == Wait
    ensures Next(states[j], who[k], item) == Some(states[j + 1])
    ensures states[k + 1].put == states[k].put + [item]
    ensures forall i :: j < i <= k ==> who[k] < |states[i].threads| && Carries(states[i].threads[who[k]])
  {
    j, item := CarriesMade(states, who, k, who[k]);
    assert Step(states[k], who[k], states[k + 1]);
  }

  // In every reachable state the items taken are a prefix of the items put, in
  // order; the waiting ones sit in consecutive slots from the oldest; and when no
  // thread is inside, in = (out + count) mod BUFFER_SIZE.
  lemma QueueInRing(states: seq<State>, who: seq<nat>, i: nat)
    requires Run(states, who) && i < |states|
    ensures var s := states[i];
      && s.got <= s.put && |Queue(s)| <= BUFFER_SIZE && |s.buffer| == BUFFER_SIZE
      && (forall k :: 0 <= k < |Queue(s)| ==> s.buffer[(|s.got| + k) % BUFFER_SIZE] == Queue(s)[k])
      && (s.mutex == None ==>
            && s.count == |Queue(s)| && 0 <= s.count <= BUFFER_SIZE
            && s.outPos == |s.got| % BUFFER_SIZE
            && s.inPos == (s.outPos + s.count) % BUFFER_SIZE)
  {
    hide Run, MutexOk, PermitsOk, Slot, RingOk, PositionsOk, Queue;
    Reachable(states, who, i);
    RingHolds(states[i]);
    if states[i].mutex == None { PositionsHold(states[i]); }
  }

  lemma RingHolds(s: State)
    requires RingOk(s)
    ensures s.got <= s.put && |Queue(s)| == |s.put| - |s.got| <= BUFFER_SIZE && |s.buffer| == BUFFER_SIZE
    ensures forall k :: 0 <= k < |Queue(s)| ==> s.buffer[(|s.got| + k) % BUFFER_SIZE] == Queue(s)[k]
  {
    forall k | 0 <= k < |Queue(s)| ensures s.buffer[(|s.got| + k) % BUFFER_SIZE] == Queue(s)[k] {
      assert Queue(s)[k] == s.put[|s.got| + k] == s.buffer[Slot(|s.got| + k)];
    }
  }

  lemma PositionsHold(s: State)
    requires PositionsOk(s) && s.mutex == None
    ensures s.count == |s.put| - |s.got|
    ensures s.outPos == |s.got| % BUFFER_SIZE && s.inPos == (s.outPos + s.count) % BUFFER_SIZE
  {
    SlotSum(|s.got|, |s.put| - |s.got|);
    hide Slot;
  }

  lemma SlotSum(r: int, n: int)
    ensures Slot(r) == r % BUFFER_SIZE && Slot(r + n) == (Slot(r) + n) % BUFFER_SIZE
  {
  }

  // The slots and items are always accounted for by the semaphores and the
  // threads holding a permit.
  lemma PermitsBalance(states: seq<State>, who: seq<nat>, i: nat)
    requires Run(states, who) && i < |states|
    ensures var s := states[i];
      s.empty + s.full + Tally(s.threads, Writing) + Tally(s.threads, Written)
        + Tally(s.threads, Reading) + Tally(s.threads, Read) == BUFFER_SIZE
  {
    Reachable(states, who, i);
  }

  // ---- Matching quotas: no state is stuck and every run ends ----

  function ToBePut(s: State): int { |s.put| + Tally(s.threads, ToPut) - Tally(s.threads, Written) }
  function ToBeGot(s: State): int { |s.got| + Tally(s.threads, ToGet) - Tally(s.threads, Read) }

  lemma QuotasKept(s: State, t: nat, item: int)
    requires MutexOk(s) && t < |s.threads| && Next(s, t, item).Some?
    ensures var s' := Next(s, t, item).value; ToBePut(s') == ToBePut(s) && ToBeGot(s') == ToBeGot(s)
  {
    var th' := Next(s, t, item).value.threads[t];
    TallyUpdate(s.threads, t, th', Written);
    TallyUpdate(s.threads, t, th', Read);
    TallyUpdate(s.threads, t, th', ToPut);
    TallyUpdate(s.threads, t, th', ToGet);
  }

  predicate Finished(th: Thread) { th.pc == Wait && th.left == 0 }

  // If every thread waits at its semaphore and quotas match, some thread can go on.
  lemma WaitingCanGo(s: State, t: nat) returns (u: nat)
    requires Inv(s) && ToBePut(s) == ToBeGot(s) && t < |s.threads| && s.threads[t].left > 0
    requires forall i :: 0 <= i < |s.threads| ==> s.threads[i].pc == Wait
    ensures u < |s.threads| && Next(s, u, 0).Some?
  {
    hide MutexOk, RingOk, PositionsOk, Tally;
    TallyZero(s.threads, Writing);
    TallyZero(s.threads, Written);
    TallyZero(s.threads, Reading);
    TallyZero(s.threads, Read);
    TallyNonNegative(s.threads, ToPut);
    TallyNonNegative(s.threads, ToGet);
    if p :| 0 <= p < |s.threads| && s.threads[p].left > 0 && s.threads[p].role == Producer && s.empty > 0 {
      u := p;
    } else if c :| 0 <= c < |s.threads| && s.threads[c].left > 0 && s.threads[c].role == Consumer && s.full > 0 {
      u := c;
    } else {
      u := t;
      if s.threads[t].role == Producer {
        TallyAtLeast(s.threads, t, ToPut);
        TallyZero(s.threads, ToGet);
      } else {
        TallyAtLeast(s.threads, t, ToGet);
        TallyZero(s.threads, ToPut);
      }
      assert false;
    }
  }

  lemma CanStep(s: State, t: nat) returns (u: nat)
    requires Inv(s) && ToBePut(s) == ToBeGot(s) && t < |s.threads| && !Finished(s.threads[t])
    ensures u < |s.threads| && Next(s, u, 0).Some?
  {
    if s.mutex.Some? {
      u := s.mutex.value;
    } else if l :| 0 <= l < |s.threads| && s.threads[l].pc in {Lock, Post} {
      u := l;
    } else {
      u := WaitingCanGo(s, t);
    }
  }

  lemma {:induction false} QuotasMatch(states: seq<State>, who: seq<nat>, i: nat)
    requires Run(states, who) && i < |states|
    ensures ToBePut(states[i]) == ToBePut(states[0]) && ToBeGot(states[i]) == ToBeGot(states[0])
    ensures |states[i].threads| == |states[0].threads|
  {
    hide Inv, Next, ToBePut, ToBeGot;
    if i > 0 {
      QuotasMatch(states, who, i - 1);
      Reachable(states, who, i - 1);
      assert Step(states[i - 1], who[i - 1], states[i]);
      var item :| Next(states[i - 1], who[i - 1], item) == Some(states[i]);
      InvMutex(states[i - 1]);
      QuotasKept(states[i - 1], who[i - 1], item);
      SameThreads(states[i - 1], who[i - 1], item);
    }
  }

  lemma InvMutex(s: State)
    requires Inv(s)
    ensures MutexOk(s)
  {
  }

  lemma SameThreads(s: State, t: nat, item: int)
    requires t < |s.threads| && Next(s, t, item).Some?
    ensures |Next(s, t, item).value.threads| == |s.threads|
  {
  }

  // As many items to produce as to consume: whenever some thread is unfinished,
  // some thread can step.
  lemma NeverStuck(states: seq<State>, who: seq<nat>, i: nat, t: nat)
    requires Run(states, who) && i < |states|
    requires Tally(states[0].threads, ToPut) == Tally(states[0].threads, ToGet)
    requires t < |states[i].threads| && !Finished(states[i].threads[t])
    ensures exists u :: 0 <= u < |states[i].threads| && Next(states[i], u, 0).Some?
  {
    Reachable(states, who, 0);
    Reachable(states, who, i);
    QuotasMatch(states, who, i);
    TallyZero(states[0].threads, Written);
    TallyZero(states[0].threads, Read);
    var u := CanStep(states[i], t);
  }

  function Work(s: State): int { Tally(s.threads, StepsLeft) }

  lemma WorkFalls(s: State, t: nat, item: int)
    requires MutexOk(s) && t < |s.threads| && Next(s, t, item).Some?
    ensures Work(Next(s, t, item).value) == Work(s) - 1
  {
    TallyUpdate(s.threads, t, Next(s, t, item).value.threads[t], StepsLeft);
  }

  // Every step uses up exactly one unit of work, so every run is finite whatever
  // the schedule.
  lemma {:induction false} RunsEnd(states: seq<State>, who: seq<nat>, i: nat)
    requires Run(states, who) && i < |states|
    ensures Work(states[i]) == Work(states[0]) - i && i <= Work(states[0])
  {
    hide Inv, Next, Work;
    if i > 0 {
      RunsEnd(states, who, i - 1);
      Reachable(states, who, i - 1);
      assert Step(states[i - 1], who[i - 1], states[i]);
      var item :| Next(states[i - 1], who[i - 1], item) == Some(states[i]);
      InvMutex(states[i - 1]);
      WorkFalls(states[i - 1], who[i - 1], item);
    }
    Reachable(states, who, i);
    InvMutex(states[i]);
    WorkNonNegative(states[i]);
  }

  lemma WorkNonNegative(s: State)
    requires MutexOk(s)
    ensures Work(s) >= 0
    ensures Work(s) == 0 ==> forall t :: 0 <= t < |s.threads| ==> Finished(s.threads[t])
  {
    forall t | 0 <= t < |s.threads|
      ensures StepsLeft(s.threads[t]) >= 0
      ensures StepsLeft(s.threads[t]) == 0 ==> Finished(s.threads[t])
    {
    }
    TallyNonNegative(s.threads, StepsLeft);
  }

  // When all threads have finished and quotas matched, every item of the producers'
  // quotas was put and got and the buffer is empty again.
  lemma EndsEmpty(states: seq<State>, who: seq<nat>, i: nat)
    requires Run(states, who) && i < |states|
    requires Tally(states[0].threads, ToPut) == Tally(states[0].threads, ToGet)
    requires forall t :: 0 <= t < |states[i].threads| ==> Finished(states[i].threads[t])
    ensures var s := states[i];
      && s.got == s.put && |s.put| == Tally(states[0].threads, ToPut)
      && s.count == 0 && s.empty == BUFFER_SIZE && s.full == 0 && s.mutex == None
  {
    Reachable(states, who, i);
    QuotasMatch(states, who, i);
    TallyZero(states[0].threads, Written);
    TallyZero(states[0].threads, Read);
    var s := states[i];
    TallyZero(s.threads, Writing);
    TallyZero(s.threads, Written);
    TallyZero(s.threads, Reading);
    TallyZero(s.threads, Read);
    TallyZero(s.threads, ToPut);
    TallyZero(s.threads, ToGet);
    assert s.put[..|s.got|] == s.put;
  }
}
