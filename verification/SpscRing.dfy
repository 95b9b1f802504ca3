/** One producer and one consumer sharing a ring with two semaphores and no mutex:
    the variant with thread-local positions, where the consumer clears each slot. */
module SpscRing {
  import opened Prelude

  const NUM: nat := 5

  datatype ProducerPc = ProdWait | ProdWrite | ProdShow | ProdPost | ProdAdvance
  datatype ConsumerPc = ConsWait | ConsRead | ConsClear | ConsPost | ConsAdvance

  // `put` and `got` record the items produced and consumed; `shown` is what the
  // producer's printf last read back from its slot.
  datatype State = State(
    queue: seq<int>, blank: int, product: int,
    prod: ProducerPc, p: int, shown: int,
    cons: ConsumerPc, c: int,
    put: seq<int>, got: seq<int>)

  function ProducerNext(s: State, item: int): Option<State> {
    match s.prod
    case ProdWait => if s.blank == 0 then None else Some(s.(blank := s.blank - 1, prod := ProdWrite))
    case ProdWrite =>
      if !(0 <= s.p < |s.queue|) then None
      else Some(s.(queue := s.queue[s.p := item], put := s.put + [item], prod := ProdShow))
    case ProdShow =>
      if !(0 <= s.p < |s.queue|) then None else Some(s.(shown := s.queue[s.p], prod := ProdPost))
    case ProdPost => Some(s.(product := s.product + 1, prod := ProdAdvance))
    case ProdAdvance => Some(s.(p := (s.p + 1) % NUM, prod := ProdWait))
  }

  function ConsumerNext(s: State): Option<State> {
    match s.cons
    case ConsWait => if s.product == 0 then None else Some(s.(product := s.product - 1, cons := ConsRead))
    case ConsRead =>
      if !(0 <= s.c < |s.queue|) then None else Some(s.(got := s.got + [s.queue[s.c]], cons := ConsClear))
    case ConsClear =>
      if !(0 <= s.c < |s.queue|) then None else Some(s.(queue := s.queue[s.c := 0], cons := ConsPost))
    case ConsPost => Some(s.(blank := s.blank + 1, cons := ConsAdvance))
    case ConsAdvance => Some(s.(c := (s.c + 1) % NUM, cons := ConsWait))
  }

  ghost predicate Step(s: State, s': State) {
    (exists item :: ProducerNext(s, item) == Some(s')) || ConsumerNext(s) == Some(s')
  }

  ghost predicate Init(s: State) {
    && s.queue == seq(NUM, _ => 0) && s.blank == NUM && s.product == 0
    && s.prod == ProdWait && s.p == 0 && s.cons == ConsWait && s.c == 0
    && s.put == [] && s.got == []
  }

  ghost predicate Run(states: seq<State>) {
    |states| > 0 && Init(states[0]) && forall i :: 0 <= i < |states| - 1 ==> Step(states[i], states[i + 1])
  }

  // The slot of the j-th item.
  function Slot(j: int): (i: nat)
    ensures i < NUM
  {
    j % NUM
  }

  lemma OtherSlot(j: int, k: int)
    requires j < k < j + NUM
    ensures Slot(j) != Slot(k)
  {
    SlotsDiffer(j, k, NUM);
  }

  lemma SlotAfter(x: int)
    ensures (Slot(x - 1) + 1) % NUM == Slot(x)
  {
    NextSlot(x, NUM);
  }

  // An item is in the ring from the write to the read; a slot is busy from the
  // wait on blank to the post of blank.
  ghost predicate Counts(s: State) {
    var w, r := |s.put|, |s.got|;
    && s.blank >= 0 && s.product >= 0
    && w - r == s.product + Ind(s.prod.ProdShow? || s.prod.ProdPost?) + Ind(s.cons.ConsRead?)
    && NUM - (w - r) == s.blank + Ind(s.prod.ProdWrite?) + Ind(s.cons.ConsClear? || s.cons.ConsPost?)
  }

  ghost predicate Places(s: State) {
    && s.p == Slot(|s.put| - Ind(!s.prod.ProdWait? && !s.prod.ProdWrite?))
    && s.c == Slot(|s.got| - Ind(!s.cons.ConsWait? && !s.cons.ConsRead?))
  }

  ghost predicate Items(s: State) {
    && |s.queue| == NUM && s.got <= s.put
    && (forall j :: |s.got| <= j < |s.put| ==> s.queue[Slot(j)] == s.put[j])
    && (s.prod.ProdPost? ==> s.put != [] && s.shown == s.put[|s.put| - 1])
  }

  ghost predicate Inv(s: State) {
    Counts(s) && Places(s) && Items(s)
  }

  // The producer's and the consumer's slot, when both are at work, are different:
  // the semaphores alone keep them apart.
  lemma SlotsExclusive(s: State)
    requires Inv(s)
    requires s.prod.ProdWrite? || s.prod.ProdShow?
    requires s.cons.ConsRead? || s.cons.ConsClear?
    ensures s.p != s.c
  {
    hide Slot;
    OtherSlot(|s.got| - Ind(s.cons.ConsClear?), |s.put| - Ind(s.prod.ProdShow?));
  }

  lemma ProducerKeeps(s: State, item: int)
    requires Inv(s) && ProducerNext(s, item).Some?
    ensures Inv(ProducerNext(s, item).value)
  {
    var s' := ProducerNext(s, item).value;
    assert Counts(s');
    ProducerKeepsPlaces(s, item);
    ProducerKeepsItems(s, item);
    hide Counts, Places, Items;
  }

  lemma ProducerKeepsPlaces(s: State, item: int)
    requires Places(s) && ProducerNext(s, item).Some?
    ensures Places(ProducerNext(s, item).value)
  {
    SlotAfter(|s.put|);
    hide Slot;
  }

  lemma ProducerKeepsItems(s: State, item: int)
    requires Inv(s) && ProducerNext(s, item).Some?
    ensures Items(ProducerNext(s, item).value)
  {
    hide Slot;
    if s.prod.ProdWrite? {
      PutKeepsItems(s.queue, s.put, s.got, item);
      hide Counts, Places;
    }
  }

  lemma PutKeepsItems(queue: seq<int>, put: seq<int>, got: seq<int>, item: int)
    requires |queue| == NUM && |got| <= |put| < |got| + NUM
    requires forall j :: |got| <= j < |put| ==> queue[Slot(j)] == put[j]
    ensures forall j :: |got| <= j < |put| + 1 ==> queue[Slot(|put|) := item][Slot(j)] == (put + [item])[j]
  {
    hide Slot;
    forall j | |got| <= j < |put| ensures Slot(j) != Slot(|put|) { OtherSlot(j, |put|); }
  }

  lemma ConsumerKeeps(s: State)
    requires Inv(s) && ConsumerNext(s).Some?
    ensures Inv(ConsumerNext(s).value)
  {
    var s' := ConsumerNext(s).value;
    assert Counts(s');
    ConsumerKeepsPlaces(s);
    ConsumerKeepsItems(s);
    hide Counts, Places, Items;
  }

  lemma ConsumerKeepsPlaces(s: State)
    requires Places(s) && ConsumerNext(s).Some?
    ensures Places(ConsumerNext(s).value)
  {
    SlotAfter(|s.got|);
    hide Slot;
  }

  lemma ConsumerKeepsItems(s: State)
    requires Inv(s) && ConsumerNext(s).Some?
    ensures Items(ConsumerNext(s).value)
  {
    hide Slot;
    if s.cons.ConsClear? {
      forall j | |s.got| <= j < |s.put| ensures Slot(j) != Slot(|s.got| - 1) { OtherSlot(|s.got| - 1, j); }
      hide Counts;
    } else if s.cons.ConsRead? {
      assert s.put[..|s.got| + 1] == s.put[..|s.got|] + [s.put[|s.got|]];
      hide Counts;
    }
  }

  lemma {:induction false} Reachable(states: seq<State>, i: nat)
    requires Run(states) && i < |states|
    ensures Inv(states[i])
  {
    hide Inv, ProducerNext, ConsumerNext;
    if i == 0 {
      InitInv(states[0]);
    } else {
      Reachable(states, i - 1);
      assert Step(states[i - 1], states[i]);
      if ConsumerNext(states[i - 1]) == Some(states[i]) { ConsumerKeeps(states[i - 1]); }
      else {
        var item :| ProducerNext(states[i - 1], item) == Some(states[i]);
        ProducerKeeps(states[i - 1], item);
      }
    }
  }

  lemma InitInv(s: State)
    requires Init(s)
    ensures Inv(s)
  {
  }

  function Queue(s: State): seq<int> {
    if |s.got| <= |s.put| then s.put[|s.got|..] else []
  }

  // A bounded first-in first-out queue without a mutex: items come out in the
  // order they went in, at most NUM wait, and no slot is shared.
  lemma RingIsQueue(states: seq<State>, i: nat)
    requires Run(states) && i < |states|
    ensures var s := states[i];
      && s.got <= s.put && |Queue(s)| <= NUM
      && ((s.prod.ProdWrite? || s.prod.ProdShow?) && (s.cons.ConsRead? || s.cons.ConsClear?) ==> s.p != s.c)
      && (s.cons.ConsRead? ==> |Queue(s)| > 0 && 0 <= s.c < |s.queue| && s.queue[s.c] == Queue(s)[0])
      && (s.prod.ProdPost? ==> |s.put| > 0 && s.shown == s.put[|s.put| - 1])
  {
    Reachable(states, i);
    var s := states[i];
    if (s.prod.ProdWrite? || s.prod.ProdShow?) && (s.cons.ConsRead? || s.cons.ConsClear?) { SlotsExclusive(s); }
  }

  // Neither side is ever stuck together with the other.
  lemma SomebodyMoves(states: seq<State>, i: nat)
    requires Run(states) && i < |states|
    ensures ProducerNext(states[i], 0).Some? || ConsumerNext(states[i]).Some?
  {
    Reachable(states, i);
  }

  // ---- Consumed slots ----

  // A slot holds 0 unless an item waits in it or the consumer is just about to clear it.
  ghost predicate Cleared(s: State) {
    forall i :: 0 <= i < |s.queue| && s.queue[i] != 0 ==>
      (s.cons.ConsClear? && i == s.c) || exists j :: |s.got| <= j < |s.put| && Slot(j) == i
  }

  lemma ProducerClears(s: State, item: int)
    requires Inv(s) && Cleared(s) && ProducerNext(s, item).Some?
    ensures Cleared(ProducerNext(s, item).value)
  {
    hide Slot, Counts;
    var s' := ProducerNext(s, item).value;
    forall i | 0 <= i < |s'.queue| && s'.queue[i] != 0
      ensures (s'.cons.ConsClear? && i == s'.c) || exists j :: |s'.got| <= j < |s'.put| && Slot(j) == i
    {
      if s.prod.ProdWrite? && i == s.p {
        assert Slot(|s.put|) == i && |s'.got| <= |s.put| < |s'.put|;
      } else if !(s.cons.ConsClear? && i == s.c) {
        var j :| |s.got| <= j < |s.put| && Slot(j) == i;
        assert |s'.got| <= j < |s'.put|;
      }
    }
  }

  lemma ConsumerClears(s: State)
    requires Inv(s) && Cleared(s) && ConsumerNext(s).Some?
    ensures Cleared(ConsumerNext(s).value)
  {
    hide Slot, Counts;
    var s' := ConsumerNext(s).value;
    forall i | 0 <= i < |s'.queue| && s'.queue[i] != 0
      ensures (s'.cons.ConsClear? && i == s'.c) || exists j :: |s'.got| <= j < |s'.put| && Slot(j) == i
    {
      var j :| |s.got| <= j < |s.put| && Slot(j) == i;
      if j < |s'.got| { assert j == |s.got| && i == s.c; } else { assert |s'.got| <= j < |s'.put|; }
    }
  }

  // In every reachable state what the consumer has taken is gone from the ring: only the
  // slots of waiting items, and the one being cleared, hold anything.
  lemma {:induction false} ConsumedSlotsAreZero(states: seq<State>, i: nat)
    requires Run(states) && i < |states|
    ensures Cleared(states[i])
  {
    hide Inv, Cleared, ProducerNext, ConsumerNext;
    if i == 0 {
      InitCleared(states[0]);
    } else {
      ConsumedSlotsAreZero(states, i - 1);
      Reachable(states, i - 1);
      assert Step(states[i - 1], states[i]);
      if ConsumerNext(states[i - 1]) == Some(states[i]) { ConsumerClears(states[i - 1]); }
      else {
        var item :| ProducerNext(states[i - 1], item) == Some(states[i]);
        ProducerClears(states[i - 1], item);
      }
    }
  }

  lemma InitCleared(s: State)
    requires Init(s)
    ensures Cleared(s)
  {
  }

  // ---- The items of a run ----

  // A run with its moves: Some(item) for the producer, at whatever point, and None for
  // the consumer.
  ghost predicate Moves(states: seq<State>, moves: seq<Option<int>>) {
    && |states| == |moves| + 1
    && forall i :: 0 <= i < |moves| ==>
         (if moves[i].Some? then ProducerNext(states[i], moves[i].value) else ConsumerNext(states[i]))
           == Some(states[i + 1])
  }

  // What the producer made up, at its writes, in the first k moves.
  ghost function Made(states: seq<State>, moves: seq<Option<int>>, k: nat): seq<int>
    requires k <= |moves| <= |states|
  {
    if k == 0 then []
    else Made(states, moves, k - 1)
         + if moves[k - 1].Some? && states[k - 1].prod.ProdWrite? then [moves[k - 1].value] else []
  }

  // The consumer takes exactly what the producer made up, oldest first.
  lemma ItemsAreMade(states: seq<State>, moves: seq<Option<int>>, k: nat)
    requires Run(states) && Moves(states, moves) && k <= |moves|
    ensures states[k].put == Made(states, moves, k) && states[k].got <= Made(states, moves, k)
  {
    PutIsMade(states, moves, k);
    RingIsQueue(states, k);
  }

  lemma {:induction false} PutIsMade(states: seq<State>, moves: seq<Option<int>>, k: nat)
    requires Run(states) && Moves(states, moves) && k <= |moves|
    ensures states[k].put == Made(states, moves, k)
  {
    if k > 0 { PutIsMade(states, moves, k - 1); }
  }
}

/** The same ring with atomic in and out counters and a fixed number of items. */
module SpscAtomicRing {
  import opened Prelude

  const BUFFER_SIZE: nat := 5

  datatype ProducerPc = ProdWait | ProdFetch | ProdWrite | ProdPost
  datatype ConsumerPc = ConsWait | ConsFetch | ConsRead | ConsPost

  datatype State = State(
    buffer: seq<int>, empty: int, full: int, inCtr: int, outCtr: int,
    prod: ProducerPc, toPut: nat, pIndex: int,
    cons: ConsumerPc, toGet: nat, cIndex: int,
    put: seq<int>, got: seq<int>)

  function ProducerNext(s: State, item: int): Option<State> {
    match s.prod
    case ProdWait =>
      if s.toPut == 0 || s.empty == 0 then None else Some(s.(empty := s.empty - 1, prod := ProdFetch))
    case ProdFetch => Some(s.(pIndex := s.inCtr % BUFFER_SIZE, inCtr := s.inCtr + 1, prod := ProdWrite))
    case ProdWrite =>
      if !(0 <= s.pIndex < |s.buffer|) then None
      else Some(s.(buffer := s.buffer[s.pIndex := item], put := s.put + [item], prod := ProdPost))
    case ProdPost =>
      Some(s.(full := s.full + 1, toPut := if s.toPut > 0 then s.toPut - 1 else 0, prod := ProdWait))
  }

  function ConsumerNext(s: State): Option<State> {
    match s.cons
    case ConsWait =>
      if s.toGet == 0 || s.full == 0 then None else Some(s.(full := s.full - 1, cons := ConsFetch))
    case ConsFetch => Some(s.(cIndex := s.outCtr % BUFFER_SIZE, outCtr := s.outCtr + 1, cons := ConsRead))
    case ConsRead =>
      if !(0 <= s.cIndex < |s.buffer|) then None
      else Some(s.(got := s.got + [s.buffer[s.cIndex]], cons := ConsPost))
    case ConsPost =>
      Some(s.(empty := s.empty + 1, toGet := if s.toGet > 0 then s.toGet - 1 else 0, cons := ConsWait))
  }

  ghost predicate Step(s: State, s': State) {
    (exists item :: ProducerNext(s, item) == Some(s')) || ConsumerNext(s) == Some(s')
  }

  // Both loops run the same number of times (PRODUCE_COUNT).
  ghost predicate Init(s: State) {
    && |s.buffer| == BUFFER_SIZE && s.empty == BUFFER_SIZE && s.full == 0
    && s.inCtr == 0 && s.outCtr == 0 && s.prod == ProdWait && s.cons == ConsWait
    && s.toPut == s.toGet && s.put == [] && s.got == []
  }

  ghost predicate Run(states: seq<State>) {
    |states| > 0 && Init(states[0]) && forall i :: 0 <= i < |states| - 1 ==> Step(states[i], states[i + 1])
  }

  ghost predicate Inv(s: State) {
    var w, r := |s.put|, |s.got|;
    && |s.buffer| == BUFFER_SIZE && s.empty >= 0 && s.full >= 0
    && s.got <= s.put
    && w - r == s.full + Ind(s.prod.ProdPost?) + Ind(s.cons.ConsFetch? || s.cons.ConsRead?)
    && BUFFER_SIZE - (w - r) == s.empty + Ind(s.prod.ProdFetch? || s.prod.ProdWrite?) + Ind(s.cons.ConsPost?)
    && s.inCtr == w + Ind(s.prod.ProdWrite?) && s.outCtr == r + Ind(s.cons.ConsRead?)
    && (s.prod.ProdWrite? ==> s.pIndex == w % BUFFER_SIZE)
    && (s.cons.ConsRead? ==> s.cIndex == r % BUFFER_SIZE)
    && (!s.prod.ProdWait? ==> s.toPut > 0) && (!s.cons.ConsWait? ==> s.toGet > 0)
    && w + s.toPut - Ind(s.prod.ProdPost?) == r + s.toGet - Ind(s.cons.ConsPost?)
    && (forall j :: r <= j < w ==> s.buffer[j % BUFFER_SIZE] == s.put[j])
  }

  lemma ProducerKeeps(s: State, item: int)
    requires Inv(s) && ProducerNext(s, item).Some?
    ensures Inv(ProducerNext(s, item).value)
  {
    var w, r := |s.put|, |s.got|;
    var s' := ProducerNext(s, item).value;
    if s.prod.ProdWrite? {
      forall j | r <= j < w + 1 ensures s'.buffer[j % BUFFER_SIZE] == s'.put[j] {
        if j < w { SlotsDiffer(j, w, BUFFER_SIZE); }
      }
    }
  }

  lemma ConsumerKeeps(s: State)
    requires Inv(s) && ConsumerNext(s).Some?
    ensures Inv(ConsumerNext(s).value)
  {
    if s.cons.ConsRead? {
      var r := |s.got|;
      assert s.put[..r + 1] == s.put[..r] + [s.put[r]];
    }
  }

  lemma {:induction false} Reachable(states: seq<State>, i: nat)
    requires Run(states) && i < |states|
    ensures Inv(states[i])
  {
    hide Inv, ProducerNext, ConsumerNext;
    if i == 0 {
      InitInv(states[0]);
    } else {
      Reachable(states, i - 1);
      assert Step(states[i - 1], states[i]);
      if ConsumerNext(states[i - 1]) == Some(states[i]) { ConsumerKeeps(states[i - 1]); }
      else {
        var item :| ProducerNext(states[i - 1], item) == Some(states[i]);
        ProducerKeeps(states[i - 1], item);
      }
    }
  }

  lemma InitInv(s: State)
    requires Init(s)
    ensures Inv(s)
  {
  }

  function Queue(s: State): seq<int> {
    if |s.got| <= |s.put| then s.put[|s.got|..] else []
  }

  // First in, first out; the slot written is never the slot read.
  lemma RingIsQueue(states: seq<State>, i: nat)
    requires Run(states) && i < |states|
    ensures var s := states[i];
      && s.got <= s.put && |Queue(s)| <= BUFFER_SIZE
      && (s.prod.ProdWrite? && s.cons.ConsRead? ==> s.pIndex != s.cIndex)
      && (s.cons.ConsRead? ==>
            |Queue(s)| > 0 && 0 <= s.cIndex < |s.buffer| && s.buffer[s.cIndex] == Queue(s)[0])
  {
    Reachable(states, i);
    var s := states[i];
    if s.prod.ProdWrite? && s.cons.ConsRead? { SlotsDiffer(|s.got|, |s.put|, BUFFER_SIZE); }
  }

  // One side can always move until both loops are done, and then everything
  // produced has been consumed.
  lemma DrainsInTheEnd(states: seq<State>, i: nat)
    requires Run(states) && i < |states|
    ensures var s := states[i];
      ProducerNext(s, 0) == None && ConsumerNext(s) == None ==>
        s.toPut == 0 && s.toGet == 0 && s.got == s.put && s.empty == BUFFER_SIZE && |s.put| == states[0].toPut
  {
    Reachable(states, i);
    QuotaKept(states, i);
  }

  // Every item of the quota is put once.
  lemma {:induction false} QuotaKept(states: seq<State>, i: nat)
    requires Run(states) && i < |states|
    ensures |states[i].put| + states[i].toPut - Ind(states[i].prod.ProdPost?) == states[0].toPut
  {
    if i > 0 {
      QuotaKept(states, i - 1);
      Reachable(states, i - 1);
      assert Step(states[i - 1], states[i]);
      QuotaStep(states[i - 1], states[i]);
    }
  }

  lemma QuotaStep(s: State, s': State)
    requires Inv(s) && Step(s, s')
    ensures |s'.put| + s'.toPut - Ind(s'.prod.ProdPost?) == |s.put| + s.toPut - Ind(s.prod.ProdPost?)
  {
  }

  // ---- The items of a run ----

  // A run with its moves: Some(item) for the producer, at whatever point, and None for
  // the consumer.
  ghost predicate Moves(states: seq<State>, moves: seq<Option<int>>) {
    && |states| == |moves| + 1
    && forall i :: 0 <= i < |moves| ==>
         (if moves[i].Some? then ProducerNext(states[i], moves[i].value) else ConsumerNext(states[i]))
           == Some(states[i + 1])
  }

  // What the producer made up, at its writes, in the first k moves.
  ghost function Made(states: seq<State>, moves: seq<Option<int>>, k: nat): seq<int>
    requires k <= |moves| <= |states|
  {
    if k == 0 then []
    else Made(states, moves, k - 1)
         + if moves[k - 1].Some? && states[k - 1].prod.ProdWrite? then [moves[k - 1].value] else []
  }

  // The consumer takes exactly what the producer made up, oldest first.
  lemma ItemsAreMade(states: seq<State>, moves: seq<Option<int>>, k: nat)
    requires Run(states) && Moves(states, moves) && k <= |moves|
    ensures states[k].put == Made(states, moves, k) && states[k].got <= Made(states, moves, k)
  {
    PutIsMade(states, moves, k);
    RingIsQueue(states, k);
  }

  lemma {:induction false} PutIsMade(states: seq<State>, moves: seq<Option<int>>, k: nat)
    requires Run(states) && Moves(states, moves) && k <= |moves|
    ensures states[k].put == Made(states, moves, k)
  {
    if k > 0 { PutIsMade(states, moves, k - 1); }
  }
}
