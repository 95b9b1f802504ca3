/** Each kind of step keeps the shared invariant and interferes with no other
    thread's local one. */
module TwoLockSteps {
  import opened Prelude
  import opened TableSpec
  import opened TwoLockTable
  import opened TwoLockInvariant

  ghost predicate OthersRely(s: State, tb: Table<Addr>, t: Tid, s': State, tb': Table<Addr>) {
    forall u :: 0 <= u < |s.pcs| && u != t ==> Rely(s, tb, s', tb', u)
  }

  // The shared part holds again, and every other thread may rely on what it relied on.
  ghost predicate Safe(s: State, tb: Table<Addr>, t: Tid, s': State, tb': Table<Addr>) {
    Global(s', tb') && OthersRely(s, tb, t, s', tb')
  }

  // ---- Frames ----

  ghost predicate OnlyMoves(s: State, t: Tid, s': State) {
    && t < |s.pcs| && |s'.pcs| == |s.pcs|
    && forall u :: 0 <= u < |s.pcs| && u != t ==> s'.pcs[u] == s.pcs[u]
  }

  ghost predicate OthersKeep(s: State, tb: Table<Addr>, t: Tid, s': State, tb': Table<Addr>) {
    forall u :: 0 <= u < |s.pcs| && u != t ==> Keeps(s, tb, s', tb', u)
  }

  lemma OthersFrom(s: State, tb: Table<Addr>, t: Tid, s': State, tb': Table<Addr>)
    requires OnlyMoves(s, t, s') && OthersKeep(s, tb, t, s', tb')
    requires s.hashlock == None || s.hashlock == Some(t) || ChainsStand(s, tb, s', tb')
    ensures OthersRely(s, tb, t, s', tb')
  {
  }

  // Objects other than a are untouched.
  ghost predicate OnlyTouches(s: State, a: Addr, s': State) {
    && (forall x :: x != a ==> (x in s'.heap <==> x in s.heap) && (x in s'.owners <==> x in s.owners))
    && (forall x :: x != a && x in s.heap ==> s'.heap[x] == s.heap[x])
    && (forall x :: x != a && x in s.owners ==> s'.owners[x] == s.owners[x])
  }

  lemma StandOutside(s: State, tb: Table<Addr>, s': State, a: Addr)
    requires Counted(s, tb) && OnlyTouches(s, a, s') && a !in tb.objs
    requires s'.fh == s.fh && s'.hashlock == s.hashlock
    ensures ChainsStand(s, tb, s', tb)
  {
  }

  // An object outside the table that no other thread owns or has locked may
  // come, change or go.
  lemma KeepOutside(s: State, tb: Table<Addr>, t: Tid, s': State, a: Addr)
    requires OnlyTouches(s, a, s')
    requires a in s.heap ==> a in s.owners && s.owners[a] == multiset{t}
    requires a in s.heap && s.heap[a].lock.Some? ==>
               s.heap[a].lock.value == t || (a in s'.heap && s'.heap[a].lock == s.heap[a].lock
                                             && s'.heap[a].count == s.heap[a].count)
    ensures OthersKeep(s, tb, t, s', tb)
  {
    forall u | 0 <= u < |s.pcs| && u != t ensures Keeps(s, tb, s', tb, u) {
      assert a in s.heap ==> s.owners[a][u] == 0;
      assert !Owns(s, u, a) && !Sole(s, u, a);
    }
  }

  lemma LinkedFrame(s: State, tb: Table<Addr>, s': State, tb': Table<Addr>)
    requires |tb.chains| == NHASH && Linked(s, tb)
    requires s'.fh == s.fh && tb'.chains == tb.chains
    requires forall a :: a in s.heap ==> a in s'.heap && s'.heap[a].next == s.heap[a].next
    ensures Linked(s', tb')
  {
  }

  lemma CountedFrame(s: State, tb: Table<Addr>, s': State)
    requires Counted(s, tb) && s'.owners == s.owners && s'.heap.Keys == s.heap.Keys
    requires forall a :: a in s.heap ==> s'.heap[a].id == s.heap[a].id && s'.heap[a].count == s.heap[a].count
    ensures Counted(s', tb)
  {
  }

  // ---- Moves that change no object ----

  lemma AttributedMove(s: State, tb: Table<Addr>, t: Tid, pc: Pc, h: Option<Tid>)
    requires Attributed(s, tb) && t < |s.pcs|
    requires h == s.hashlock || h == None || h == Some(t)
    requires h == Some(t) ==> HoldsHash(pc)
    requires HeldObj(pc) == HeldObj(s.pcs[t]) && OffChain(pc) == OffChain(s.pcs[t])
    ensures Attributed(Goto(s, t, pc).(hashlock := h), tb)
  {
    hide HoldsHash, HeldObj, OffChain;
    var s' := Goto(s, t, pc).(hashlock := h);
    forall a, v | a in s'.owners && s'.owners[a][v] > 0
      ensures v < |s'.pcs| && (a !in tb.objs ==> OffChain(s'.pcs[v]) == Some(a))
    {
      assert s.owners[a][v] > 0;
    }
  }

  lemma RelyMove(s: State, tb: Table<Addr>, t: Tid, pc: Pc, h: Option<Tid>)
    requires Counted(s, tb) && t < |s.pcs|
    requires h == s.hashlock || s.hashlock == None || s.hashlock == Some(t)
    ensures OthersRely(s, tb, t, Goto(s, t, pc).(hashlock := h), tb)
  {
  }

  // A step to a point that holds the same objects; the table lock may change hands.
  lemma MoveSafe(s: State, tb: Table<Addr>, t: Tid, pc: Pc, h: Option<Tid>)
    requires Global(s, tb) && t < |s.pcs|
    requires h == s.hashlock || (s.hashlock == None && h == Some(t)) || (s.hashlock == Some(t) && h == None)
    requires h == Some(t) ==> HoldsHash(pc)
    requires HeldObj(pc) == HeldObj(s.pcs[t]) && OffChain(pc) == OffChain(s.pcs[t])
    ensures Safe(s, tb, t, Goto(s, t, pc).(hashlock := h), tb)
  {
    hide WellFormed, Linked, Attributed, Rely, Keeps, HoldsHash, HeldObj, OffChain, Counted;
    var s' := Goto(s, t, pc).(hashlock := h);
    LinkedFrame(s, tb, s', tb);
    AttributedMove(s, tb, t, pc, h);
    CountedFrame(s, tb, s');
    RelyMove(s, tb, t, pc, h);
  }

  // ---- Taking and dropping an object's lock ----

  function Relock(s: State, t: Tid, a: Addr, l: Option<Tid>, pc: Pc): State
    requires t < |s.pcs| && a in s.heap
  {
    SetObj(s, t, a, s.heap[a].(lock := l), pc)
  }

  lemma AttributedRelock(s: State, tb: Table<Addr>, t: Tid, a: Addr, l: Option<Tid>, pc: Pc)
    requires Attributed(s, tb) && t < |s.pcs| && a in s.heap
    requires l == None || l == Some(t)
    requires HeldObj(s.pcs[t]) == None || HeldObj(s.pcs[t]) == Some(a)
    requires l == Some(t) ==> HeldObj(pc) == Some(a)
    requires HoldsHash(pc) == HoldsHash(s.pcs[t]) && OffChain(pc) == OffChain(s.pcs[t])
    ensures Attributed(Relock(s, t, a, l, pc), tb)
  {
    hide HoldsHash, HeldObj, OffChain;
    var s' := Relock(s, t, a, l, pc);
    forall x, v | x in s'.owners && s'.owners[x][v] > 0
      ensures v < |s'.pcs| && (x !in tb.objs ==> OffChain(s'.pcs[v]) == Some(x))
    {
      assert s.owners[x][v] > 0;
    }
  }

  lemma RelyRelock(s: State, tb: Table<Addr>, t: Tid, a: Addr, l: Option<Tid>, pc: Pc)
    requires Counted(s, tb) && t < |s.pcs| && a in s.heap
    requires s.heap[a].lock == None || s.heap[a].lock == Some(t)
    requires a in tb.objs || Sole(s, t, a)
    ensures OthersRely(s, tb, t, Relock(s, t, a, l, pc), tb)
  {
    var s' := Relock(s, t, a, l, pc);
    forall u | 0 <= u < |s.pcs| && u != t ensures Rely(s, tb, s', tb, u) {
      assert Sole(s, t, a) ==> s.owners[a][u] == 0;
    }
  }

  lemma RelockSafe(s: State, tb: Table<Addr>, t: Tid, a: Addr, l: Option<Tid>, pc: Pc)
    requires Global(s, tb) && t < |s.pcs| && a in s.heap
    requires s.heap[a].lock == None || s.heap[a].lock == Some(t)
    requires l == None || l == Some(t)
    requires HeldObj(s.pcs[t]) == None || HeldObj(s.pcs[t]) == Some(a)
    requires l == Some(t) ==> HeldObj(pc) == Some(a)
    requires HoldsHash(pc) == HoldsHash(s.pcs[t]) && OffChain(pc) == OffChain(s.pcs[t])
    requires a in tb.objs || Sole(s, t, a)
    ensures Safe(s, tb, t, Relock(s, t, a, l, pc), tb)
  {
    hide WellFormed, Linked, Attributed, Rely, Keeps, HoldsHash, HeldObj, OffChain, Counted;
    var s' := Relock(s, t, a, l, pc);
    LinkedFrame(s, tb, s', tb);
    CountedFrame(s, tb, s');
    AttributedRelock(s, tb, t, a, l, pc);
    RelyRelock(s, tb, t, a, l, pc);
  }

  // ---- Changing a count under the object's lock ----

  function Recount(s: State, t: Tid, a: Addr, c: int, o: multiset<Tid>, pc: Pc): State
    requires t < |s.pcs| && a in s.heap
  {
    SetObj(s, t, a, s.heap[a].(count := c), pc).(owners := s.owners[a := o])
  }

  function Retable(tb: Table<Addr>, a: Addr, c: int): Table<Addr>
    requires a in tb.objs
  {
    tb.(objs := tb.objs[a := Entry(tb.objs[a].id, c)])
  }

  lemma CountedRecount(s: State, tb: Table<Addr>, t: Tid, a: Addr, c: int, o: multiset<Tid>, pc: Pc)
    requires Counted(s, tb) && t < |s.pcs| && a in tb.objs && a in s.heap && |o| == c
    ensures Counted(Recount(s, t, a, c, o, pc), Retable(tb, a, c))
  {
  }

  lemma AttributedRecount(s: State, tb: Table<Addr>, t: Tid, a: Addr, c: int, o: multiset<Tid>, pc: Pc)
    requires Attributed(s, tb) && t < |s.pcs| && a in tb.objs && a in s.heap && a in s.owners
    requires forall v :: o[v] > 0 ==> v == t || s.owners[a][v] > 0
    requires HoldsHash(pc) == HoldsHash(s.pcs[t])
    requires HeldObj(pc) == HeldObj(s.pcs[t]) && OffChain(pc) == OffChain(s.pcs[t])
    ensures Attributed(Recount(s, t, a, c, o, pc), Retable(tb, a, c))
  {
    hide HoldsHash, HeldObj, OffChain;
    var s' := Recount(s, t, a, c, o, pc);
    var tb' := Retable(tb, a, c);
    forall x, v | x in s'.owners && s'.owners[x][v] > 0
      ensures v < |s'.pcs| && (x !in tb'.objs ==> OffChain(s'.pcs[v]) == Some(x))
    {
      if x == a { assert o[v] > 0; } else { assert s.owners[x][v] > 0; }
    }
  }

  lemma RelyRecount(s: State, tb: Table<Addr>, t: Tid, a: Addr, c: int, o: multiset<Tid>, pc: Pc)
    requires Counted(s, tb) && t < |s.pcs| && a in tb.objs && HasLock(s, t, a)
    requires forall v :: v != t ==> o[v] == s.owners[a][v]
    ensures OthersRely(s, tb, t, Recount(s, t, a, c, o, pc), Retable(tb, a, c))
  {
    var s', tb' := Recount(s, t, a, c, o, pc), Retable(tb, a, c);
    forall u | 0 <= u < |s.pcs| && u != t ensures Rely(s, tb, s', tb', u) {
      RecountKeeps(s, tb, t, a, c, o, pc, u);
      assert ChainsStand(s, tb, s', tb');
    }
  }

  lemma RecountKeeps(s: State, tb: Table<Addr>, t: Tid, a: Addr, c: int, o: multiset<Tid>, pc: Pc, u: Tid)
    requires t < |s.pcs| && a in tb.objs && HasLock(s, t, a) && a in s.owners
    requires u != t && o[u] == s.owners[a][u]
    ensures Keeps(s, tb, Recount(s, t, a, c, o, pc), Retable(tb, a, c), u)
  {
  }

  lemma RecountSafe(s: State, tb: Table<Addr>, t: Tid, a: Addr, c: int, o: multiset<Tid>, pc: Pc)
    requires Global(s, tb) && t < |s.pcs| && a in tb.objs && HasLock(s, t, a)
    requires |o| == c && c >= 1
    requires forall v :: v != t ==> o[v] == s.owners[a][v]
    requires HoldsHash(pc) == HoldsHash(s.pcs[t])
    requires HeldObj(pc) == HeldObj(s.pcs[t]) && OffChain(pc) == OffChain(s.pcs[t])
    ensures Safe(s, tb, t, Recount(s, t, a, c, o, pc), Retable(tb, a, c))
  {
    hide Linked, Attributed, Rely, Keeps, HoldsHash, HeldObj, OffChain;
    var s' := Recount(s, t, a, c, o, pc);
    var tb' := Retable(tb, a, c);
    assert WellFormed(tb');
    LinkedFrame(s, tb, s', tb');
    CountedRecount(s, tb, t, a, c, o, pc);
    AttributedRecount(s, tb, t, a, c, o, pc);
    RelyRecount(s, tb, t, a, c, o, pc);
  }

  // foo_hold's increment, seen from the table.
  lemma IncrementSafe(s: State, tb: Table<Addr>, t: Tid, a: Addr, pc: Pc, s': State, tb': Table<Addr>)
    requires Global(s, tb) && t < |s.pcs| && a in tb.objs && HasLock(s, t, a)
    requires HoldsHash(pc) == HoldsHash(s.pcs[t])
    requires HeldObj(pc) == HeldObj(s.pcs[t]) && OffChain(pc) == OffChain(s.pcs[t])
    requires Increment(s, t, a, pc) == Moved(s') && tb' == Hold(tb, a)
    ensures Safe(s, tb, t, s', tb')
  {
    hide WellFormed, Linked, Attributed, Rely, Keeps, HoldsHash, HeldObj, OffChain;
    IncrementRecounts(s, tb, t, a, pc);
    RecountSafe(s, tb, t, a, s.heap[a].count + 1, s.owners[a] + multiset{t}, pc);
  }

  lemma IncrementRecounts(s: State, tb: Table<Addr>, t: Tid, a: Addr, pc: Pc)
    requires t < |s.pcs| && a in s.heap && a in s.owners && |s.owners[a]| == s.heap[a].count
    requires a in tb.objs && tb.objs[a].count == s.heap[a].count
    ensures var c, o := s.heap[a].count + 1, s.owners[a] + multiset{t};
            && |o| == c && c >= 1
            && Increment(s, t, a, pc) == Moved(Recount(s, t, a, c, o, pc))
            && Hold(tb, a) == Retable(tb, a, c)
  {
  }

  // foo_rele's decrement when other references remain.
  lemma DecrementSafe(s: State, tb: Table<Addr>, t: Tid, a: Addr, pc: Pc, s': State, tb': Table<Addr>)
    requires Global(s, tb) && t < |s.pcs| && a in tb.objs && HasLock(s, t, a)
    requires Owns(s, t, a) && s.heap[a].count != 1 && |tb.chains| == NHASH
    requires HoldsHash(pc) == HoldsHash(s.pcs[t])
    requires HeldObj(pc) == HeldObj(s.pcs[t]) && OffChain(pc) == OffChain(s.pcs[t])
    requires Decrement(s, t, a, pc) == Moved(s') && tb' == Release(tb, a)
    ensures Safe(s, tb, t, s', tb')
  {
    hide WellFormed, Linked, Attributed, Rely, Keeps, HoldsHash, HeldObj, OffChain;
    DecrementRecounts(s, tb, t, a, pc);
    RecountSafe(s, tb, t, a, s.heap[a].count - 1, s.owners[a] - multiset{t}, pc);
  }

  lemma DecrementRecounts(s: State, tb: Table<Addr>, t: Tid, a: Addr, pc: Pc)
    requires t < |s.pcs| && Owns(s, t, a) && |s.owners[a]| == s.heap[a].count && s.heap[a].count != 1
    requires |tb.chains| == NHASH && a in tb.objs && tb.objs[a].count == s.heap[a].count
    ensures var c, o := s.heap[a].count - 1, s.owners[a] - multiset{t};
            && |o| == c && c >= 1
            && Decrement(s, t, a, pc) == Moved(Recount(s, t, a, c, o, pc))
            && Release(tb, a) == Retable(tb, a, c)
  {
    assert s.owners[a] == s.owners[a] - multiset{t} + multiset{t};
  }

  // ---- Objects outside the table ----

  // Links of objects that are not in a chain do not matter.
  lemma LinkedOutside(s: State, tb: Table<Addr>, s': State)
    requires WellFormed(tb) && Linked(s, tb) && s'.fh == s.fh
    requires forall x :: x in tb.objs && x in s.heap ==> x in s'.heap && s'.heap[x].next == s.heap[x].next
    ensures Linked(s', tb)
  {
    forall b, i | 0 <= b < NHASH && 0 <= i < |tb.chains[b]|
      ensures tb.chains[b][i] in s'.heap && s'.heap[tb.chains[b][i]].next == At(tb.chains[b], i + 1)
    {
      assert tb.chains[b][i] in tb.objs;
    }
  }

  lemma {:induction false} AttributedOutside(s: State, tb: Table<Addr>, t: Tid, s': State, a: Addr)
    requires Attributed(s, tb) && t < |s.pcs|
    requires |s'.pcs| == |s.pcs| && s'.pcs == s.pcs[t := s'.pcs[t]] && s'.hashlock == s.hashlock
    requires s.hashlock == Some(t) ==> HoldsHash(s'.pcs[t])
    requires HeldObj(s.pcs[t]) == None && HeldObj(s'.pcs[t]) == None
    requires forall x :: x in s'.heap && s'.heap[x].lock.Some? ==> x in s.heap && s'.heap[x].lock == s.heap[x].lock
    requires forall x :: x in s'.owners && x != a ==> x in s.owners && s'.owners[x] == s.owners[x]
    requires OffChain(s.pcs[t]) == None || OffChain(s.pcs[t]) == Some(a)
    requires a in s'.owners ==> s'.owners[a] == multiset{t} && OffChain(s'.pcs[t]) == Some(a)
    ensures Attributed(s', tb)
  {
    hide HoldsHash, HeldObj, OffChain;
    forall x, v | x in s'.owners && s'.owners[x][v] > 0
      ensures v < |s'.pcs| && (x !in tb.objs ==> OffChain(s'.pcs[v]) == Some(x))
    {
      if x != a { assert s.owners[x][v] > 0; }
    }
  }

  // malloc succeeds: a new object owned by its maker.
  lemma NewSafe(s: State, tb: Table<Addr>, t: Tid, a: Addr, id: int)
    requires Global(s, tb) && t < |s.pcs| && s.pcs[t] == AllocCall(id) && a !in s.heap
    requires s.hashlock != Some(t)
    ensures Safe(s, tb, t, Next(s, t, Some(a)).s, tb)
  {
    hide WellFormed, Linked, Attributed, Rely, Keeps, NextHold, NextFind, NextRele;
    hide HoldsHash, HeldObj, OffChain, Relied;
    AllocPoints();
    var s' := Next(s, t, Some(a)).s;
    LinkedOutside(s, tb, s');
    CountedNew(s, tb, t, a, s');
    AttributedOutside(s, tb, t, s', a);
    RelyNew(s, tb, t, a, s');
  }

  lemma CountedNew(s: State, tb: Table<Addr>, t: Tid, a: Addr, s': State)
    requires Counted(s, tb) && a !in s.heap
    requires s'.owners == s.owners[a := multiset{t}]
    requires a in s'.heap && s'.heap[a].count == 1 && s'.heap == s.heap[a := s'.heap[a]]
    ensures Counted(s', tb)
  {
  }

  lemma RelyNew(s: State, tb: Table<Addr>, t: Tid, a: Addr, s': State)
    requires Counted(s, tb) && OnlyMoves(s, t, s') && OnlyTouches(s, a, s')
    requires s'.fh == s.fh && s'.hashlock == s.hashlock && a !in s.heap
    ensures OthersRely(s, tb, t, s', tb)
  {
    StandOutside(s, tb, s', a);
    KeepOutside(s, tb, t, s', a);
    OthersFrom(s, tb, t, s', tb);
  }

  // The maker sets the link of its private object.
  lemma LinkSafe(s: State, tb: Table<Addr>, t: Tid, id: int, a: Addr)
    requires Global(s, tb) && t < |s.pcs| && s.pcs[t] == AllocLink(id, a)
    requires Sole(s, t, a) && a !in tb.objs
    ensures Next(s, t, None).Moved? && Safe(s, tb, t, Next(s, t, None).s, tb)
  {
    hide WellFormed, Linked, Attributed, Rely, Keeps;
    var s' := Next(s, t, None).s;
    LinkedOutside(s, tb, s');
    CountedFrame(s, tb, s');
    AttributedOutside(s, tb, t, s', a);
    RelyLink(s, tb, t, a, s');
  }

  lemma RelyLink(s: State, tb: Table<Addr>, t: Tid, a: Addr, s': State)
    requires Counted(s, tb) && OnlyMoves(s, t, s') && OnlyTouches(s, a, s')
    requires s'.fh == s.fh && s'.hashlock == s.hashlock && Sole(s, t, a) && a !in tb.objs
    requires a in s'.heap && s'.heap[a].lock == s.heap[a].lock && s'.heap[a].count == s.heap[a].count
    ensures OthersRely(s, tb, t, s', tb)
  {
    StandOutside(s, tb, s', a);
    KeepOutside(s, tb, t, s', a);
    OthersFrom(s, tb, t, s', tb);
  }

  // The sole owner frees the unlinked object.
  lemma FreeSafe(s: State, tb: Table<Addr>, t: Tid, a: Addr)
    requires Global(s, tb) && t < |s.pcs| && s.pcs[t] == ReleFree(a)
    requires Sole(s, t, a) && a !in tb.objs && s.heap[a].lock == None && s.hashlock != Some(t)
    ensures Next(s, t, None).Moved? && Safe(s, tb, t, Next(s, t, None).s, tb)
  {
    hide WellFormed, Linked, Attributed, Rely, Keeps;
    var s' := Next(s, t, None).s;
    LinkedOutside(s, tb, s');
    CountedFree(s, tb, a, s');
    AttributedOutside(s, tb, t, s', a);
    RelyFree(s, tb, t, a, s');
  }

  lemma CountedFree(s: State, tb: Table<Addr>, a: Addr, s': State)
    requires Counted(s, tb) && a !in tb.objs
    requires s'.owners == s.owners - {a} && s'.heap == s.heap - {a}
    ensures Counted(s', tb)
  {
  }

  lemma RelyFree(s: State, tb: Table<Addr>, t: Tid, a: Addr, s': State)
    requires Counted(s, tb) && OnlyMoves(s, t, s') && OnlyTouches(s, a, s')
    requires s'.fh == s.fh && s'.hashlock == s.hashlock && Sole(s, t, a) && a !in tb.objs
    requires s.heap[a].lock == None
    ensures OthersRely(s, tb, t, s', tb)
  {
    StandOutside(s, tb, s', a);
    KeepOutside(s, tb, t, s', a);
    OthersFrom(s, tb, t, s', tb);
  }

  // ---- Linking and unlinking ----

  // Publishing: the object becomes the head of its bucket's chain.
  lemma LinkedPublish(s: State, tb: Table<Addr>, s': State, id: int, a: Addr)
    requires WellFormed(tb) && Linked(s, tb) && a in s.heap
    requires s.heap[a].next == Head(s, id)
    requires s'.heap == s.heap && s'.fh == s.fh[Bucket(id) := Some(a)]
    ensures Linked(s', Alloc(tb, a, id))
  {
    var tb' := Alloc(tb, a, id);
    var c := Bucket(id);
    assert tb'.chains[c] == [a] + tb.chains[c];
    forall b, i | 0 <= b < NHASH && 0 <= i < |tb'.chains[b]|
      ensures tb'.chains[b][i] in s'.heap && s'.heap[tb'.chains[b][i]].next == At(tb'.chains[b], i + 1)
    {
      if b == c && i > 0 {
        assert tb'.chains[b][i] == tb.chains[b][i - 1];
        assert s.heap[tb.chains[b][i - 1]].next == At(tb.chains[b], i);
      } else if b == c {
        assert s.fh[b] == At(tb.chains[b], 0);
      } else {
        assert s.heap[tb.chains[b][i]].next == At(tb.chains[b], i + 1);
      }
    }
  }

  lemma PublishSafe(s: State, tb: Table<Addr>, t: Tid, id: int, a: Addr)
    requires Global(s, tb) && t < |s.pcs| && s.pcs[t] == AllocPublish(id, a)
    requires s.hashlock == Some(t) && Sole(s, t, a) && a !in tb.objs
    requires s.heap[a].id == id && s.heap[a].next == Head(s, id)
    ensures Next(s, t, None).Moved? && Safe(s, tb, t, Next(s, t, None).s, Alloc(tb, a, id))
  {
    hide WellFormed, Linked, Attributed, Rely, Keeps;
    var s' := Next(s, t, None).s;
    var tb' := Alloc(tb, a, id);
    AllocWellFormed(tb, a, id);
    LinkedPublish(s, tb, s', id, a);
    CountedPublish(s, tb, t, a, s', tb');
    AttributedPublish(s, tb, t, s', tb');
    RelyRechain(s, tb, t, a, s', tb');
  }

  lemma CountedPublish(s: State, tb: Table<Addr>, t: Tid, a: Addr, s': State, tb': Table<Addr>)
    requires Counted(s, tb) && Sole(s, t, a) && s'.heap == s.heap && s'.owners == s.owners
    requires tb'.objs == tb.objs[a := Entry(s.heap[a].id, 1)]
    ensures Counted(s', tb')
  {
  }

  lemma AttributedPublish(s: State, tb: Table<Addr>, t: Tid, s': State, tb': Table<Addr>)
    requires Attributed(s, tb) && t < |s.pcs|
    requires s'.heap == s.heap && s'.owners == s.owners && s'.hashlock == s.hashlock
    requires |s'.pcs| == |s.pcs| && s'.pcs == s.pcs[t := s'.pcs[t]]
    requires s.hashlock == Some(t) ==> HoldsHash(s'.pcs[t])
    requires HeldObj(s'.pcs[t]) == HeldObj(s.pcs[t])
    requires forall x :: x in tb.objs ==> x in tb'.objs
    requires OffChain(s.pcs[t]).Some? ==> OffChain(s.pcs[t]).value in tb'.objs
    ensures Attributed(s', tb')
  {
    hide HoldsHash, HeldObj, OffChain;
    forall x, v | x in s'.owners && s'.owners[x][v] > 0
      ensures v < |s'.pcs| && (x !in tb'.objs ==> OffChain(s'.pcs[v]) == Some(x))
    {
      assert s.owners[x][v] > 0;
    }
  }

  // t, holding the table lock, adds or removes the object it alone owns.
  lemma RelyRechain(s: State, tb: Table<Addr>, t: Tid, a: Addr, s': State, tb': Table<Addr>)
    requires Counted(s, tb) && t < |s.pcs| && s.hashlock == Some(t) && Sole(s, t, a)
    requires |s'.pcs| == |s.pcs| && s'.pcs == s.pcs[t := s'.pcs[t]] && s'.owners == s.owners
    requires forall x :: x in s.heap ==> x in s'.heap && s'.heap[x].lock == s.heap[x].lock
                                           && s'.heap[x].count == s.heap[x].count
    requires forall x :: x in s.heap && x !in tb.objs ==> s'.heap[x] == s.heap[x]
    requires forall x :: x != a ==> (x in tb'.objs <==> x in tb.objs)
    requires a in tb.objs ==> HasLock(s, t, a)
    ensures OthersRely(s, tb, t, s', tb')
  {
    forall u | 0 <= u < |s.pcs| && u != t ensures Rely(s, tb, s', tb', u) {
      assert s.owners[a][u] == 0;
    }
  }

  // Unlinking the k-th member of a chain bypasses it.
  lemma LinkedUnlink(s: State, tb: Table<Addr>, s': State, a: Addr, k: nat)
    requires WellFormed(tb) && Linked(s, tb) && a in tb.objs && tb.objs[a].count == 1
    requires At(ChainOf(tb, tb.objs[a].id), k) == Some(a)
    requires var b, c := Bucket(tb.objs[a].id), ChainOf(tb, tb.objs[a].id);
             && a in s.heap
             && (k == 0 ==> s'.heap == s.heap && s'.fh == s.fh[b := s.heap[a].next])
             && (k > 0 ==> s'.fh == s.fh && c[k - 1] in s.heap
                           && s'.heap == s.heap[c[k - 1] := s.heap[c[k - 1]].(next := s.heap[a].next)])
    ensures Linked(s', Release(tb, a))
  {
    var tb', b0 := Release(tb, a), Bucket(tb.objs[a].id);
    var c := tb.chains[b0];
    RemoveAt(c, k);
    assert tb'.chains[b0] == c[..k] + c[k + 1..];
    hide Remove;
    forall b | 0 <= b < NHASH ensures s'.fh[b] == At(tb'.chains[b], 0) && Follows(s', tb'.chains[b]) {
      if b == b0 { UnlinkOwn(s, tb, s', b, k); } else { UnlinkOther(s, tb, s', b0, b, k); }
    }
    hide WellFormed;
    LinkedIf(s', tb');
  }

  // The next pointers spell out one chain.
  ghost predicate Follows(s: State, c: seq<Addr>) {
    forall i :: 0 <= i < |c| ==> c[i] in s.heap && s.heap[c[i]].next == At(c, i + 1)
  }

  lemma LinkedIf(s: State, tb: Table<Addr>)
    requires |tb.chains| == NHASH == |s.fh|
    requires forall b :: 0 <= b < NHASH ==> s.fh[b] == At(tb.chains[b], 0) && Follows(s, tb.chains[b])
    ensures Linked(s, tb)
  {
  }

  lemma UnlinkOwn(s: State, tb: Table<Addr>, s': State, b: nat, k: nat)
    requires WellFormed(tb) && Linked(s, tb) && b < NHASH && k < |tb.chains[b]|
    requires var c := tb.chains[b];
             && (k == 0 ==> s'.heap == s.heap && s'.fh == s.fh[b := s.heap[c[k]].next])
             && (k > 0 ==> s'.fh == s.fh && s'.heap == s.heap[c[k - 1] := s.heap[c[k - 1]].(next := s.heap[c[k]].next)])
    ensures var c := tb.chains[b]; var c' := c[..k] + c[k + 1..];
      && s'.fh[b] == At(c', 0)
      && Follows(s', c')
  {
    var c := tb.chains[b];
    var c' := c[..k] + c[k + 1..];
    assert NoDuplicates(c) && s.heap[c[k]].next == At(c, k + 1);
    forall i | 0 <= i < |c'| ensures c'[i] in s'.heap && s'.heap[c'[i]].next == At(c', i + 1) {
      var j := if i < k then i else i + 1;
      assert s.heap[c[j]].next == At(c, j + 1);
      CutAt(c, k, i);
    }
    hide Linked, WellFormed;
  }

  lemma UnlinkOther(s: State, tb: Table<Addr>, s': State, b0: nat, b: nat, k: nat)
    requires WellFormed(tb) && Linked(s, tb) && b < NHASH && b0 < NHASH && b != b0 && k < |tb.chains[b0]|
    requires var c := tb.chains[b0];
             && (k == 0 ==> s'.heap == s.heap && s'.fh == s.fh[b0 := s.heap[c[k]].next])
             && (k > 0 ==> s'.fh == s.fh && s'.heap == s.heap[c[k - 1] := s.heap[c[k - 1]].(next := s.heap[c[k]].next)])
    ensures var c := tb.chains[b];
      && s'.fh[b] == At(c, 0)
      && Follows(s', c)
  {
    var c := tb.chains[b];
    forall i | 0 <= i < |c| ensures c[i] in s'.heap && s'.heap[c[i]].next == At(c, i + 1) {
      assert s.heap[c[i]].next == At(c, i + 1);
      if k > 0 { assert tb.chains[b0][k - 1] in tb.objs && c[i] in tb.objs; }
    }
  }

  // The state after unlinking the k-th member of the chain.
  ghost predicate Unlinks(s: State, tb: Table<Addr>, t: Tid, a: Addr, k: nat, s': State)
    requires |tb.chains| == NHASH && |s.fh| == NHASH
  {
    && t < |s.pcs| && a in tb.objs && a in s.heap
    && var b, c := Bucket(tb.objs[a].id), ChainOf(tb, tb.objs[a].id);
       && At(c, k) == Some(a)
       && (k == 0 ==> s' == Goto(s, t, ReleUnhash(a)).(fh := s.fh[b := s.heap[a].next]))
       && (k > 0 ==>
             && c[k - 1] in tb.objs && c[k - 1] in s.heap
             && s' == SetObj(s, t, c[k - 1], s.heap[c[k - 1]].(next := s.heap[a].next), ReleUnhash(a)))
  }

  lemma UnlinksShape(s: State, tb: Table<Addr>, t: Tid, a: Addr, k: nat, s': State)
    requires |tb.chains| == NHASH && |s.fh| == NHASH && Unlinks(s, tb, t, a, k, s')
    requires Counted(s, tb) && Sole(s, t, a)
    ensures tb.objs[a].count == 1 && Release(tb, a).objs == tb.objs - {a}
    ensures s'.owners == s.owners && s'.hashlock == s.hashlock && s'.pcs == s.pcs[t := ReleUnhash(a)]
    ensures s'.heap.Keys == s.heap.Keys
    ensures forall x :: x in s.heap ==>
              && s'.heap[x].id == s.heap[x].id && s'.heap[x].count == s.heap[x].count
              && s'.heap[x].lock == s.heap[x].lock
              && (x !in tb.objs ==> s'.heap[x] == s.heap[x])
  {
  }

  lemma UnlinkSafe(s: State, tb: Table<Addr>, t: Tid, a: Addr, k: nat, s': State)
    requires Global(s, tb) && |tb.chains| == NHASH && |s.fh| == NHASH && Unlinks(s, tb, t, a, k, s')
    requires s.hashlock == Some(t) && Sole(s, t, a) && HasLock(s, t, a)
    requires HeldObj(s.pcs[t]) == Some(a) && OffChain(s.pcs[t]) == None
    requires HoldsHash(ReleUnhash(a)) && HeldObj(ReleUnhash(a)) == Some(a) && OffChain(ReleUnhash(a)) == Some(a)
    ensures Safe(s, tb, t, s', Release(tb, a))
  {
    hide WellFormed, Linked, Counted, Attributed, Rely, Keeps, HoldsHash, HeldObj, OffChain, Release;
    var tb' := Release(tb, a);
    UnlinksShape(s, tb, t, a, k, s');
    ReleaseWellFormed(tb, a);
    LinkedUnlink(s, tb, s', a, k);
    CountedUnlink(s, tb, a, s', tb');
    AttributedUnlink(s, tb, t, a, ReleUnhash(a), s', tb');
    RelyRechain(s, tb, t, a, s', tb');
  }

  lemma CountedUnlink(s: State, tb: Table<Addr>, a: Addr, s': State, tb': Table<Addr>)
    requires Counted(s, tb) && s'.owners == s.owners && s'.heap.Keys == s.heap.Keys
    requires forall x :: x in s.heap ==> s'.heap[x].id == s.heap[x].id && s'.heap[x].count == s.heap[x].count
    requires tb'.objs == tb.objs - {a}
    ensures Counted(s', tb')
  {
  }

  lemma AttributedUnlink(s: State, tb: Table<Addr>, t: Tid, a: Addr, pc: Pc, s': State, tb': Table<Addr>)
    requires Attributed(s, tb) && t < |s.pcs| && Sole(s, t, a)
    requires s'.owners == s.owners && s'.hashlock == s.hashlock && s'.heap.Keys == s.heap.Keys
    requires forall x :: x in s.heap ==> s'.heap[x].lock == s.heap[x].lock
    requires s'.pcs == s.pcs[t := pc] && tb'.objs == tb.objs - {a}
    requires HeldObj(s.pcs[t]) == Some(a) && OffChain(s.pcs[t]) == None
    requires HoldsHash(pc) && HeldObj(pc) == Some(a) && OffChain(pc) == Some(a)
    ensures Attributed(s', tb')
  {
    hide HoldsHash, HeldObj, OffChain;
    forall x, v | x in s'.owners && s'.owners[x][v] > 0
      ensures v < |s'.pcs| && (x !in tb'.objs ==> OffChain(s'.pcs[v]) == Some(x))
    {
      assert s.owners[x][v] > 0;
    }
  }

  // ---- A client hands a reference over ----

  lemma GiveSafe(s: State, tb: Table<Addr>, t: Tid, u: Tid, a: Addr, s': State)
    requires Global(s, tb) && Give(s, t, u, a, s')
    ensures Safe(s, tb, t, s', tb)
  {
    hide WellFormed, Linked, Rely, Keeps;
    assert s.owners[a] == s.owners[a] - multiset{t} + multiset{t};
    assert s.owners[a][t] > 0 && OffChain(s.pcs[t]) == None;
    LinkedFrame(s, tb, s', tb);
    CountedGive(s, tb, t, u, a, s');
    AttributedGive(s, tb, t, u, a, s');
    RelyGive(s, tb, t, u, a, s');
  }

  lemma CountedGive(s: State, tb: Table<Addr>, t: Tid, u: Tid, a: Addr, s': State)
    requires Counted(s, tb) && Give(s, t, u, a, s')
    ensures Counted(s', tb)
  {
    assert s.owners[a] == s.owners[a] - multiset{t} + multiset{t};
  }

  lemma AttributedGive(s: State, tb: Table<Addr>, t: Tid, u: Tid, a: Addr, s': State)
    requires Attributed(s, tb) && Give(s, t, u, a, s') && a in tb.objs
    ensures Attributed(s', tb)
  {
    forall x, v | x in s'.owners && s'.owners[x][v] > 0
      ensures v < |s'.pcs| && (x !in tb.objs ==> OffChain(s'.pcs[v]) == Some(x))
    {
      if x != a { assert s.owners[x][v] > 0; } else if v != u { assert s.owners[a][v] > 0; }
    }
  }

  lemma KeepGive(s: State, tb: Table<Addr>, t: Tid, u: Tid, a: Addr, s': State, v: Tid)
    requires Give(s, t, u, a, s') && v != t
    ensures Keeps(s, tb, s', tb, v)
  {
    assert !Sole(s, v, a);
    assert s'.owners[a][v] >= s.owners[a][v];
  }

  lemma RelyGive(s: State, tb: Table<Addr>, t: Tid, u: Tid, a: Addr, s': State)
    requires Counted(s, tb) && Give(s, t, u, a, s')
    ensures OthersRely(s, tb, t, s', tb)
  {
    hide Keeps;
    forall v | 0 <= v < |s.pcs| && v != t ensures Keeps(s, tb, s', tb, v) {
      KeepGive(s, tb, t, u, a, s', v);
    }
    OthersFrom(s, tb, t, s', tb);
  }
}
