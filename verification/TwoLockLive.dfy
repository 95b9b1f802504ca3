/** No object of the two-lock table is lost: what is live is in the table or is being
    made or destroyed by one thread. */
module TwoLockLive {
  import opened Prelude
  import opened TableSpec
  import opened TwoLockTable
  import opened TwoLockInvariant
  import opened TwoLockPreserved
  import opened TwoLockSafety

  function OffChains(pcs: seq<Pc>): set<Addr> {
    set t | 0 <= t < |pcs| && OffChain(pcs[t]).Some? :: OffChain(pcs[t]).value
  }

  ghost predicate Covered(s: State, tb: Table<Addr>) {
    forall a :: a in s.heap && a !in tb.objs ==> exists t :: 0 <= t < |s.pcs| && OffChain(s.pcs[t]) == Some(a)
  }

  // After a step of t, a live object outside the table is t's, or was outside the table
  // before and not t's.
  ghost predicate Accounted(s: State, tb: Table<Addr>, t: Tid, s': State, tb': Table<Addr>) {
    && t < |s.pcs| == |s'.pcs|
    && forall a :: a in s'.heap && a !in tb'.objs ==>
         OffChain(s'.pcs[t]) == Some(a) || (a in s.heap && a !in tb.objs && OffChain(s.pcs[t]) != Some(a))
  }

  lemma AllocAccounts(s: State, tb: Table<Addr>, t: Tid, mem: Option<Addr>)
    requires t < |s.pcs| && |tb.chains| == NHASH && InAlloc(s.pcs[t]) && Next(s, t, mem).Moved?
    ensures Accounted(s, tb, t, Next(s, t, mem).s, TableAfter(s, tb, t))
  {
    hide NextHold, NextFind, NextRele, HoldsHash, HeldObj, OffChain, Relied, Bucket;
    AllocPoints();
  }

  lemma HoldFindAccounts(s: State, tb: Table<Addr>, t: Tid, mem: Option<Addr>)
    requires t < |s.pcs| && |tb.chains| == NHASH && (InHold(s.pcs[t]) || InFind(s.pcs[t])) && Next(s, t, mem).Moved?
    ensures Accounted(s, tb, t, Next(s, t, mem).s, TableAfter(s, tb, t))
  {
    hide NextAlloc, NextRele, HoldsHash, HeldObj, OffChain, Relied, Bucket;
    HoldPoints();
    FindPoints();
  }

  lemma DecNext(s: State, t: Tid, mem: Option<Addr>)
    requires t < |s.pcs| && (s.pcs[t].ReleDec? || s.pcs[t].ReleDec2?) && Next(s, t, mem).Moved?
    ensures var s' := Next(s, t, mem).s; s'.heap.Keys == s.heap.Keys && |s'.pcs| == |s.pcs|
    ensures OffChain(s.pcs[t]) == None
  {
    hide NextAlloc, NextHold, NextFind;
  }

  lemma DecAccounts(s: State, tb: Table<Addr>, t: Tid, mem: Option<Addr>)
    requires t < |s.pcs| && |tb.chains| == NHASH && Ready(s, tb, t) && Next(s, t, mem).Moved?
    requires s.pcs[t].ReleDec? || s.pcs[t].ReleDec2?
    ensures Accounted(s, tb, t, Next(s, t, mem).s, TableAfter(s, tb, t))
  {
    hide Next, Global, WellFormed, ChainOf, Release, HoldsHash, HeldObj, OffChain;
    DecNext(s, t, mem);
    EntryIs(s, tb, s.pcs[t].a);
    ReleaseKeys(tb, s.pcs[t].a);
  }

  lemma QuietAccounts(s: State, tb: Table<Addr>, t: Tid, mem: Option<Addr>)
    requires t < |s.pcs| && |tb.chains| == NHASH && Ready(s, tb, t) && Next(s, t, mem).Moved?
    requires var pc := s.pcs[t]; pc.ReleWant? || pc.ReleCheck? || pc.ReleDecUnlock? || pc.ReleDrop? || pc.ReleWantHash?
    ensures Accounted(s, tb, t, Next(s, t, mem).s, TableAfter(s, tb, t))
  {
    hide NextAlloc, NextHold, NextFind, HoldsHash, HeldObj, OffChain, Relied, Bucket;
    RelePoints();
    hide Global, WellFormed, ChainOf, Release;
  }

  lemma GapAccounts(s: State, tb: Table<Addr>, t: Tid, mem: Option<Addr>)
    requires t < |s.pcs| && |tb.chains| == NHASH && Ready(s, tb, t) && Next(s, t, mem).Moved?
    requires var pc := s.pcs[t];
      pc.ReleRelock? || pc.ReleRecheck? || pc.ReleDec2Unlock? || pc.ReleDec2Unhash? || pc.ReleWalk?
    ensures Accounted(s, tb, t, Next(s, t, mem).s, TableAfter(s, tb, t))
  {
    hide NextAlloc, NextHold, NextFind, HoldsHash, HeldObj, OffChain, Relied, Bucket;
    RelePoints();
    hide Global, WellFormed, ChainOf, Release;
  }

  lemma UnlinkNext(s: State, t: Tid, mem: Option<Addr>)
    requires t < |s.pcs| && (s.pcs[t].ReleHead? || s.pcs[t].ReleSplice?) && Next(s, t, mem).Moved?
    ensures var s', a := Next(s, t, mem).s, s.pcs[t].a;
      && s'.heap.Keys == s.heap.Keys && |s'.pcs| == |s.pcs| && OffChain(s.pcs[t]) == None && a in s.heap
      && if s.pcs[t].ReleSplice? || Head(s, s.heap[a].id) == Some(a) then OffChain(s'.pcs[t]) == Some(a)
         else OffChain(s'.pcs[t]) == None
  {
    hide NextAlloc, NextHold, NextFind, Bucket;
  }

  lemma UnlinkAccounts(s: State, tb: Table<Addr>, t: Tid, mem: Option<Addr>)
    requires t < |s.pcs| && |tb.chains| == NHASH && Ready(s, tb, t) && Next(s, t, mem).Moved?
    requires s.pcs[t].ReleHead? || s.pcs[t].ReleSplice?
    ensures Accounted(s, tb, t, Next(s, t, mem).s, TableAfter(s, tb, t))
  {
    hide Next, Global, WellFormed, ChainOf, Release, HoldsHash, HeldObj, OffChain, Head;
    UnlinkNext(s, t, mem);
    EntryIs(s, tb, s.pcs[t].a);
    ReleaseKeys(tb, s.pcs[t].a);
  }

  lemma FreeAccounts(s: State, tb: Table<Addr>, t: Tid, mem: Option<Addr>)
    requires t < |s.pcs| && |tb.chains| == NHASH && Ready(s, tb, t) && Next(s, t, mem).Moved?
    requires var pc := s.pcs[t]; pc.ReleUnhash? || pc.ReleUnlock? || pc.ReleFree?
    ensures Accounted(s, tb, t, Next(s, t, mem).s, TableAfter(s, tb, t))
  {
    hide NextAlloc, NextHold, NextFind, HoldsHash, HeldObj, OffChain, Relied, Bucket;
    RelePoints();
    hide Global, WellFormed, ChainOf, Release;
  }

  lemma ReleAccounts(s: State, tb: Table<Addr>, t: Tid, mem: Option<Addr>)
    requires t < |s.pcs| && |tb.chains| == NHASH && Ready(s, tb, t) && Next(s, t, mem).Moved?
    requires !InAlloc(s.pcs[t]) && !InHold(s.pcs[t]) && !InFind(s.pcs[t])
    ensures Accounted(s, tb, t, Next(s, t, mem).s, TableAfter(s, tb, t))
  {
    hide Ready, Accounted, TableAfter, NextAlloc, NextHold, NextFind, NextRele;
    match s.pcs[t]
    case Idle => IdleStays(s, t, mem);
    case ReleDec(_) => DecAccounts(s, tb, t, mem);
    case ReleDec2(_) => DecAccounts(s, tb, t, mem);
    case ReleHead(_) => UnlinkAccounts(s, tb, t, mem);
    case ReleSplice(_, _, _) => UnlinkAccounts(s, tb, t, mem);
    case ReleUnhash(_) => FreeAccounts(s, tb, t, mem);
    case ReleUnlock(_) => FreeAccounts(s, tb, t, mem);
    case ReleFree(_) => FreeAccounts(s, tb, t, mem);
    case ReleRelock(_) => GapAccounts(s, tb, t, mem);
    case ReleRecheck(_) => GapAccounts(s, tb, t, mem);
    case ReleDec2Unlock(_) => GapAccounts(s, tb, t, mem);
    case ReleDec2Unhash(_) => GapAccounts(s, tb, t, mem);
    case ReleWalk(_, _, _) => GapAccounts(s, tb, t, mem);
    case _ => QuietAccounts(s, tb, t, mem);
  }

  lemma EntryIs(s: State, tb: Table<Addr>, a: Addr)
    requires Global(s, tb) && a in tb.objs
    ensures a in s.heap && tb.objs[a] == Entry(s.heap[a].id, s.heap[a].count)
  {
  }

  lemma ReleaseKeys(tb: Table<Addr>, a: Addr)
    requires |tb.chains| == NHASH && a in tb.objs
    ensures Release(tb, a).objs.Keys == tb.objs.Keys - (if tb.objs[a].count == 1 then {a} else {})
  {
  }

  lemma MoveAccounts(s: State, tb: Table<Addr>, t: Tid, mem: Option<Addr>)
    requires t < |s.pcs| && |tb.chains| == NHASH && Inv(s, tb) && Next(s, t, mem).Moved?
    ensures Accounted(s, tb, t, Next(s, t, mem).s, TableAfter(s, tb, t))
  {
    hide Inv, Ready, TableAfter, Next, Accounted;
    InvReady(s, tb, t);
    if InAlloc(s.pcs[t]) { AllocAccounts(s, tb, t, mem); }
    else if InHold(s.pcs[t]) || InFind(s.pcs[t]) { HoldFindAccounts(s, tb, t, mem); }
    else { ReleAccounts(s, tb, t, mem); }
  }

  lemma StepCovers(s: State, tb: Table<Addr>, t: Tid, s': State) returns (tb': Table<Addr>)
    requires Inv(s, tb) && Covered(s, tb) && Step(s, t, s')
    ensures Inv(s', tb') && Covered(s', tb')
  {
    hide Inv, TableAfter, Next, OffChain;
    InvTable(s, tb);
    if Moves(s, t, s') {
      var mem :| Next(s, t, mem) == Moved(s');
      MoveKeepsInv(s, tb, t, mem);
      MoveAccounts(s, tb, t, mem);
      IntoGap(s, t, mem);
      tb' := TableAfter(s, tb, t);
      StillCovered(s, tb, t, s', tb');
    } else if Calls(s, t, s') {
      var op :| Call(s, t, op, s');
      CallKeepsInv(s, tb, t, op, s');
      tb' := tb;
      IdleMakesNothing();
      StillCovered(s, tb, t, s', tb');
    } else {
      var u, a :| Give(s, t, u, a, s');
      GiveKeepsInv(s, tb, t, u, a, s');
      tb' := tb;
    }
  }

  lemma IdleMakesNothing()
    ensures OffChain(Idle) == None
  {
  }

  lemma StillCovered(s: State, tb: Table<Addr>, t: Tid, s': State, tb': Table<Addr>)
    requires Covered(s, tb) && Accounted(s, tb, t, s', tb')
    requires forall u :: 0 <= u < |s.pcs| && u != t ==> s'.pcs[u] == s.pcs[u]
    ensures Covered(s', tb')
  {
    hide OffChain;
    forall a | a in s'.heap && a !in tb'.objs
      ensures exists u :: 0 <= u < |s'.pcs| && OffChain(s'.pcs[u]) == Some(a)
    {
      if OffChain(s'.pcs[t]) != Some(a) {
        var u :| 0 <= u < |s.pcs| && OffChain(s.pcs[u]) == Some(a);
        assert s'.pcs[u] == s.pcs[u];
      }
    }
  }

  lemma {:induction false} CoveredAlways(states: seq<State>, who: seq<Tid>, i: nat) returns (tb: Table<Addr>)
    requires Run(states, who) && i < |states|
    ensures Inv(states[i], tb) && Covered(states[i], tb)
  {
    hide Inv, Step;
    if i == 0 {
      InitInv(states[0]);
      tb := Empty();
    } else {
      var before := CoveredAlways(states, who, i - 1);
      assert Step(states[i - 1], who[i - 1], states[i]);
      tb := StepCovers(states[i - 1], before, who[i - 1], states[i]);
    }
  }

  // At every moment of a run the live objects are those of the table and those that one
  // thread is making or, having unlinked them, is about to destroy: nothing leaks.
  lemma LiveObjects(states: seq<State>, who: seq<Tid>, i: nat) returns (tb: Table<Addr>)
    requires Run(states, who) && i < |states|
    ensures Inv(states[i], tb)
    ensures states[i].heap.Keys == tb.objs.Keys + OffChains(states[i].pcs)
    ensures tb.objs.Keys !! OffChains(states[i].pcs)
  {
    hide OffChain;
    tb := CoveredAlways(states, who, i);
    var s := states[i];
    forall a | a in OffChains(s.pcs) ensures a in s.heap && a !in tb.objs {
      var t :| 0 <= t < |s.pcs| && OffChain(s.pcs[t]) == Some(a);
      InvReady(s, tb, t);
    }
    forall a | a in tb.objs ensures a in s.heap { KnownIsLive(s, tb, a); }
    hide Inv;
    assert states[i].heap.Keys == tb.objs.Keys + OffChains(s.pcs);
  }

  lemma KnownIsLive(s: State, tb: Table<Addr>, a: Addr)
    requires Inv(s, tb) && a in tb.objs
    ensures a in s.heap
  {
  }
}
