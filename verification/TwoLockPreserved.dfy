/** The invariant holds in every reachable state of the two-lock table, and no
    step faults. */
module TwoLockPreserved {
  import opened Prelude
  import opened TableSpec
  import opened TwoLockTable
  import opened TwoLockInvariant
  import opened TwoLockSteps

  // The next step of t does not fault and is safe for the others.
  ghost predicate SafeStep(s: State, tb: Table<Addr>, t: Tid, mem: Option<Addr>)
    requires t < |s.pcs| && |tb.chains| == NHASH
  {
    match Next(s, t, mem)
    case Fault => false
    case Blocked => true
    case Moved(s') => Safe(s, tb, t, s', TableAfter(s, tb, t))
  }

  ghost predicate Ready(s: State, tb: Table<Addr>, t: Tid) {
    && Global(s, tb) && WellFormed(tb) && |tb.chains| == NHASH && |s.fh| == NHASH
    && t < |s.pcs| && Holdings(s, tb, t) && AtPoint(s, tb, t)
    && (!HoldsHash(s.pcs[t]) ==> s.hashlock != Some(t))
    && (forall a :: a in tb.objs ==> a in s.heap && a in s.owners)
  }

  lemma AllocSafe(s: State, tb: Table<Addr>, t: Tid, mem: Option<Addr>)
    requires t < |s.pcs| && |tb.chains| == NHASH && Ready(s, tb, t)
    requires s.pcs[t].AllocCall? || s.pcs[t].AllocFail? || s.pcs[t].AllocWantHash?
             || s.pcs[t].AllocLink? || s.pcs[t].AllocPublish? || s.pcs[t].AllocWantLock?
             || s.pcs[t].AllocUnhash? || s.pcs[t].AllocFinish?
    ensures SafeStep(s, tb, t, mem)
  {
    hide NextHold, NextFind, NextRele, HoldsHash, HeldObj, OffChain, Relied;
    AllocPoints();
    hide Global, Safe, WellFormed;
    match s.pcs[t]
    case AllocCall(id) =>
      if mem.Some? && mem.value !in s.heap { NewSafe(s, tb, t, mem.value, id); }
      else { MoveSafe(s, tb, t, AllocFail(id), s.hashlock); }
    case AllocFail(id) => MoveSafe(s, tb, t, Idle, s.hashlock);
    case AllocWantHash(id, a) =>
      if s.hashlock.None? { MoveSafe(s, tb, t, AllocLink(id, a), Some(t)); }
    case AllocLink(id, a) => LinkSafe(s, tb, t, id, a);
    case AllocPublish(id, a) => PublishSafe(s, tb, t, id, a);
    case AllocWantLock(id, a) =>
      if s.heap[a].lock.None? { RelockSafe(s, tb, t, a, Some(t), AllocUnhash(id, a)); }
    case AllocUnhash(id, a) => MoveSafe(s, tb, t, AllocFinish(id, a), None);
    case AllocFinish(id, a) => RelockSafe(s, tb, t, a, None, Idle);
  }

  lemma HoldLockSafe(s: State, tb: Table<Addr>, t: Tid, mem: Option<Addr>)
    requires t < |s.pcs| && |tb.chains| == NHASH && Ready(s, tb, t)
    requires s.pcs[t].HoldWant? || s.pcs[t].HoldUnlock?
    ensures SafeStep(s, tb, t, mem)
  {
    hide NextAlloc, NextFind, NextRele, HoldsHash, HeldObj, OffChain, Relied;
    HoldPoints();
    hide Global, Safe, WellFormed;
    match s.pcs[t]
    case HoldWant(a) =>
      if s.heap[a].lock.None? { RelockSafe(s, tb, t, a, Some(t), HoldInc(a)); }
    case HoldUnlock(a) => RelockSafe(s, tb, t, a, None, Idle);
  }

  lemma HoldIncSafe(s: State, tb: Table<Addr>, t: Tid, mem: Option<Addr>)
    requires t < |s.pcs| && |tb.chains| == NHASH && Ready(s, tb, t) && (s.pcs[t].HoldInc?)
    ensures SafeStep(s, tb, t, mem)
  {
    hide NextAlloc, NextFind, NextRele, HoldsHash, HeldObj, OffChain, Relied;
    HoldPoints();
    hide Global, Safe, WellFormed;
    match s.pcs[t]
    case HoldInc(a) => IncrementSafe(s, tb, t, a, HoldUnlock(a), Next(s, t, mem).s, TableAfter(s, tb, t));
  }

  lemma InChain(tb: Table<Addr>, id: int, k: nat)
    requires WellFormed(tb) && |tb.chains| == NHASH
    ensures At(ChainOf(tb, id), k).Some? ==> At(ChainOf(tb, id), k).value in tb.objs
  {
  }

  lemma FindStartSafe(s: State, tb: Table<Addr>, t: Tid, mem: Option<Addr>)
    requires t < |s.pcs| && |tb.chains| == NHASH && Ready(s, tb, t)
    requires s.pcs[t].FindWantHash? || s.pcs[t].FindStart? || s.pcs[t].FindWalk? || s.pcs[t].FindUnhash?
    ensures SafeStep(s, tb, t, mem)
  {
    hide NextAlloc, NextHold, NextRele, HoldsHash, HeldObj, OffChain, Relied;
    FindPoints();
    hide Global, Safe, WellFormed, Passed, ChainOf;
    match s.pcs[t]
    case FindWantHash(id) => if s.hashlock.None? { MoveSafe(s, tb, t, FindStart(id), Some(t)); }
    case FindStart(id) => MoveSafe(s, tb, t, FindWalk(id, Head(s, id), 0), s.hashlock);
    case FindWalk(id, p, k) =>
      if p.None? { MoveSafe(s, tb, t, FindUnhash(id, None), s.hashlock); }
      else {
        InChain(tb, id, k);
        if s.heap[p.value].id == id { MoveSafe(s, tb, t, FindHoldWant(id, p.value, k), s.hashlock); }
        else { MoveSafe(s, tb, t, FindWalk(id, s.heap[p.value].next, k + 1), s.hashlock); }
      }
    case FindUnhash(id, r) => MoveSafe(s, tb, t, Idle, None);
  }

  lemma FindLockSafe(s: State, tb: Table<Addr>, t: Tid, mem: Option<Addr>)
    requires t < |s.pcs| && |tb.chains| == NHASH && Ready(s, tb, t)
    requires s.pcs[t].FindHoldWant? || s.pcs[t].FindHoldUnlock?
    ensures SafeStep(s, tb, t, mem)
  {
    hide NextAlloc, NextHold, NextRele, HoldsHash, HeldObj, OffChain, Relied;
    FindPoints();
    hide Global, Safe, WellFormed, Passed, ChainOf;
    match s.pcs[t]
    case FindHoldWant(id, a, k) =>
      InChain(tb, id, k);
      if s.heap[a].lock.None? { RelockSafe(s, tb, t, a, Some(t), FindHoldInc(id, a, k)); }
    case FindHoldUnlock(id, a) => RelockSafe(s, tb, t, a, None, FindUnhash(id, Some(a)));
  }

  lemma FindIncSafe(s: State, tb: Table<Addr>, t: Tid, mem: Option<Addr>)
    requires t < |s.pcs| && |tb.chains| == NHASH && Ready(s, tb, t) && (s.pcs[t].FindHoldInc?)
    ensures SafeStep(s, tb, t, mem)
  {
    hide NextAlloc, NextHold, NextRele, HoldsHash, HeldObj, OffChain, Relied;
    FindPoints();
    hide Global, Safe, WellFormed, Passed, ChainOf;
    match s.pcs[t]
    case FindHoldInc(id, a, k) =>
      InChain(tb, id, k);
      IncrementSafe(s, tb, t, a, FindHoldUnlock(id, a), Next(s, t, mem).s, TableAfter(s, tb, t));
  }

  lemma ReleLockSafe(s: State, tb: Table<Addr>, t: Tid, mem: Option<Addr>)
    requires t < |s.pcs| && |tb.chains| == NHASH && Ready(s, tb, t)
    requires s.pcs[t].ReleWant? || s.pcs[t].ReleCheck?
    ensures SafeStep(s, tb, t, mem)
  {
    hide NextAlloc, NextHold, NextFind, HoldsHash, HeldObj, OffChain, Relied;
    RelePoints();
    hide Global, Safe, WellFormed;
    match s.pcs[t]
    case ReleWant(a) => if s.heap[a].lock.None? { RelockSafe(s, tb, t, a, Some(t), ReleCheck(a)); }
    case ReleCheck(a) =>
      MoveSafe(s, tb, t, if s.heap[a].count == 1 then ReleDrop(a) else ReleDec(a), s.hashlock);
  }

  lemma ReleUnlockSafe(s: State, tb: Table<Addr>, t: Tid, mem: Option<Addr>)
    requires t < |s.pcs| && |tb.chains| == NHASH && Ready(s, tb, t)
    requires s.pcs[t].ReleDecUnlock? || s.pcs[t].ReleDrop?
    ensures SafeStep(s, tb, t, mem)
  {
    hide NextAlloc, NextHold, NextFind, HoldsHash, HeldObj, OffChain, Relied;
    RelePoints();
    hide Global, Safe, WellFormed;
    match s.pcs[t]
    case ReleDecUnlock(a) => RelockSafe(s, tb, t, a, None, Idle);
    case ReleDrop(a) => RelockSafe(s, tb, t, a, None, ReleWantHash(a));
  }

  lemma ReleDecSafe(s: State, tb: Table<Addr>, t: Tid, mem: Option<Addr>)
    requires t < |s.pcs| && |tb.chains| == NHASH && Ready(s, tb, t) && (s.pcs[t].ReleDec?)
    ensures SafeStep(s, tb, t, mem)
  {
    hide NextAlloc, NextHold, NextFind, HoldsHash, HeldObj, OffChain, Relied;
    RelePoints();
    hide Global, Safe, WellFormed;
    match s.pcs[t]
    case ReleDec(a) =>
      DecrementSafe(s, tb, t, a, ReleDecUnlock(a), Next(s, t, mem).s, TableAfter(s, tb, t));
  }

  lemma ReleRelockSafe(s: State, tb: Table<Addr>, t: Tid, mem: Option<Addr>)
    requires t < |s.pcs| && |tb.chains| == NHASH && Ready(s, tb, t)
    requires s.pcs[t].ReleWantHash? || s.pcs[t].ReleRelock? || s.pcs[t].ReleRecheck?
    ensures SafeStep(s, tb, t, mem)
  {
    hide NextAlloc, NextHold, NextFind, HoldsHash, HeldObj, OffChain, Relied;
    RelePoints();
    hide Global, Safe, WellFormed;
    match s.pcs[t]
    case ReleWantHash(a) => if s.hashlock.None? { MoveSafe(s, tb, t, ReleRelock(a), Some(t)); }
    case ReleRelock(a) => if s.heap[a].lock.None? { RelockSafe(s, tb, t, a, Some(t), ReleRecheck(a)); }
    case ReleRecheck(a) =>
      MoveSafe(s, tb, t, if s.heap[a].count != 1 then ReleDec2(a) else ReleHead(a), s.hashlock);
  }

  lemma ReleUndoSafe(s: State, tb: Table<Addr>, t: Tid, mem: Option<Addr>)
    requires t < |s.pcs| && |tb.chains| == NHASH && Ready(s, tb, t)
    requires s.pcs[t].ReleDec2Unlock? || s.pcs[t].ReleDec2Unhash?
    ensures SafeStep(s, tb, t, mem)
  {
    hide NextAlloc, NextHold, NextFind, HoldsHash, HeldObj, OffChain, Relied;
    RelePoints();
    hide Global, Safe, WellFormed;
    match s.pcs[t]
    case ReleDec2Unlock(a) => RelockSafe(s, tb, t, a, None, ReleDec2Unhash(a));
    case ReleDec2Unhash(a) => MoveSafe(s, tb, t, Idle, None);
  }

  lemma ReleDec2Safe(s: State, tb: Table<Addr>, t: Tid, mem: Option<Addr>)
    requires t < |s.pcs| && |tb.chains| == NHASH && Ready(s, tb, t) && (s.pcs[t].ReleDec2?)
    ensures SafeStep(s, tb, t, mem)
  {
    hide NextAlloc, NextHold, NextFind, HoldsHash, HeldObj, OffChain, Relied;
    RelePoints();
    hide Global, Safe, WellFormed;
    match s.pcs[t]
    case ReleDec2(a) =>
      DecrementSafe(s, tb, t, a, ReleDec2Unlock(a), Next(s, t, mem).s, TableAfter(s, tb, t));
  }

  // What the unlink walk reads: the head, and the link of the k-th member.
  lemma Links(s: State, tb: Table<Addr>, a: Addr, k: nat)
    requires Global(s, tb) && WellFormed(tb) && |tb.chains| == NHASH && a in tb.objs
    ensures a in s.heap && s.heap[a].id == tb.objs[a].id
    ensures Head(s, tb.objs[a].id) == At(ChainOf(tb, tb.objs[a].id), 0)
    ensures var c := ChainOf(tb, tb.objs[a].id);
            k < |c| ==> c[k] in s.heap && s.heap[c[k]].next == At(c, k + 1)
    ensures a in ChainOf(tb, tb.objs[a].id)
  {
  }

  lemma UnlinkHeadSafe(s: State, tb: Table<Addr>, t: Tid, mem: Option<Addr>)
    requires t < |s.pcs| && |tb.chains| == NHASH && Ready(s, tb, t) && (s.pcs[t].ReleHead?)
    ensures SafeStep(s, tb, t, mem)
  {
    hide NextAlloc, NextHold, NextFind, HoldsHash, HeldObj, OffChain, Relied;
    ReleUnlinkPoints();
    hide Global, Safe, WellFormed, ChainOf, Before, Release;
    match s.pcs[t]
    case ReleHead(a) =>
      Links(s, tb, a, 0);
      var id := tb.objs[a].id;
      if Head(s, id) == Some(a) { UnlinkSafe(s, tb, t, a, 0, Next(s, t, mem).s); }
      else { MoveSafe(s, tb, t, ReleWalk(a, Head(s, id).value, 0), s.hashlock); }
  }

  lemma UnlinkWalkSafe(s: State, tb: Table<Addr>, t: Tid, mem: Option<Addr>)
    requires t < |s.pcs| && |tb.chains| == NHASH && Ready(s, tb, t) && (s.pcs[t].ReleWalk?)
    ensures SafeStep(s, tb, t, mem)
  {
    hide NextAlloc, NextHold, NextFind, HoldsHash, HeldObj, OffChain, Relied;
    ReleUnlinkPoints();
    hide Global, Safe, WellFormed, ChainOf, Before, Release;
    match s.pcs[t]
    case ReleWalk(a, p, k) =>
      BeforeNext(s, tb, a, p, k);
      if s.heap[p].next == Some(a) { MoveSafe(s, tb, t, ReleSplice(a, p, k), s.hashlock); }
      else { MoveSafe(s, tb, t, ReleWalk(a, s.heap[p].next.value, k + 1), s.hashlock); }
  }

  lemma UnlinkSpliceSafe(s: State, tb: Table<Addr>, t: Tid, mem: Option<Addr>)
    requires t < |s.pcs| && |tb.chains| == NHASH && Ready(s, tb, t) && (s.pcs[t].ReleSplice?)
    ensures SafeStep(s, tb, t, mem)
  {
    hide NextAlloc, NextHold, NextFind, HoldsHash, HeldObj, OffChain, Relied;
    ReleUnlinkPoints();
    hide Global, Safe, WellFormed, ChainOf, Before, Release;
    match s.pcs[t]
    case ReleSplice(a, p, k) =>
      BeforeNext(s, tb, a, p, k);
      UnlinkSafe(s, tb, t, a, k + 1, Next(s, t, mem).s);
  }

  lemma FreeStepSafe(s: State, tb: Table<Addr>, t: Tid, mem: Option<Addr>)
    requires t < |s.pcs| && |tb.chains| == NHASH && Ready(s, tb, t)
    requires s.pcs[t].ReleUnhash? || s.pcs[t].ReleUnlock? || s.pcs[t].ReleFree?
    ensures SafeStep(s, tb, t, mem)
  {
    hide NextAlloc, NextHold, NextFind, HoldsHash, HeldObj, OffChain, Relied;
    RelePoints();
    hide Global, Safe, WellFormed;
    match s.pcs[t]
    case ReleUnhash(a) => MoveSafe(s, tb, t, ReleUnlock(a), None);
    case ReleUnlock(a) => RelockSafe(s, tb, t, a, None, ReleFree(a));
    case ReleFree(a) => FreeSafe(s, tb, t, a);
  }

  // The unlink walk has a next object: the searched one is still ahead.
  lemma BeforeNext(s: State, tb: Table<Addr>, a: Addr, p: Addr, k: nat)
    requires Global(s, tb) && WellFormed(tb) && |tb.chains| == NHASH && Before(tb, a, p, k)
    ensures a in s.heap && p in s.heap && p in tb.objs && a in tb.objs
    ensures var c := ChainOf(tb, tb.objs[a].id);
            k + 1 < |c| && c[k] == p && s.heap[p].next == Some(c[k + 1]) && At(c, k + 1) == Some(c[k + 1])
    ensures s.heap[p].next != Some(a) ==> Before(tb, a, s.heap[p].next.value, k + 1)
  {
    Links(s, tb, a, k);
    var c := ChainOf(tb, tb.objs[a].id);
    assert a in c;
    Beyond(c, a, k);
    hide WellFormed, Global, ChainOf;
  }

  // The walk has not come to `a` yet, so there is a next object.
  lemma Beyond(c: seq<Addr>, a: Addr, k: nat)
    requires a in c && k < |c| && a !in c[..k + 1]
    ensures k + 1 < |c| && (c[k + 1] != a ==> a !in c[..k + 2])
  {
    assert c == c[..k + 1] + c[k + 1..];
  }

  // ---- The moving thread itself ----

  // After its step, t again has what its program point says it has.
  ghost predicate LocalStep(s: State, tb: Table<Addr>, t: Tid, mem: Option<Addr>)
    requires t < |s.pcs| && |tb.chains| == NHASH
  {
    var tb' := TableAfter(s, tb, t);
    match Next(s, t, mem)
    case Moved(s') => WellFormed(tb') && |s'.pcs| == |s.pcs| ==> Holdings(s', tb', t) && AtPoint(s', tb', t)
    case _ => true
  }

  lemma AllocLocal(s: State, tb: Table<Addr>, t: Tid, mem: Option<Addr>)
    requires t < |s.pcs| && |tb.chains| == NHASH && Ready(s, tb, t)
    requires s.pcs[t].AllocCall? || s.pcs[t].AllocFail? || s.pcs[t].AllocWantHash? || s.pcs[t].AllocLink?
    ensures LocalStep(s, tb, t, mem)
  {
    hide NextHold, NextFind, NextRele, HoldsHash, HeldObj, OffChain, Relied;
    AllocPoints();
    hide Global, WellFormed;
  }

  lemma PublishLocal(s: State, tb: Table<Addr>, t: Tid, mem: Option<Addr>)
    requires t < |s.pcs| && |tb.chains| == NHASH && Ready(s, tb, t)
    requires s.pcs[t].AllocPublish? || s.pcs[t].AllocWantLock? || s.pcs[t].AllocUnhash? || s.pcs[t].AllocFinish?
    ensures LocalStep(s, tb, t, mem)
  {
    hide NextHold, NextFind, NextRele, HoldsHash, HeldObj, OffChain, Relied;
    AllocPoints();
    hide Global, WellFormed;
  }

  lemma HoldLocal(s: State, tb: Table<Addr>, t: Tid, mem: Option<Addr>)
    requires t < |s.pcs| && |tb.chains| == NHASH && Ready(s, tb, t) && InHold(s.pcs[t])
    ensures LocalStep(s, tb, t, mem)
  {
    hide NextAlloc, NextFind, NextRele, HoldsHash, HeldObj, OffChain, Relied;
    HoldPoints();
    hide Global, WellFormed;
  }

  // What foo_find reads: the head of the chain, and the link of the k-th member.
  lemma Reads(s: State, tb: Table<Addr>, id: int, k: nat)
    requires Global(s, tb) && WellFormed(tb) && |tb.chains| == NHASH
    ensures Head(s, id) == At(ChainOf(tb, id), 0)
    ensures var c := ChainOf(tb, id);
            k < |c| ==> c[k] in s.heap && c[k] in tb.objs && s.heap[c[k]].id == tb.objs[c[k]].id
                        && s.heap[c[k]].next == At(c, k + 1)
  {
  }

  lemma PassedOne(tb: Table<Addr>, id: int, k: nat)
    requires WellFormed(tb) && |tb.chains| == NHASH && Passed(tb, id, k) && k < |ChainOf(tb, id)|
    requires ChainOf(tb, id)[k] in tb.objs && tb.objs[ChainOf(tb, id)[k]].id != id
    ensures Passed(tb, id, k + 1)
  {
  }

  lemma FindLocal(s: State, tb: Table<Addr>, t: Tid, mem: Option<Addr>)
    requires t < |s.pcs| && |tb.chains| == NHASH && Ready(s, tb, t)
    requires s.pcs[t].FindWantHash? || s.pcs[t].FindStart?
    ensures LocalStep(s, tb, t, mem)
  {
    hide NextAlloc, NextHold, NextRele, HoldsHash, HeldObj, OffChain, Relied;
    FindPoints();
    hide Global, WellFormed, ChainOf, Passed;
    if s.pcs[t].FindStart? {
      Reads(s, tb, s.pcs[t].id, 0);
      PassedNone(tb, s.pcs[t].id);
    }
  }

  lemma FindWalkLocal(s: State, tb: Table<Addr>, t: Tid, mem: Option<Addr>)
    requires t < |s.pcs| && |tb.chains| == NHASH && Ready(s, tb, t) && s.pcs[t].FindWalk?
    ensures LocalStep(s, tb, t, mem)
  {
    hide NextAlloc, NextHold, NextRele, HoldsHash, HeldObj, OffChain, Relied;
    FindPoints();
    hide Global, WellFormed, ChainOf, Passed;
    var FindWalk(id, p, k) := s.pcs[t];
    Reads(s, tb, id, k);
    if p.Some? && s.heap[p.value].id != id { PassedOne(tb, id, k); }
  }

  lemma PassedNone(tb: Table<Addr>, id: int)
    requires WellFormed(tb) && |tb.chains| == NHASH
    ensures Passed(tb, id, 0)
  {
  }

  lemma FindHoldLocal(s: State, tb: Table<Addr>, t: Tid, mem: Option<Addr>)
    requires t < |s.pcs| && |tb.chains| == NHASH && Ready(s, tb, t)
    requires s.pcs[t].FindHoldWant? || s.pcs[t].FindHoldInc?
    ensures LocalStep(s, tb, t, mem)
  {
    hide NextAlloc, NextHold, NextRele, HoldsHash, HeldObj, OffChain, Relied;
    FindPoints();
    hide Global, WellFormed, ChainOf, Passed;
    InChain(tb, s.pcs[t].id, s.pcs[t].k);
  }

  lemma FindEndLocal(s: State, tb: Table<Addr>, t: Tid, mem: Option<Addr>)
    requires t < |s.pcs| && |tb.chains| == NHASH && Ready(s, tb, t)
    requires s.pcs[t].FindHoldUnlock? || s.pcs[t].FindUnhash?
    ensures LocalStep(s, tb, t, mem)
  {
    hide NextAlloc, NextHold, NextRele, HoldsHash, HeldObj, OffChain, Relied;
    FindPoints();
    hide Global, WellFormed;
  }

  lemma ReleLocal(s: State, tb: Table<Addr>, t: Tid, mem: Option<Addr>)
    requires t < |s.pcs| && |tb.chains| == NHASH && Ready(s, tb, t)
    requires s.pcs[t].ReleWant? || s.pcs[t].ReleDecUnlock?
    ensures LocalStep(s, tb, t, mem)
  {
    hide NextAlloc, NextHold, NextFind, HoldsHash, HeldObj, OffChain, Relied;
    RelePoints();
    hide Global, WellFormed;
  }

  lemma CheckLocal(s: State, tb: Table<Addr>, t: Tid, mem: Option<Addr>)
    requires t < |s.pcs| && |tb.chains| == NHASH && Ready(s, tb, t) && s.pcs[t].ReleCheck?
    ensures LocalStep(s, tb, t, mem)
  {
    hide NextAlloc, NextHold, NextFind, HoldsHash, HeldObj, OffChain, Relied;
    RelePoints();
    hide Global, WellFormed;
    CountsAgree(s, tb);
    SoleWhenOne(s, t, s.pcs[t].a);
  }

  lemma GapLocal(s: State, tb: Table<Addr>, t: Tid, mem: Option<Addr>)
    requires t < |s.pcs| && |tb.chains| == NHASH && Ready(s, tb, t)
    requires s.pcs[t].ReleDrop? || s.pcs[t].ReleWantHash? || s.pcs[t].ReleRelock?
    ensures LocalStep(s, tb, t, mem)
  {
    hide NextAlloc, NextHold, NextFind, HoldsHash, HeldObj, OffChain, Relied;
    RelePoints();
    hide Global, WellFormed;
  }

  // Giving up one of several references leaves the set of objects as it is.
  lemma ReleaseSome(tb: Table<Addr>, a: Addr)
    requires |tb.chains| == NHASH && a in tb.objs && tb.objs[a].count != 1
    ensures Release(tb, a).objs.Keys == tb.objs.Keys
  {
  }

  lemma DecLocal(s: State, tb: Table<Addr>, t: Tid, mem: Option<Addr>)
    requires t < |s.pcs| && |tb.chains| == NHASH && Ready(s, tb, t) && (s.pcs[t].ReleDec?)
    ensures LocalStep(s, tb, t, mem)
  {
    hide NextAlloc, NextHold, NextFind, HoldsHash, HeldObj, OffChain, Relied;
    RelePoints();
    hide Global, WellFormed, Release;
    CountsAgree(s, tb);
    ReleaseSome(tb, s.pcs[t].a);
  }

  lemma Dec2Local(s: State, tb: Table<Addr>, t: Tid, mem: Option<Addr>)
    requires t < |s.pcs| && |tb.chains| == NHASH && Ready(s, tb, t) && (s.pcs[t].ReleDec2?)
    ensures LocalStep(s, tb, t, mem)
  {
    hide NextAlloc, NextHold, NextFind, HoldsHash, HeldObj, OffChain, Relied;
    RelePoints();
    hide Global, WellFormed, Release;
    CountsAgree(s, tb);
    ReleaseSome(tb, s.pcs[t].a);
  }

  lemma CountsAgree(s: State, tb: Table<Addr>)
    requires Global(s, tb)
    ensures forall a :: a in tb.objs ==> a in s.heap && tb.objs[a].count == s.heap[a].count
    ensures forall a :: a in s.heap ==> a in s.owners && |s.owners[a]| == s.heap[a].count
  {
  }

  lemma RecheckLocal(s: State, tb: Table<Addr>, t: Tid, mem: Option<Addr>)
    requires t < |s.pcs| && |tb.chains| == NHASH && Ready(s, tb, t) && (s.pcs[t].ReleRecheck?)
    ensures LocalStep(s, tb, t, mem)
  {
    hide NextAlloc, NextHold, NextFind, HoldsHash, HeldObj, OffChain, Relied;
    RelePoints();
    hide Global, WellFormed;
    CountsAgree(s, tb);
    SoleWhenOne(s, t, s.pcs[t].a);
  }

  lemma UndoLocal(s: State, tb: Table<Addr>, t: Tid, mem: Option<Addr>)
    requires t < |s.pcs| && |tb.chains| == NHASH && Ready(s, tb, t)
    requires s.pcs[t].ReleDec2Unlock? || s.pcs[t].ReleDec2Unhash?
    ensures LocalStep(s, tb, t, mem)
  {
    hide NextAlloc, NextHold, NextFind, HoldsHash, HeldObj, OffChain, Relied;
    RelePoints();
    hide Global, WellFormed;
  }

  // A count of one and a reference of its own: t is the only owner.
  lemma SoleWhenOne(s: State, t: Tid, a: Addr)
    requires Owns(s, t, a) && |s.owners[a]| == s.heap[a].count
    ensures s.heap[a].count == 1 ==> Sole(s, t, a)
  {
    var rest := s.owners[a] - multiset{t};
    assert s.owners[a] == rest + multiset{t};
  }

  lemma SoleCount(s: State, tb: Table<Addr>, t: Tid, a: Addr)
    requires Global(s, tb) && Sole(s, t, a) && a in tb.objs
    ensures tb.objs[a].count == 1 == s.heap[a].count && tb.objs[a].id == s.heap[a].id
  {
    hide WellFormed, Linked, Attributed;
  }

  lemma UnlinkHeadLocal(s: State, tb: Table<Addr>, t: Tid, mem: Option<Addr>)
    requires t < |s.pcs| && |tb.chains| == NHASH && Ready(s, tb, t) && (s.pcs[t].ReleHead?)
    ensures LocalStep(s, tb, t, mem)
  {
    hide NextAlloc, NextHold, NextFind, HoldsHash, HeldObj, OffChain, Relied;
    hide Global, WellFormed, ChainOf, Before, Release;
    ReleUnlinkPoints();
    var a := s.pcs[t].a;
    SoleCount(s, tb, t, a);
    Links(s, tb, a, 0);
    ReleaseLast(tb, a);
    BeforeStart(tb, a);
  }

  lemma UnlinkWalkLocal(s: State, tb: Table<Addr>, t: Tid, mem: Option<Addr>)
    requires t < |s.pcs| && |tb.chains| == NHASH && Ready(s, tb, t) && (s.pcs[t].ReleWalk?)
    ensures LocalStep(s, tb, t, mem)
  {
    hide NextAlloc, NextHold, NextFind, HoldsHash, HeldObj, OffChain, Relied;
    ReleUnlinkPoints();
    hide Global, WellFormed, ChainOf, Before, Release;
    BeforeNext(s, tb, s.pcs[t].a, s.pcs[t].p, s.pcs[t].k);
  }

  lemma UnlinkSpliceLocal(s: State, tb: Table<Addr>, t: Tid, mem: Option<Addr>)
    requires t < |s.pcs| && |tb.chains| == NHASH && Ready(s, tb, t) && (s.pcs[t].ReleSplice?)
    ensures LocalStep(s, tb, t, mem)
  {
    hide NextAlloc, NextHold, NextFind, HoldsHash, HeldObj, OffChain, Relied;
    hide Global, WellFormed, ChainOf, Before, Release;
    ReleUnlinkPoints();
    BeforeNext(s, tb, s.pcs[t].a, s.pcs[t].p, s.pcs[t].k);
    SoleCount(s, tb, t, s.pcs[t].a);
    ReleaseLast(tb, s.pcs[t].a);
  }

  lemma ReleaseLast(tb: Table<Addr>, a: Addr)
    requires WellFormed(tb) && |tb.chains| == NHASH && a in tb.objs
    ensures tb.objs[a].count == 1 ==> a !in Release(tb, a).objs
  {
  }

  lemma BeforeStart(tb: Table<Addr>, a: Addr)
    requires WellFormed(tb) && |tb.chains| == NHASH && a in tb.objs
    ensures var c := ChainOf(tb, tb.objs[a].id);
            At(c, 0).Some? && At(c, 0) != Some(a) ==> Before(tb, a, At(c, 0).value, 0)
  {
    var c := ChainOf(tb, tb.objs[a].id);
    assert |c| > 0 ==> c[..1] == [c[0]];
  }

  lemma FreeLocal(s: State, tb: Table<Addr>, t: Tid, mem: Option<Addr>)
    requires t < |s.pcs| && |tb.chains| == NHASH && Ready(s, tb, t)
    requires s.pcs[t].ReleUnlock? || s.pcs[t].ReleFree?
    ensures LocalStep(s, tb, t, mem)
  {
    hide NextAlloc, NextHold, NextFind, HoldsHash, HeldObj, OffChain, Relied;
    RelePoints();
    hide Global, WellFormed;
  }

  lemma UnhashLocal(s: State, tb: Table<Addr>, t: Tid, mem: Option<Addr>)
    requires t < |s.pcs| && |tb.chains| == NHASH && Ready(s, tb, t) && (s.pcs[t].ReleUnhash?)
    ensures LocalStep(s, tb, t, mem)
  {
    hide NextAlloc, NextHold, NextFind, HoldsHash, HeldObj, OffChain, Relied;
    ReleUnlinkPoints();
    hide Global, WellFormed;
  }

  // ---- Every step ----

  lemma StepSafe(s: State, tb: Table<Addr>, t: Tid, mem: Option<Addr>)
    requires t < |s.pcs| && |tb.chains| == NHASH && Ready(s, tb, t) && s.pcs[t] != Idle
    ensures SafeStep(s, tb, t, mem)
  {
    hide *;
    match s.pcs[t]
    case HoldWant(_) => HoldLockSafe(s, tb, t, mem);
    case HoldUnlock(_) => HoldLockSafe(s, tb, t, mem);
    case HoldInc(_) => HoldIncSafe(s, tb, t, mem);
    case FindWantHash(_) => FindStartSafe(s, tb, t, mem);
    case FindStart(_) => FindStartSafe(s, tb, t, mem);
    case FindWalk(_, _, _) => FindStartSafe(s, tb, t, mem);
    case FindUnhash(_, _) => FindStartSafe(s, tb, t, mem);
    case FindHoldWant(_, _, _) => FindLockSafe(s, tb, t, mem);
    case FindHoldUnlock(_, _) => FindLockSafe(s, tb, t, mem);
    case FindHoldInc(_, _, _) => FindIncSafe(s, tb, t, mem);
    case ReleWant(_) => ReleLockSafe(s, tb, t, mem);
    case ReleCheck(_) => ReleLockSafe(s, tb, t, mem);
    case ReleDecUnlock(_) => ReleUnlockSafe(s, tb, t, mem);
    case ReleDrop(_) => ReleUnlockSafe(s, tb, t, mem);
    case ReleDec(_) => ReleDecSafe(s, tb, t, mem);
    case ReleWantHash(_) => ReleRelockSafe(s, tb, t, mem);
    case ReleRelock(_) => ReleRelockSafe(s, tb, t, mem);
    case ReleRecheck(_) => ReleRelockSafe(s, tb, t, mem);
    case ReleDec2Unlock(_) => ReleUndoSafe(s, tb, t, mem);
    case ReleDec2Unhash(_) => ReleUndoSafe(s, tb, t, mem);
    case ReleDec2(_) => ReleDec2Safe(s, tb, t, mem);
    case ReleHead(_) => UnlinkHeadSafe(s, tb, t, mem);
    case ReleWalk(_, _, _) => UnlinkWalkSafe(s, tb, t, mem);
    case ReleSplice(_, _, _) => UnlinkSpliceSafe(s, tb, t, mem);
    case ReleUnhash(_) => FreeStepSafe(s, tb, t, mem);
    case ReleUnlock(_) => FreeStepSafe(s, tb, t, mem);
    case ReleFree(_) => FreeStepSafe(s, tb, t, mem);
    case _ => AllocSafe(s, tb, t, mem);
  }

  lemma StepLocal(s: State, tb: Table<Addr>, t: Tid, mem: Option<Addr>)
    requires t < |s.pcs| && |tb.chains| == NHASH && Ready(s, tb, t) && s.pcs[t] != Idle
    ensures LocalStep(s, tb, t, mem)
  {
    hide Ready, LocalStep;
    match s.pcs[t]
    case HoldWant(_) => HoldLocal(s, tb, t, mem);
    case HoldUnlock(_) => HoldLocal(s, tb, t, mem);
    case HoldInc(_) => HoldLocal(s, tb, t, mem);
    case FindWantHash(_) => FindLocal(s, tb, t, mem);
    case FindStart(_) => FindLocal(s, tb, t, mem);
    case FindWalk(_, _, _) => FindWalkLocal(s, tb, t, mem);
    case FindUnhash(_, _) => FindEndLocal(s, tb, t, mem);
    case FindHoldWant(_, _, _) => FindHoldLocal(s, tb, t, mem);
    case FindHoldUnlock(_, _) => FindEndLocal(s, tb, t, mem);
    case FindHoldInc(_, _, _) => FindHoldLocal(s, tb, t, mem);
    case ReleWant(_) => ReleLocal(s, tb, t, mem);
    case ReleCheck(_) => CheckLocal(s, tb, t, mem);
    case ReleDecUnlock(_) => ReleLocal(s, tb, t, mem);
    case ReleDec(_) => DecLocal(s, tb, t, mem);
    case ReleDec2(_) => Dec2Local(s, tb, t, mem);
    case ReleDrop(_) => GapLocal(s, tb, t, mem);
    case ReleWantHash(_) => GapLocal(s, tb, t, mem);
    case ReleRelock(_) => GapLocal(s, tb, t, mem);
    case ReleRecheck(_) => RecheckLocal(s, tb, t, mem);
    case ReleDec2Unlock(_) => UndoLocal(s, tb, t, mem);
    case ReleDec2Unhash(_) => UndoLocal(s, tb, t, mem);
    case ReleHead(_) => UnlinkHeadLocal(s, tb, t, mem);
    case ReleWalk(_, _, _) => UnlinkWalkLocal(s, tb, t, mem);
    case ReleSplice(_, _, _) => UnlinkSpliceLocal(s, tb, t, mem);
    case ReleUnhash(_) => UnhashLocal(s, tb, t, mem);
    case ReleUnlock(_) => FreeLocal(s, tb, t, mem);
    case ReleFree(_) => FreeLocal(s, tb, t, mem);
    case AllocCall(_) => AllocLocal(s, tb, t, mem);
    case AllocFail(_) => AllocLocal(s, tb, t, mem);
    case AllocWantHash(_, _) => AllocLocal(s, tb, t, mem);
    case AllocLink(_, _) => AllocLocal(s, tb, t, mem);
    case _ => PublishLocal(s, tb, t, mem);
  }

  lemma InvReady(s: State, tb: Table<Addr>, t: Tid)
    requires t < |s.pcs| && Inv(s, tb)
    ensures Ready(s, tb, t)
  {
    hide WellFormed, Linked;
    assert Local(s, tb, t);
    if !HoldsHash(s.pcs[t]) { NotHolding(s, tb, t); }
  }

  lemma NotHolding(s: State, tb: Table<Addr>, t: Tid)
    requires Attributed(s, tb) && t < |s.pcs| && !HoldsHash(s.pcs[t])
    ensures s.hashlock != Some(t)
  {
  }

  // No step of a thread in an operation faults.
  lemma NoFault(s: State, tb: Table<Addr>, t: Tid, mem: Option<Addr>)
    requires t < |s.pcs| && Inv(s, tb)
    ensures !Next(s, t, mem).Fault?
  {
    if s.pcs[t] != Idle {
      InvReady(s, tb, t);
      StepSafe(s, tb, t, mem);
    }
  }

  // All threads are consistent again once the mover is and the others may rely on theirs.
  lemma AllLocal(s: State, tb: Table<Addr>, t: Tid, s': State, tb': Table<Addr>)
    requires t < |s.pcs| && Inv(s, tb) && |s'.pcs| == |s.pcs|
    requires WellFormed(tb') && OthersRely(s, tb, t, s', tb') && Local(s', tb', t)
    ensures forall u :: 0 <= u < |s'.pcs| ==> Local(s', tb', u)
  {
    hide WellFormed, Linked, Counted, Attributed, Rely, Holdings, AtPoint, GapExclusive;
    forall u | 0 <= u < |s'.pcs| ensures Local(s', tb', u) {
      if u != t {
        assert Local(s, tb, u) && Rely(s, tb, s', tb', u);
        RelyKeepsHoldings(s, tb, s', tb', u);
        RelyKeepsAtPoint(s, tb, s', tb', u);
      }
    }
  }

  // Entering the gap takes a count of one, so no other owner, hence nobody else in the gap.
  lemma GapStep(s: State, tb: Table<Addr>, t: Tid, s': State)
    requires Inv(s, tb) && OnlyMoves(s, t, s')
    requires Gap(s'.pcs[t]).Some? ==>
               Gap(s'.pcs[t]) == Gap(s.pcs[t]) || (Sole(s, t, Gap(s'.pcs[t]).value))
    ensures GapExclusive(s')
  {
    hide WellFormed, Linked, Counted, Attributed, AtPoint;
    forall u, v | 0 <= u < v < |s'.pcs| && Gap(s'.pcs[u]).Some?
      ensures Gap(s'.pcs[u]) != Gap(s'.pcs[v])
    {
      assert Local(s, tb, u) && Local(s, tb, v);
      assert Gap(s.pcs[u]).Some? ==> Relied(s.pcs[u]) == Gap(s.pcs[u]);
      assert Gap(s.pcs[v]).Some? ==> Relied(s.pcs[v]) == Gap(s.pcs[v]);
    }
  }

  // The only way into the gap is dropping the object lock after a count of one.
  lemma IntoGap(s: State, t: Tid, mem: Option<Addr>)
    requires t < |s.pcs| && Next(s, t, mem).Moved?
    ensures IntoGapBy(s, t, Next(s, t, mem).s)
  {
    hide IntoGapBy, NextAlloc, NextHold, NextFind, NextRele;
    if InAlloc(s.pcs[t]) { IntoGapAlloc(s, t, mem); }
    else if InHold(s.pcs[t]) || InFind(s.pcs[t]) { IntoGapFind(s, t, mem); }
    else { IntoGapRele(s, t, mem); }
  }

  ghost predicate IntoGapBy(s: State, t: Tid, s': State) {
    && OnlyMoves(s, t, s')
    && (Gap(s'.pcs[t]).Some? ==> Gap(s'.pcs[t]) == Gap(s.pcs[t]) || s.pcs[t] == ReleDrop(Gap(s'.pcs[t]).value))
  }

  lemma IntoGapAlloc(s: State, t: Tid, mem: Option<Addr>)
    requires t < |s.pcs| && Next(s, t, mem).Moved? && InAlloc(s.pcs[t])
    ensures IntoGapBy(s, t, Next(s, t, mem).s)
  {
    hide NextHold, NextFind, NextRele, Bucket;
  }

  lemma IntoGapFind(s: State, t: Tid, mem: Option<Addr>)
    requires t < |s.pcs| && Next(s, t, mem).Moved? && (InHold(s.pcs[t]) || InFind(s.pcs[t]))
    ensures IntoGapBy(s, t, Next(s, t, mem).s)
  {
    hide NextAlloc, NextRele, Bucket;
  }

  lemma IntoGapRele(s: State, t: Tid, mem: Option<Addr>)
    requires t < |s.pcs| && Next(s, t, mem).Moved?
    requires !InAlloc(s.pcs[t]) && !InHold(s.pcs[t]) && !InFind(s.pcs[t])
    ensures IntoGapBy(s, t, Next(s, t, mem).s)
  {
    hide NextAlloc, NextHold, NextFind, Bucket;
  }

  lemma MoveKeepsInv(s: State, tb: Table<Addr>, t: Tid, mem: Option<Addr>)
    requires t < |s.pcs| && Inv(s, tb) && |tb.chains| == NHASH && Next(s, t, mem).Moved?
    ensures Inv(Next(s, t, mem).s, TableAfter(s, tb, t))
  {
    hide WellFormed, Linked, Counted, Attributed, Rely, Holdings, TableAfter, GapExclusive, Next;
    var s' := Next(s, t, mem).s;
    var tb' := TableAfter(s, tb, t);
    IdleStays(s, t, mem);
    InvReady(s, tb, t);
    StepSafe(s, tb, t, mem);
    StepLocal(s, tb, t, mem);
    IntoGap(s, t, mem);
    assert Local(s', tb', t);
    AllLocal(s, tb, t, s', tb');
    GapStep(s, tb, t, s');
  }

  lemma IdleStays(s: State, t: Tid, mem: Option<Addr>)
    requires t < |s.pcs|
    ensures s.pcs[t] == Idle ==> Next(s, t, mem) == Blocked
  {
  }

  lemma CallLocal(s: State, tb: Table<Addr>, t: Tid, op: Op<Addr>, s': State)
    requires Counted(s, tb) && Attributed(s, tb) && WellFormed(tb) && Call(s, t, op, s')
    ensures Holdings(s', tb, t) && AtPoint(s', tb, t)
  {
    hide WellFormed, HoldsHash, HeldObj, OffChain, Relied;
    AllocPoints();
    HoldPoints();
    FindPoints();
    RelePoints();
    if op.HoldOp? || op.ReleOp? { assert s.owners[op.a][t] > 0; }
  }

  lemma CallKeepsInv(s: State, tb: Table<Addr>, t: Tid, op: Op<Addr>, s': State)
    requires Inv(s, tb) && Call(s, t, op, s')
    ensures Inv(s', tb)
  {
    hide WellFormed, Linked, Counted, Attributed, Rely, GapExclusive, Holdings, AtPoint;
    CallLocal(s, tb, t, op, s');
    MoveSafe(s, tb, t, EntryPc(op), s.hashlock) by { NotHolding(s, tb, t); }
    AllLocal(s, tb, t, s', tb);
    GapStep(s, tb, t, s');
  }

  lemma GiveKeepsInv(s: State, tb: Table<Addr>, t: Tid, u: Tid, a: Addr, s': State)
    requires Inv(s, tb) && Give(s, t, u, a, s')
    ensures Inv(s', tb)
  {
    hide WellFormed, Linked, Counted, Attributed, Rely, GapExclusive;
    GiveSafe(s, tb, t, u, a, s');
    assert Local(s', tb, t);
    AllLocal(s, tb, t, s', tb);
    GapStep(s, tb, t, s');
  }

  lemma InitInv(s: State)
    requires Init(s)
    ensures Inv(s, Empty())
  {
  }
}
