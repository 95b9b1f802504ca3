/** What every step of the two-lock table keeps. */
module TwoLockInvariant {
  import opened Prelude
  import opened TableSpec
  import opened TwoLockTable

  // ---- The locks a program point holds ----

  predicate HoldsHash(pc: Pc) {
    || pc.AllocLink? || pc.AllocPublish? || pc.AllocWantLock? || pc.AllocUnhash?
    || pc.FindStart? || pc.FindWalk? || pc.FindHoldWant? || pc.FindHoldInc? || pc.FindHoldUnlock?
    || pc.FindUnhash? || pc.ReleRelock? || pc.ReleRecheck? || pc.ReleDec2? || pc.ReleDec2Unlock?
    || pc.ReleDec2Unhash? || pc.ReleHead? || pc.ReleWalk? || pc.ReleSplice? || pc.ReleUnhash?
  }

  function HeldObj(pc: Pc): Option<Addr> {
    match pc
    case AllocUnhash(_, a) => Some(a)
    case AllocFinish(_, a) => Some(a)
    case HoldInc(a) => Some(a)
    case HoldUnlock(a) => Some(a)
    case FindHoldInc(_, a, _) => Some(a)
    case FindHoldUnlock(_, a) => Some(a)
    case ReleCheck(a) => Some(a)
    case ReleDec(a) => Some(a)
    case ReleDecUnlock(a) => Some(a)
    case ReleDrop(a) => Some(a)
    case ReleRecheck(a) => Some(a)
    case ReleDec2(a) => Some(a)
    case ReleDec2Unlock(a) => Some(a)
    case ReleHead(a) => Some(a)
    case ReleWalk(a, _, _) => Some(a)
    case ReleSplice(a, _, _) => Some(a)
    case ReleUnhash(a) => Some(a)
    case ReleUnlock(a) => Some(a)
    case _ => None
  }

  // The object a thread is creating but has not published, or has unlinked but not freed.
  function OffChain(pc: Pc): Option<Addr> {
    match pc
    case AllocWantHash(_, a) => Some(a)
    case AllocLink(_, a) => Some(a)
    case AllocPublish(_, a) => Some(a)
    case ReleUnhash(a) => Some(a)
    case ReleUnlock(a) => Some(a)
    case ReleFree(a) => Some(a)
    case _ => None
  }

  // The object whose lock a releasing thread has dropped and not yet retaken.
  function Gap(pc: Pc): Option<Addr> {
    match pc
    case ReleWantHash(a) => Some(a)
    case ReleRelock(a) => Some(a)
    case _ => None
  }

  // The object the thread has a reference to throughout this point: one it was
  // called with, or one it is about to return.
  function Relied(pc: Pc): Option<Addr> {
    match pc
    case AllocWantLock(_, a) => Some(a)
    case AllocUnhash(_, a) => Some(a)
    case AllocFinish(_, a) => Some(a)
    case HoldWant(a) => Some(a)
    case HoldInc(a) => Some(a)
    case HoldUnlock(a) => Some(a)
    case FindHoldUnlock(_, a) => Some(a)
    case FindUnhash(_, r) => r
    case ReleWant(a) => Some(a)
    case ReleCheck(a) => Some(a)
    case ReleDec(a) => Some(a)
    case ReleDrop(a) => Some(a)
    case ReleWantHash(a) => Some(a)
    case ReleRelock(a) => Some(a)
    case ReleRecheck(a) => Some(a)
    case ReleDec2(a) => Some(a)
    case _ => None
  }

  // ---- The same as a table, point by point ----

  // Holds the table lock; the object whose lock it holds; its object outside the chains;
  // the object it relies on a reference to.
  predicate Claims(pc: Pc, hash: bool, held: Option<Addr>, off: Option<Addr>, relied: Option<Addr>) {
    HoldsHash(pc) == hash && HeldObj(pc) == held && OffChain(pc) == off && Relied(pc) == relied
  }

  lemma AllocPoints()
    ensures Claims(Idle, false, None, None, None)
    ensures forall id {:trigger AllocCall(id)} :: Claims(AllocCall(id), false, None, None, None)
    ensures forall id {:trigger AllocFail(id)} :: Claims(AllocFail(id), false, None, None, None)
    ensures forall id, a {:trigger AllocWantHash(id, a)} :: Claims(AllocWantHash(id, a), false, None, Some(a), None)
    ensures forall id, a {:trigger AllocLink(id, a)} :: Claims(AllocLink(id, a), true, None, Some(a), None)
    ensures forall id, a {:trigger AllocPublish(id, a)} :: Claims(AllocPublish(id, a), true, None, Some(a), None)
    ensures forall id, a {:trigger AllocWantLock(id, a)} :: Claims(AllocWantLock(id, a), true, None, None, Some(a))
    ensures forall id, a {:trigger AllocUnhash(id, a)} :: Claims(AllocUnhash(id, a), true, Some(a), None, Some(a))
    ensures forall id, a {:trigger AllocFinish(id, a)} :: Claims(AllocFinish(id, a), false, Some(a), None, Some(a))
  {
  }

  lemma HoldPoints()
    ensures Claims(Idle, false, None, None, None)
    ensures forall a {:trigger HoldWant(a)} :: Claims(HoldWant(a), false, None, None, Some(a))
    ensures forall a {:trigger HoldInc(a)} :: Claims(HoldInc(a), false, Some(a), None, Some(a))
    ensures forall a {:trigger HoldUnlock(a)} :: Claims(HoldUnlock(a), false, Some(a), None, Some(a))
  {
  }

  lemma FindPoints()
    ensures Claims(Idle, false, None, None, None)
    ensures forall id {:trigger FindWantHash(id)} :: Claims(FindWantHash(id), false, None, None, None)
    ensures forall id {:trigger FindStart(id)} :: Claims(FindStart(id), true, None, None, None)
    ensures forall id, p, k {:trigger FindWalk(id, p, k)} :: Claims(FindWalk(id, p, k), true, None, None, None)
    ensures forall id, a, k {:trigger FindHoldWant(id, a, k)} :: Claims(FindHoldWant(id, a, k), true, None, None, None)
    ensures forall id, a, k {:trigger FindHoldInc(id, a, k)} :: Claims(FindHoldInc(id, a, k), true, Some(a), None, None)
    ensures forall id, a {:trigger FindHoldUnlock(id, a)} :: Claims(FindHoldUnlock(id, a), true, Some(a), None, Some(a))
    ensures forall id, r {:trigger FindUnhash(id, r)} :: Claims(FindUnhash(id, r), true, None, None, r)
  {
  }

  lemma ReleRefPoints()
    ensures Claims(Idle, false, None, None, None)
    ensures forall a {:trigger ReleWant(a)} :: Claims(ReleWant(a), false, None, None, Some(a))
    ensures forall a {:trigger ReleCheck(a)} :: Claims(ReleCheck(a), false, Some(a), None, Some(a))
    ensures forall a {:trigger ReleDec(a)} :: Claims(ReleDec(a), false, Some(a), None, Some(a))
    ensures forall a {:trigger ReleDecUnlock(a)} :: Claims(ReleDecUnlock(a), false, Some(a), None, None)
  {
  }

  lemma ReleGapPoints()
    ensures forall a {:trigger ReleDrop(a)} :: Claims(ReleDrop(a), false, Some(a), None, Some(a))
    ensures forall a {:trigger ReleWantHash(a)} :: Claims(ReleWantHash(a), false, None, None, Some(a))
    ensures forall a {:trigger ReleRelock(a)} :: Claims(ReleRelock(a), true, None, None, Some(a))
    ensures forall a {:trigger ReleRecheck(a)} :: Claims(ReleRecheck(a), true, Some(a), None, Some(a))
    ensures forall a {:trigger ReleDec2(a)} :: Claims(ReleDec2(a), true, Some(a), None, Some(a))
    ensures forall a {:trigger ReleDec2Unlock(a)} :: Claims(ReleDec2Unlock(a), true, Some(a), None, None)
    ensures forall a {:trigger ReleDec2Unhash(a)} :: Claims(ReleDec2Unhash(a), true, None, None, None)
  {
  }

  lemma ReleUnlinkPoints()
    ensures forall a {:trigger ReleHead(a)} :: Claims(ReleHead(a), true, Some(a), None, None)
    ensures forall a, p, k {:trigger ReleWalk(a, p, k)} :: Claims(ReleWalk(a, p, k), true, Some(a), None, None)
    ensures forall a, p, k {:trigger ReleSplice(a, p, k)} :: Claims(ReleSplice(a, p, k), true, Some(a), None, None)
    ensures forall a {:trigger ReleUnhash(a)} :: Claims(ReleUnhash(a), true, Some(a), Some(a), None)
    ensures forall a {:trigger ReleUnlock(a)} :: Claims(ReleUnlock(a), false, Some(a), Some(a), None)
    ensures forall a {:trigger ReleFree(a)} :: Claims(ReleFree(a), false, None, Some(a), None)
  {
  }

  lemma RelePoints()
    ensures Claims(Idle, false, None, None, None)
    ensures forall a {:trigger ReleWant(a)} :: Claims(ReleWant(a), false, None, None, Some(a))
    ensures forall a {:trigger ReleCheck(a)} :: Claims(ReleCheck(a), false, Some(a), None, Some(a))
    ensures forall a {:trigger ReleDec(a)} :: Claims(ReleDec(a), false, Some(a), None, Some(a))
    ensures forall a {:trigger ReleDecUnlock(a)} :: Claims(ReleDecUnlock(a), false, Some(a), None, None)
    ensures forall a {:trigger ReleDrop(a)} :: Claims(ReleDrop(a), false, Some(a), None, Some(a))
    ensures forall a {:trigger ReleWantHash(a)} :: Claims(ReleWantHash(a), false, None, None, Some(a))
    ensures forall a {:trigger ReleRelock(a)} :: Claims(ReleRelock(a), true, None, None, Some(a))
    ensures forall a {:trigger ReleRecheck(a)} :: Claims(ReleRecheck(a), true, Some(a), None, Some(a))
    ensures forall a {:trigger ReleDec2(a)} :: Claims(ReleDec2(a), true, Some(a), None, Some(a))
    ensures forall a {:trigger ReleDec2Unlock(a)} :: Claims(ReleDec2Unlock(a), true, Some(a), None, None)
    ensures forall a {:trigger ReleDec2Unhash(a)} :: Claims(ReleDec2Unhash(a), true, None, None, None)
    ensures forall a {:trigger ReleHead(a)} :: Claims(ReleHead(a), true, Some(a), None, None)
    ensures forall a, p, k {:trigger ReleWalk(a, p, k)} :: Claims(ReleWalk(a, p, k), true, Some(a), None, None)
    ensures forall a, p, k {:trigger ReleSplice(a, p, k)} :: Claims(ReleSplice(a, p, k), true, Some(a), None, None)
    ensures forall a {:trigger ReleUnhash(a)} :: Claims(ReleUnhash(a), true, Some(a), Some(a), None)
    ensures forall a {:trigger ReleUnlock(a)} :: Claims(ReleUnlock(a), false, Some(a), Some(a), None)
    ensures forall a {:trigger ReleFree(a)} :: Claims(ReleFree(a), false, None, Some(a), None)
  {
    hide HoldsHash, HeldObj, OffChain, Relied, Claims;
    ReleRefPoints();
    ReleGapPoints();
    ReleUnlinkPoints();
  }

  // ---- Shared state ----

  // The heads and next pointers spell out the chains of the table.
  ghost predicate Linked(s: State, tb: Table<Addr>)
    requires |tb.chains| == NHASH
  {
    && |s.fh| == NHASH
    && (forall b :: 0 <= b < NHASH ==> s.fh[b] == At(tb.chains[b], 0))
    && (forall b, i :: 0 <= b < NHASH && 0 <= i < |tb.chains[b]| ==> tb.chains[b][i] in s.heap)
    && (forall b, i, j {:trigger tb.chains[b][i], At(tb.chains[b], j)} ::
          0 <= b < NHASH && 0 <= i < |tb.chains[b]| && j == i + 1 ==>
            s.heap[tb.chains[b][i]].next == At(tb.chains[b], j))
  }

  // Each count equals the references owned, and the table agrees with the heap.
  ghost predicate Counted(s: State, tb: Table<Addr>) {
    && s.owners.Keys == s.heap.Keys
    && (forall a :: a in s.heap ==> |s.owners[a]| == s.heap[a].count)
    && (forall a :: a in tb.objs ==> a in s.heap && tb.objs[a] == Entry(s.heap[a].id, s.heap[a].count))
  }

  // Locks are held only by threads at a point that holds them; an object outside
  // the table is owned only by the thread that makes or destroys it.
  ghost predicate Attributed(s: State, tb: Table<Addr>) {
    && (s.hashlock.Some? ==> s.hashlock.value < |s.pcs| && HoldsHash(s.pcs[s.hashlock.value]))
    && (forall a :: a in s.heap && s.heap[a].lock.Some? ==>
          s.heap[a].lock.value < |s.pcs| && HeldObj(s.pcs[s.heap[a].lock.value]) == Some(a))
    && (forall a, t {:trigger s.owners[a][t]} :: a in s.owners && s.owners[a][t] > 0 ==>
          t < |s.pcs| && (a !in tb.objs ==> OffChain(s.pcs[t]) == Some(a)))
  }

  ghost predicate Global(s: State, tb: Table<Addr>) {
    && |tb.chains| == NHASH && |s.fh| == NHASH
    && WellFormed(tb) && Linked(s, tb) && Counted(s, tb) && Attributed(s, tb)
  }

  // ---- One thread ----

  ghost predicate Sole(s: State, t: Tid, a: Addr) {
    a in s.heap && a in s.owners && s.owners[a] == multiset{t}
  }

  ghost predicate HasLock(s: State, t: Tid, a: Addr) {
    a in s.heap && s.heap[a].lock == Some(t)
  }

  // The walk for `id` has passed k objects, none with that identifier.
  ghost predicate Passed(tb: Table<Addr>, id: int, k: nat)
    requires WellFormed(tb)
  {
    var c := ChainOf(tb, id);
    k <= |c| && forall i :: 0 <= i < k ==> tb.objs[c[i]].id != id
  }

  ghost predicate Found(tb: Table<Addr>, id: int, a: Addr, k: nat)
    requires WellFormed(tb)
  {
    Passed(tb, id, k) && At(ChainOf(tb, id), k) == Some(a) && tb.objs[a].id == id
  }

  // The unlink walk stands on the k-th object, before the one it looks for.
  ghost predicate Before(tb: Table<Addr>, a: Addr, p: Addr, k: nat)
    requires WellFormed(tb)
  {
    && a in tb.objs
    && var c := ChainOf(tb, tb.objs[a].id);
       At(c, k) == Some(p) && a !in c[..k + 1]
  }

  // The locks and references its program point says it has.
  ghost predicate Holdings(s: State, tb: Table<Addr>, t: Tid)
    requires t < |s.pcs|
  {
    var pc := s.pcs[t];
    && (HoldsHash(pc) ==> s.hashlock == Some(t))
    && (HeldObj(pc).Some? ==> HasLock(s, t, HeldObj(pc).value))
    && (HeldObj(pc).Some? && OffChain(pc).None? ==> HeldObj(pc).value in tb.objs)
    && (Relied(pc).Some? ==> Owns(s, t, Relied(pc).value) && Relied(pc).value in tb.objs)
    && (OffChain(pc).Some? ==> Sole(s, t, OffChain(pc).value) && OffChain(pc).value !in tb.objs)
  }

  // What else is known at each program point.
  ghost predicate AtPoint(s: State, tb: Table<Addr>, t: Tid)
    requires WellFormed(tb) && t < |s.pcs|
  {
    match s.pcs[t]
    case AllocWantHash(id, a) => a in s.heap && s.heap[a].id == id
    case AllocLink(id, a) => a in s.heap && s.heap[a].id == id
    case AllocPublish(id, a) => a in s.heap && s.heap[a].id == id && s.heap[a].next == Head(s, id)
    case FindWalk(id, p, k) => Passed(tb, id, k) && p == At(ChainOf(tb, id), k)
    case FindHoldWant(id, a, k) => Found(tb, id, a, k)
    case FindHoldInc(id, a, k) => Found(tb, id, a, k)
    case ReleDec(a) => a in s.heap && s.heap[a].count != 1
    case ReleDec2(a) => a in s.heap && s.heap[a].count != 1
    case ReleDrop(a) => Sole(s, t, a)
    case ReleHead(a) => Sole(s, t, a) && a in tb.objs
    case ReleWalk(a, p, k) => Sole(s, t, a) && Before(tb, a, p, k)
    case ReleSplice(a, p, k) =>
      Sole(s, t, a) && Before(tb, a, p, k) && p in s.heap && s.heap[p].next == Some(a)
    case ReleFree(a) => a in s.heap && s.heap[a].lock == None
    case _ => true
  }

  ghost predicate Local(s: State, tb: Table<Addr>, t: Tid)
    requires WellFormed(tb) && t < |s.pcs|
  {
    Holdings(s, tb, t) && AtPoint(s, tb, t)
  }

  // No two threads are in the gap for the same object.
  ghost predicate GapExclusive(s: State) {
    forall t, u :: 0 <= t < u < |s.pcs| && Gap(s.pcs[t]).Some? ==> Gap(s.pcs[t]) != Gap(s.pcs[u])
  }

  ghost predicate Inv(s: State, tb: Table<Addr>) {
    && Global(s, tb)
    && (forall t :: 0 <= t < |s.pcs| ==> Local(s, tb, t))
    && GapExclusive(s)
  }

  // ---- What a step does to the table ----

  function TableAfter(s: State, tb: Table<Addr>, t: Tid): Table<Addr>
    requires t < |s.pcs| && |tb.chains| == NHASH
  {
    match s.pcs[t]
    case AllocPublish(id, a) => Alloc(tb, a, id)
    case HoldInc(a) => if a in tb.objs then Hold(tb, a) else tb
    case FindHoldInc(_, a, _) => if a in tb.objs then Hold(tb, a) else tb
    case ReleDec(a) => if a in tb.objs then Release(tb, a) else tb
    case ReleDec2(a) => if a in tb.objs then Release(tb, a) else tb
    case ReleHead(a) =>
      if a in tb.objs && Head(s, tb.objs[a].id) == Some(a) then Release(tb, a) else tb
    case ReleSplice(a, _, _) => if a in tb.objs then Release(tb, a) else tb
    case _ => tb
  }

  // ---- Interference: what one thread may rely on while another moves ----

  // While u holds the table lock, chains, identifiers and links stand still.
  ghost predicate ChainsStand(s: State, tb: Table<Addr>, s': State, tb': Table<Addr>) {
    && s'.hashlock == s.hashlock && s'.fh == s.fh && tb'.chains == tb.chains
    && (forall a :: a in tb'.objs <==> a in tb.objs)
    && (forall a :: a in tb.objs ==> a in tb'.objs && tb'.objs[a].id == tb.objs[a].id)
    && (forall a :: a in tb.objs ==> a in s.heap && a in s'.heap && s'.heap[a].next == s.heap[a].next)
  }

  // Objects u has locked or owns stay as they are for u.
  ghost predicate Keeps(s: State, tb: Table<Addr>, s': State, tb': Table<Addr>, u: Tid) {
    && (forall a :: HasLock(s, u, a) ==> HasLock(s', u, a) && s'.heap[a].count == s.heap[a].count)
    && (forall a :: HasLock(s, u, a) && a in tb.objs ==> a in tb'.objs)
    && (forall a :: HasLock(s, u, a) && Sole(s, u, a) ==> Sole(s', u, a))
    && (forall a :: Owns(s, u, a) && a in tb.objs ==> Owns(s', u, a) && a in tb'.objs)
    && (forall a :: Sole(s, u, a) && a !in tb.objs ==>
          Sole(s', u, a) && a !in tb'.objs && s'.heap[a] == s.heap[a])
  }

  ghost predicate Rely(s: State, tb: Table<Addr>, s': State, tb': Table<Addr>, u: Tid)
  {
    && |s'.pcs| == |s.pcs| && u < |s.pcs| && s'.pcs[u] == s.pcs[u]
    && (s.hashlock == Some(u) ==> ChainsStand(s, tb, s', tb'))
    && Keeps(s, tb, s', tb', u)
  }

  lemma RelyKeepsHoldings(s: State, tb: Table<Addr>, s': State, tb': Table<Addr>, u: Tid)
    requires u < |s.pcs| && Holdings(s, tb, u) && Rely(s, tb, s', tb', u)
    ensures Holdings(s', tb', u)
  {
  }

  lemma RelyKeepsAtPoint(s: State, tb: Table<Addr>, s': State, tb': Table<Addr>, u: Tid)
    requires WellFormed(tb) && WellFormed(tb') && u < |s.pcs|
    requires Holdings(s, tb, u) && AtPoint(s, tb, u) && Rely(s, tb, s', tb', u)
    ensures AtPoint(s', tb', u)
  {
    if InFind(s.pcs[u]) { RelyKeepsFind(s, tb, s', tb', u); }
    else if s.pcs[u].ReleHead? || s.pcs[u].ReleWalk? || s.pcs[u].ReleSplice? { RelyKeepsUnlink(s, tb, s', tb', u); }
    else { RelyKeepsRest(s, tb, s', tb', u); }
  }

  lemma RelyKeepsFind(s: State, tb: Table<Addr>, s': State, tb': Table<Addr>, u: Tid)
    requires WellFormed(tb) && WellFormed(tb') && u < |s.pcs| && InFind(s.pcs[u])
    requires Holdings(s, tb, u) && AtPoint(s, tb, u) && Rely(s, tb, s', tb', u)
    ensures AtPoint(s', tb', u)
  {
    hide WellFormed, Passed, ChainOf, Keeps, Found, HeldObj, Relied, OffChain;
    match s.pcs[u]
    case FindWalk(id, p, k) => PassedStands(tb, tb', id, k);
    case FindHoldWant(id, a, k) => FoundStands(tb, tb', id, a, k);
    case FindHoldInc(id, a, k) => FoundStands(tb, tb', id, a, k);
    case _ =>
  }

  lemma RelyKeepsUnlink(s: State, tb: Table<Addr>, s': State, tb': Table<Addr>, u: Tid)
    requires WellFormed(tb) && WellFormed(tb') && u < |s.pcs|
    requires s.pcs[u].ReleHead? || s.pcs[u].ReleWalk? || s.pcs[u].ReleSplice?
    requires Holdings(s, tb, u) && AtPoint(s, tb, u) && Rely(s, tb, s', tb', u)
    ensures AtPoint(s', tb', u)
  {
    hide WellFormed, Before, ChainOf, HoldsHash, HeldObj, OffChain, Relied, AtPoint, Holdings;
    if s.pcs[u].ReleHead? { RelyKeepsHead(s, tb, s', tb', u); }
    else if s.pcs[u].ReleWalk? { RelyKeepsWalk(s, tb, s', tb', u); }
    else { RelyKeepsSplice(s, tb, s', tb', u); }
  }

  lemma RelyKeepsHead(s: State, tb: Table<Addr>, s': State, tb': Table<Addr>, u: Tid)
    requires WellFormed(tb) && WellFormed(tb') && u < |s.pcs| && s.pcs[u].ReleHead?
    requires Holdings(s, tb, u) && AtPoint(s, tb, u) && Rely(s, tb, s', tb', u)
    ensures AtPoint(s', tb', u)
  {
    hide WellFormed, Before, ChainOf, HoldsHash, HeldObj, OffChain, Relied;
    ReleUnlinkPoints();
  }

  lemma StillSole(s: State, tb: Table<Addr>, s': State, tb': Table<Addr>, u: Tid, a: Addr)
    requires Rely(s, tb, s', tb', u) && HasLock(s, u, a) && Sole(s, u, a)
    ensures Sole(s', u, a)
  {
  }

  lemma StillLinked(s: State, tb: Table<Addr>, s': State, tb': Table<Addr>, u: Tid)
    requires Rely(s, tb, s', tb', u) && s.hashlock == Some(u)
    ensures SameChains(tb, tb')
    ensures forall a :: a in tb.objs ==> a in s.heap && a in s'.heap && s'.heap[a].next == s.heap[a].next
  {
  }

  lemma RelyKeepsWalk(s: State, tb: Table<Addr>, s': State, tb': Table<Addr>, u: Tid)
    requires WellFormed(tb) && WellFormed(tb') && u < |s.pcs| && s.pcs[u].ReleWalk?
    requires Holdings(s, tb, u) && AtPoint(s, tb, u) && Rely(s, tb, s', tb', u)
    ensures AtPoint(s', tb', u)
  {
    hide WellFormed, Before, ChainOf, HoldsHash, HeldObj, OffChain, Relied, Keeps, ChainsStand, Sole, HasLock;
    ReleUnlinkPoints();
    StillSole(s, tb, s', tb', u, s.pcs[u].a);
    StillLinked(s, tb, s', tb', u);
    BeforeStands(tb, tb', s.pcs[u].a, s.pcs[u].p, s.pcs[u].k);
  }

  lemma RelyKeepsSplice(s: State, tb: Table<Addr>, s': State, tb': Table<Addr>, u: Tid)
    requires WellFormed(tb) && WellFormed(tb') && u < |s.pcs| && s.pcs[u].ReleSplice?
    requires Holdings(s, tb, u) && AtPoint(s, tb, u) && Rely(s, tb, s', tb', u)
    ensures AtPoint(s', tb', u)
  {
    hide WellFormed, Before, ChainOf, HoldsHash, HeldObj, OffChain, Relied, Keeps, ChainsStand, Sole, HasLock;
    ReleUnlinkPoints();
    StillSole(s, tb, s', tb', u, s.pcs[u].a);
    StillLinked(s, tb, s', tb', u);
    BeforeStands(tb, tb', s.pcs[u].a, s.pcs[u].p, s.pcs[u].k);
  }

  lemma RelyKeepsRest(s: State, tb: Table<Addr>, s': State, tb': Table<Addr>, u: Tid)
    requires WellFormed(tb) && WellFormed(tb') && u < |s.pcs|
    requires !InFind(s.pcs[u]) && !s.pcs[u].ReleHead? && !s.pcs[u].ReleWalk? && !s.pcs[u].ReleSplice?
    requires Holdings(s, tb, u) && AtPoint(s, tb, u) && Rely(s, tb, s', tb', u)
    ensures AtPoint(s', tb', u)
  {
    hide WellFormed;
  }

  // Identifiers and chains are as they were.
  ghost predicate SameChains(tb: Table<Addr>, tb': Table<Addr>) {
    && tb'.chains == tb.chains
    && forall a :: a in tb.objs ==> a in tb'.objs && tb'.objs[a].id == tb.objs[a].id
  }

  lemma FoundStands(tb: Table<Addr>, tb': Table<Addr>, id: int, a: Addr, k: nat)
    requires WellFormed(tb) && WellFormed(tb') && SameChains(tb, tb') && Found(tb, id, a, k)
    ensures Found(tb', id, a, k)
  {
    PassedStands(tb, tb', id, k);
    assert a == ChainOf(tb, id)[k];
  }

  lemma BeforeStands(tb: Table<Addr>, tb': Table<Addr>, a: Addr, p: Addr, k: nat)
    requires WellFormed(tb) && WellFormed(tb') && SameChains(tb, tb') && Before(tb, a, p, k)
    ensures Before(tb', a, p, k) && p in tb.objs
  {
    assert p == ChainOf(tb, tb.objs[a].id)[k];
  }

  lemma PassedStands(tb: Table<Addr>, tb': Table<Addr>, id: int, k: nat)
    requires WellFormed(tb) && WellFormed(tb') && SameChains(tb, tb') && Passed(tb, id, k)
    ensures Passed(tb', id, k) && ChainOf(tb', id) == ChainOf(tb, id)
  {
    var c := ChainOf(tb, id);
    forall i | 0 <= i < k ensures tb'.objs[c[i]].id != id {
      assert c[i] in tb.objs;
    }
  }
}
