/** Every run of the two-lock table is a run of the atomic table: each operation
    takes effect at one step, with the result the atomic table gives. */
module TwoLockRefinement {
  import opened Prelude
  import opened TableSpec
  import opened TwoLockTable
  import opened TwoLockInvariant
  import opened TwoLockPreserved
  import opened TwoLockSafety

  // ---- Refinement of the atomic table ----

  // Where the atomic table has each thread: not in an operation, in one that has
  // not yet taken effect, or in one that has, with its result.
  datatype Status = Free | Pending(op: Op<Addr>) | Done(op: Op<Addr>, res: Result<Addr>)

  datatype Atomic = Atomic(table: Table<Addr>, status: seq<Status>)

  function StatusOf(pc: Pc): Status {
    match pc
    case Idle => Free
    case AllocCall(id) => Pending(AllocOp(id))
    case AllocFail(id) => Done(AllocOp(id), Pointer(None))
    case AllocWantHash(id, _) => Pending(AllocOp(id))
    case AllocLink(id, _) => Pending(AllocOp(id))
    case AllocPublish(id, _) => Pending(AllocOp(id))
    case AllocWantLock(id, a) => Done(AllocOp(id), Pointer(Some(a)))
    case AllocUnhash(id, a) => Done(AllocOp(id), Pointer(Some(a)))
    case AllocFinish(id, a) => Done(AllocOp(id), Pointer(Some(a)))
    case HoldWant(a) => Pending(HoldOp(a))
    case HoldInc(a) => Pending(HoldOp(a))
    case HoldUnlock(a) => Done(HoldOp(a), Void)
    case FindWantHash(id) => Pending(FindOp(id))
    case FindStart(id) => Pending(FindOp(id))
    case FindWalk(id, _, _) => Pending(FindOp(id))
    case FindHoldWant(id, _, _) => Pending(FindOp(id))
    case FindHoldInc(id, _, _) => Pending(FindOp(id))
    case FindHoldUnlock(id, a) => Done(FindOp(id), Pointer(Some(a)))
    case FindUnhash(id, r) => Done(FindOp(id), Pointer(r))
    case ReleDecUnlock(a) => Done(ReleOp(a), Void)
    case ReleDec2Unlock(a) => Done(ReleOp(a), Void)
    case ReleDec2Unhash(a) => Done(ReleOp(a), Void)
    case ReleUnhash(a) => Done(ReleOp(a), Void)
    case ReleUnlock(a) => Done(ReleOp(a), Void)
    case ReleFree(a) => Done(ReleOp(a), Void)
    case ReleWalk(a, _, _) => Pending(ReleOp(a))
    case ReleSplice(a, _, _) => Pending(ReleOp(a))
    case ReleWant(a) => Pending(ReleOp(a))
    case ReleCheck(a) => Pending(ReleOp(a))
    case ReleDec(a) => Pending(ReleOp(a))
    case ReleDrop(a) => Pending(ReleOp(a))
    case ReleWantHash(a) => Pending(ReleOp(a))
    case ReleRelock(a) => Pending(ReleOp(a))
    case ReleRecheck(a) => Pending(ReleOp(a))
    case ReleDec2(a) => Pending(ReleOp(a))
    case ReleHead(a) => Pending(ReleOp(a))
  }

  // The same as a table, point by point.
  lemma AllocStatuses()
    ensures StatusOf(Idle) == Free
    ensures forall id {:trigger AllocCall(id)} :: StatusOf(AllocCall(id)) == Pending(AllocOp(id))
    ensures forall id {:trigger AllocFail(id)} :: StatusOf(AllocFail(id)) == Done(AllocOp(id), Pointer(None))
    ensures forall id, a {:trigger AllocWantHash(id, a)} :: StatusOf(AllocWantHash(id, a)) == Pending(AllocOp(id))
    ensures forall id, a {:trigger AllocLink(id, a)} :: StatusOf(AllocLink(id, a)) == Pending(AllocOp(id))
    ensures forall id, a {:trigger AllocPublish(id, a)} :: StatusOf(AllocPublish(id, a)) == Pending(AllocOp(id))
    ensures forall id, a: Addr {:trigger AllocWantLock(id, a)} ::
              StatusOf(AllocWantLock(id, a)) == Done(AllocOp(id), Pointer(Some(a)))
    ensures forall id, a: Addr {:trigger AllocUnhash(id, a)} ::
              StatusOf(AllocUnhash(id, a)) == Done(AllocOp(id), Pointer(Some(a)))
    ensures forall id, a: Addr {:trigger AllocFinish(id, a)} ::
              StatusOf(AllocFinish(id, a)) == Done(AllocOp(id), Pointer(Some(a)))
  {
  }

  lemma HoldStatuses()
    ensures StatusOf(Idle) == Free
    ensures forall a {:trigger HoldWant(a)} :: StatusOf(HoldWant(a)) == Pending(HoldOp(a))
    ensures forall a {:trigger HoldInc(a)} :: StatusOf(HoldInc(a)) == Pending(HoldOp(a))
    ensures forall a {:trigger HoldUnlock(a)} :: StatusOf(HoldUnlock(a)) == Done(HoldOp(a), Void)
  {
  }

  lemma FindStatuses()
    ensures StatusOf(Idle) == Free
    ensures forall id {:trigger FindWantHash(id)} :: StatusOf(FindWantHash(id)) == Pending(FindOp(id))
    ensures forall id {:trigger FindStart(id)} :: StatusOf(FindStart(id)) == Pending(FindOp(id))
    ensures forall id, p, k {:trigger FindWalk(id, p, k)} :: StatusOf(FindWalk(id, p, k)) == Pending(FindOp(id))
    ensures forall id, a, k {:trigger FindHoldWant(id, a, k)} ::
              StatusOf(FindHoldWant(id, a, k)) == Pending(FindOp(id))
    ensures forall id, a, k {:trigger FindHoldInc(id, a, k)} :: StatusOf(FindHoldInc(id, a, k)) == Pending(FindOp(id))
    ensures forall id, a: Addr {:trigger FindHoldUnlock(id, a)} ::
              StatusOf(FindHoldUnlock(id, a)) == Done(FindOp(id), Pointer(Some(a)))
    ensures forall id, r {:trigger FindUnhash(id, r)} :: StatusOf(FindUnhash(id, r)) == Done(FindOp(id), Pointer(r))
  {
  }

  lemma ReleStatuses()
    ensures StatusOf(Idle) == Free
    ensures forall a {:trigger ReleDecUnlock(a)} :: StatusOf(ReleDecUnlock(a)) == Done(ReleOp(a), Void)
    ensures forall a {:trigger ReleDec2Unlock(a)} :: StatusOf(ReleDec2Unlock(a)) == Done(ReleOp(a), Void)
    ensures forall a {:trigger ReleDec2Unhash(a)} :: StatusOf(ReleDec2Unhash(a)) == Done(ReleOp(a), Void)
    ensures forall a {:trigger ReleUnhash(a)} :: StatusOf(ReleUnhash(a)) == Done(ReleOp(a), Void)
    ensures forall a {:trigger ReleUnlock(a)} :: StatusOf(ReleUnlock(a)) == Done(ReleOp(a), Void)
    ensures forall a {:trigger ReleFree(a)} :: StatusOf(ReleFree(a)) == Done(ReleOp(a), Void)
    ensures forall a, p, k {:trigger ReleWalk(a, p, k)} :: StatusOf(ReleWalk(a, p, k)) == Pending(ReleOp(a))
    ensures forall a, p, k {:trigger ReleSplice(a, p, k)} :: StatusOf(ReleSplice(a, p, k)) == Pending(ReleOp(a))
    ensures forall a {:trigger ReleWant(a)} :: StatusOf(ReleWant(a)) == Pending(ReleOp(a))
    ensures forall a {:trigger ReleCheck(a)} :: StatusOf(ReleCheck(a)) == Pending(ReleOp(a))
    ensures forall a {:trigger ReleDec(a)} :: StatusOf(ReleDec(a)) == Pending(ReleOp(a))
    ensures forall a {:trigger ReleDrop(a)} :: StatusOf(ReleDrop(a)) == Pending(ReleOp(a))
    ensures forall a {:trigger ReleWantHash(a)} :: StatusOf(ReleWantHash(a)) == Pending(ReleOp(a))
    ensures forall a {:trigger ReleRelock(a)} :: StatusOf(ReleRelock(a)) == Pending(ReleOp(a))
    ensures forall a {:trigger ReleRecheck(a)} :: StatusOf(ReleRecheck(a)) == Pending(ReleOp(a))
    ensures forall a {:trigger ReleDec2(a)} :: StatusOf(ReleDec2(a)) == Pending(ReleOp(a))
    ensures forall a {:trigger ReleHead(a)} :: StatusOf(ReleHead(a)) == Pending(ReleOp(a))
  {
  }

  ghost predicate Abstracts(x: Atomic, s: State) {
    && |x.status| == |s.pcs|
    && (forall t :: 0 <= t < |s.pcs| ==> x.status[t] == StatusOf(s.pcs[t]))
    && Inv(s, x.table)
  }

  // A step of the atomic table: t calls, its operation takes effect all at once,
  // it returns with the result, or nothing visible happens.
  ghost predicate AtomicStep(x: Atomic, t: Tid, x': Atomic) {
    && t < |x.status| && |x'.status| == |x.status| && |x.table.chains| == NHASH
    && (forall u :: 0 <= u < |x.status| && u != t ==> x'.status[u] == x.status[u])
    && var a, b := x.status[t], x'.status[t];
       || (x'.table == x.table && a == b)
       || (x'.table == x.table && a.Free? && b.Pending?)
       || (a.Pending? && b.Done? && b.op == a.op && Performs(x.table, a.op, b.res, x'.table))
       || (x'.table == x.table && a.Done? && b.Free?)
  }

  // The steps of one operation, as steps of the atomic table: nothing visible,
  // or the whole effect with its result, or the return.
  ghost predicate Refines(s: State, tb: Table<Addr>, t: Tid, mem: Option<Addr>)
    requires |tb.chains| == NHASH && t < |s.pcs|
  {
    Next(s, t, mem).Moved? ==>
      var s', tb' := Next(s, t, mem).s, TableAfter(s, tb, t);
      |s'.pcs| == |s.pcs| &&
      var a, b := StatusOf(s.pcs[t]), StatusOf(s'.pcs[t]);
      || (tb' == tb && a == b)
      || (a.Pending? && b.Done? && b.op == a.op && Performs(tb, a.op, b.res, tb'))
      || (tb' == tb && a.Done? && b.Free?)
  }

  lemma AllocRefines(s: State, tb: Table<Addr>, t: Tid, mem: Option<Addr>)
    requires t < |s.pcs| && |tb.chains| == NHASH && Ready(s, tb, t) && InAlloc(s.pcs[t])
    ensures Refines(s, tb, t, mem)
  {
    hide NextHold, NextFind, NextRele, StatusOf, HoldsHash, HeldObj, OffChain, Relied;
    AllocStatuses();
    AllocPoints();
    hide Global, WellFormed;
  }

  lemma HoldRefines(s: State, tb: Table<Addr>, t: Tid, mem: Option<Addr>)
    requires t < |s.pcs| && |tb.chains| == NHASH && Ready(s, tb, t) && InHold(s.pcs[t])
    ensures Refines(s, tb, t, mem)
  {
    hide NextAlloc, NextFind, NextRele, StatusOf, HoldsHash, HeldObj, OffChain, Relied;
    HoldStatuses();
    HoldPoints();
    hide Global, WellFormed;
  }

  // foo_find takes effect when it counts its reference, or on reaching the end
  // of the chain; either way its result is the newest match.
  lemma FindRefines(s: State, tb: Table<Addr>, t: Tid, mem: Option<Addr>)
    requires t < |s.pcs| && |tb.chains| == NHASH && Ready(s, tb, t)
    requires InFind(s.pcs[t]) && !s.pcs[t].FindWalk? && !s.pcs[t].FindHoldInc?
    ensures Refines(s, tb, t, mem)
  {
    hide NextAlloc, NextHold, NextRele, StatusOf, HoldsHash, HeldObj, OffChain, Relied;
    FindStatuses();
    FindPoints();
    hide Global, WellFormed, ChainOf, Holdings, AtPoint, Performs;
  }

  lemma FindWalkRefines(s: State, tb: Table<Addr>, t: Tid, mem: Option<Addr>)
    requires t < |s.pcs| && |tb.chains| == NHASH && Ready(s, tb, t) && s.pcs[t].FindWalk?
    ensures Refines(s, tb, t, mem)
  {
    hide NextAlloc, NextHold, NextRele, StatusOf, HoldsHash, HeldObj, OffChain, Relied;
    FindStatuses();
    FindPoints();
    hide Global, WellFormed, ChainOf, Passed, Holdings, FirstMatch;
    Newest(tb, s.pcs[t].id, s.pcs[t].k);
  }

  lemma FindTakesEffect(s: State, tb: Table<Addr>, t: Tid, mem: Option<Addr>)
    requires t < |s.pcs| && |tb.chains| == NHASH && Ready(s, tb, t) && s.pcs[t].FindHoldInc?
    ensures Refines(s, tb, t, mem)
  {
    hide NextAlloc, NextHold, NextRele, StatusOf, HoldsHash, HeldObj, OffChain, Relied;
    FindStatuses();
    FindPoints();
    hide Global, WellFormed, ChainOf, Passed, Holdings, FirstMatch;
    InChain(tb, s.pcs[t].id, s.pcs[t].k);
    Newest(tb, s.pcs[t].id, s.pcs[t].k);
  }

  lemma Newest(tb: Table<Addr>, id: int, k: nat)
    requires WellFormed(tb) && |tb.chains| == NHASH && Passed(tb, id, k)
    ensures var c := ChainOf(tb, id);
      && (At(c, k) == None ==> FirstMatch(c, tb.objs, id) == None)
      && (At(c, k).Some? ==> c[k] in tb.objs && At(c, k) == Some(c[k]))
      && (At(c, k).Some? && tb.objs[c[k]].id == id ==> FirstMatch(c, tb.objs, id) == Some(c[k]))
  {
    FirstMatchIsNewest(ChainOf(tb, id), tb.objs, id, k);
  }

  lemma ReleRefines(s: State, tb: Table<Addr>, t: Tid, mem: Option<Addr>)
    requires t < |s.pcs| && |tb.chains| == NHASH && Ready(s, tb, t)
    requires s.pcs[t].ReleWant? || s.pcs[t].ReleCheck? || s.pcs[t].ReleDecUnlock?
    ensures Refines(s, tb, t, mem)
  {
    hide NextAlloc, NextHold, NextFind, StatusOf, HoldsHash, HeldObj, OffChain, Relied;
    ReleStatuses();
    RelePoints();
    hide Global, WellFormed, Release, ChainOf, Holdings, AtPoint, Performs;
  }

  lemma GapRefines(s: State, tb: Table<Addr>, t: Tid, mem: Option<Addr>)
    requires t < |s.pcs| && |tb.chains| == NHASH && Ready(s, tb, t)
    requires s.pcs[t].ReleDrop? || s.pcs[t].ReleWantHash? || s.pcs[t].ReleRelock? || s.pcs[t].ReleRecheck?
    ensures Refines(s, tb, t, mem)
  {
    hide NextAlloc, NextHold, NextFind, StatusOf, HoldsHash, HeldObj, OffChain, Relied;
    ReleStatuses();
    RelePoints();
    hide Global, WellFormed, Release, ChainOf, Holdings, AtPoint, Performs;
  }

  lemma UndoRefines(s: State, tb: Table<Addr>, t: Tid, mem: Option<Addr>)
    requires t < |s.pcs| && |tb.chains| == NHASH && Ready(s, tb, t)
    requires s.pcs[t].ReleDec2Unlock? || s.pcs[t].ReleDec2Unhash?
    ensures Refines(s, tb, t, mem)
  {
    hide NextAlloc, NextHold, NextFind, StatusOf, HoldsHash, HeldObj, OffChain, Relied;
    ReleStatuses();
    RelePoints();
    hide Global, WellFormed, Release, ChainOf, Holdings, AtPoint, Performs;
  }

  lemma FreeRefines(s: State, tb: Table<Addr>, t: Tid, mem: Option<Addr>)
    requires t < |s.pcs| && |tb.chains| == NHASH && Ready(s, tb, t)
    requires s.pcs[t].ReleUnhash? || s.pcs[t].ReleUnlock? || s.pcs[t].ReleFree?
    ensures Refines(s, tb, t, mem)
  {
    hide NextAlloc, NextHold, NextFind, StatusOf, HoldsHash, HeldObj, OffChain, Relied;
    ReleStatuses();
    RelePoints();
    hide Global, WellFormed, Release, ChainOf, Holdings, AtPoint, Performs;
  }

  lemma DecTakesEffect(s: State, tb: Table<Addr>, t: Tid, mem: Option<Addr>)
    requires t < |s.pcs| && |tb.chains| == NHASH && Ready(s, tb, t) && (s.pcs[t].ReleDec? || s.pcs[t].ReleDec2?)
    ensures Refines(s, tb, t, mem)
  {
    hide NextAlloc, NextHold, NextFind, StatusOf, HoldsHash, HeldObj, OffChain, Relied;
    ReleStatuses();
    RelePoints();
    hide Global, WellFormed, Release, ChainOf;
  }

  // foo_rele of the last reference takes effect when it unlinks the object.
  lemma UnlinkHeadTakesEffect(s: State, tb: Table<Addr>, t: Tid, mem: Option<Addr>)
    requires t < |s.pcs| && |tb.chains| == NHASH && Ready(s, tb, t) && (s.pcs[t].ReleHead?)
    ensures Refines(s, tb, t, mem)
  {
    hide NextAlloc, NextHold, NextFind, StatusOf, HoldsHash, HeldObj, OffChain, Relied;
    ReleStatuses();
    RelePoints();
    hide Global, WellFormed, Release, ChainOf, Before, Holdings;
    Links(s, tb, s.pcs[t].a, 0);
  }

  lemma UnlinkSpliceTakesEffect(s: State, tb: Table<Addr>, t: Tid, mem: Option<Addr>)
    requires t < |s.pcs| && |tb.chains| == NHASH && Ready(s, tb, t) && (s.pcs[t].ReleSplice?)
    ensures Refines(s, tb, t, mem)
  {
    hide NextAlloc, NextHold, NextFind, StatusOf, HoldsHash, HeldObj, OffChain, Relied;
    ReleStatuses();
    RelePoints();
    hide Global, WellFormed, Release, ChainOf, Holdings;
    BeforeNext(s, tb, s.pcs[t].a, s.pcs[t].p, s.pcs[t].k);
  }

  lemma UnlinkWalkRefines(s: State, tb: Table<Addr>, t: Tid, mem: Option<Addr>)
    requires t < |s.pcs| && |tb.chains| == NHASH && Ready(s, tb, t) && (s.pcs[t].ReleWalk?)
    ensures Refines(s, tb, t, mem)
  {
    hide NextAlloc, NextHold, NextFind, StatusOf, HoldsHash, HeldObj, OffChain, Relied;
    ReleStatuses();
    RelePoints();
    hide Global, WellFormed, Release, ChainOf, Holdings, AtPoint, Performs;
  }

  lemma MoveRefines(s: State, tb: Table<Addr>, t: Tid, mem: Option<Addr>)
    requires |tb.chains| == NHASH && t < |s.pcs| && Inv(s, tb)
    ensures Refines(s, tb, t, mem)
  {
    hide Inv, Ready, TableAfter;
    InvReady(s, tb, t);
    if InAlloc(s.pcs[t]) { AllocRefines(s, tb, t, mem); }
    else if InHold(s.pcs[t]) { HoldRefines(s, tb, t, mem); }
    else if s.pcs[t].FindHoldInc? { FindTakesEffect(s, tb, t, mem); }
    else if s.pcs[t].FindWalk? { FindWalkRefines(s, tb, t, mem); }
    else if InFind(s.pcs[t]) { FindRefines(s, tb, t, mem); }
    else {
      match s.pcs[t]
      case ReleWant(_) => ReleRefines(s, tb, t, mem);
      case ReleCheck(_) => ReleRefines(s, tb, t, mem);
      case ReleDec(_) => DecTakesEffect(s, tb, t, mem);
      case ReleDecUnlock(_) => ReleRefines(s, tb, t, mem);
      case ReleDrop(_) => GapRefines(s, tb, t, mem);
      case ReleWantHash(_) => GapRefines(s, tb, t, mem);
      case ReleRelock(_) => GapRefines(s, tb, t, mem);
      case ReleRecheck(_) => GapRefines(s, tb, t, mem);
      case ReleDec2(_) => DecTakesEffect(s, tb, t, mem);
      case ReleDec2Unlock(_) => UndoRefines(s, tb, t, mem);
      case ReleDec2Unhash(_) => UndoRefines(s, tb, t, mem);
      case ReleHead(_) => UnlinkHeadTakesEffect(s, tb, t, mem);
      case ReleWalk(_, _, _) => UnlinkWalkRefines(s, tb, t, mem);
      case ReleSplice(_, _, _) => UnlinkSpliceTakesEffect(s, tb, t, mem);
      case ReleUnhash(_) => FreeRefines(s, tb, t, mem);
      case ReleUnlock(_) => FreeRefines(s, tb, t, mem);
      case ReleFree(_) => FreeRefines(s, tb, t, mem);
      case _ => IdleStays(s, t, mem);
    }
  }

  function StatusesOf(pcs: seq<Pc>): seq<Status> {
    seq(|pcs|, i requires 0 <= i < |pcs| => StatusOf(pcs[i]))
  }

  // Whatever a thread does, the atomic table can do the same with the same
  // calls and results.
  lemma StepRefines(s: State, tb: Table<Addr>, t: Tid, s': State) returns (tb': Table<Addr>)
    requires Inv(s, tb) && Step(s, t, s')
    ensures Inv(s', tb')
    ensures AtomicStep(Atomic(tb, StatusesOf(s.pcs)), t, Atomic(tb', StatusesOf(s'.pcs)))
  {
    hide Inv, TableAfter, StatusOf, Performs, Next;
    InvTable(s, tb);
    if Moves(s, t, s') {
      var mem :| Next(s, t, mem) == Moved(s');
      MoveKeepsInv(s, tb, t, mem);
      MoveRefines(s, tb, t, mem);
      IntoGap(s, t, mem);
      tb' := TableAfter(s, tb, t);
    } else if Calls(s, t, s') {
      var op :| Call(s, t, op, s');
      CallKeepsInv(s, tb, t, op, s');
      CallStatus(op);
      tb' := tb;
    } else {
      var u, a :| Give(s, t, u, a, s');
      GiveKeepsInv(s, tb, t, u, a, s');
      tb' := tb;
    }
  }

  lemma CallStatus(op: Op<Addr>)
    ensures StatusOf(Idle) == Free && StatusOf(EntryPc(op)) == Pending(op)
  {
  }

  ghost predicate AtomicRun(xs: seq<Atomic>, who: seq<Tid>) {
    && |xs| == |who| + 1
    && xs[0].table == Empty()
    && (forall t :: 0 <= t < |xs[0].status| ==> xs[0].status[t] == Free)
    && forall i :: 0 <= i < |who| ==> AtomicStep(xs[i], who[i], xs[i + 1])
  }

  // The atomic run sees every thread as the real run does: the same calls pending,
  // the same operations finished, with the same results.
  ghost predicate Tracks(xs: seq<Atomic>, states: seq<State>) {
    && |xs| == |states|
    && forall i :: 0 <= i < |states| ==> Abstracts(xs[i], states[i])
  }

  // Every run of the two-lock table is a run of the atomic one.
  lemma {:induction false} RunRefines(states: seq<State>, who: seq<Tid>) returns (xs: seq<Atomic>)
    requires Run(states, who)
    ensures AtomicRun(xs, who) && Tracks(xs, states)
    decreases |who|
  {
    hide Inv, Step, StatusOf, AtomicStep;
    if |who| == 0 {
      InitInv(states[0]);
      xs := [Atomic(Empty(), StatusesOf(states[0].pcs))];
      forall t | 0 <= t < |states[0].pcs| ensures xs[0].status[t] == Free { InitIdle(states[0], t); }
    } else {
      var n := |who| - 1;
      RunPrefix(states, who, n);
      xs := RunRefines(states[..n + 1], who[..n]);
      assert Abstracts(xs[n], states[n]);
      assert Step(states[n], who[n], states[n + 1]);
      var tb' := StepRefines(states[n], xs[n].table, who[n], states[n + 1]);
      assert xs[n].status == StatusesOf(states[n].pcs);
      var last := Atomic(tb', StatusesOf(states[n + 1].pcs));
      var prev := xs;
      xs := prev + [last];
      assert xs[n] == Atomic(prev[n].table, StatusesOf(states[n].pcs));
      assert AtomicStep(xs[n], who[n], xs[n + 1]);
      forall i | 0 <= i < |who| ensures AtomicStep(xs[i], who[i], xs[i + 1]) {
        if i < n { assert AtomicStep(prev[i], who[..n][i], prev[i + 1]); }
      }
      forall i | 0 <= i < |states| ensures Abstracts(xs[i], states[i]) {
        if i <= n { assert Abstracts(prev[i], states[..n + 1][i]); }
      }
    }
  }

  lemma InitIdle(s: State, t: Tid)
    requires Init(s) && t < |s.pcs|
    ensures StatusOf(s.pcs[t]) == Free
  {
  }

  lemma RunPrefix(states: seq<State>, who: seq<Tid>, n: nat)
    requires Run(states, who) && n < |who|
    ensures Run(states[..n + 1], who[..n])
  {
    hide Step;
  }

  // What foo_find hands back is owned by its caller: the newest live object with
  // that identifier when it was found, and still live.
  lemma FoundIsOwned(states: seq<State>, who: seq<Tid>, i: nat, t: Tid, id: int, a: Addr)
    requires Run(states, who) && i < |states| && t < |states[i].pcs|
    requires states[i].pcs[t] == FindUnhash(id, Some(a))
    ensures Owns(states[i], t, a)
  {
    hide Run, Inv, WellFormed, Global;
    Reachable(states, who, i);
    var tb :| Inv(states[i], tb);
    InvReady(states[i], tb, t);
  }
}
