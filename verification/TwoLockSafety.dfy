/** The two-lock table over whole runs: ownership counting, nothing touched after
    it is freed, no deadlock, and operations that end. */
module TwoLockSafety {
  import opened Prelude
  import opened TableSpec
  import opened TwoLockTable
  import opened TwoLockInvariant
  import opened TwoLockSteps
  import opened TwoLockPreserved

  // ---- Every reachable state satisfies the invariant ----

  lemma StepKeepsInv(s: State, tb: Table<Addr>, t: Tid, s': State)
    requires Inv(s, tb) && Step(s, t, s')
    ensures exists tb' :: Inv(s', tb')
  {
    hide Inv, Next, TableAfter;
    InvTable(s, tb);
    if Moves(s, t, s') {
      var mem :| Next(s, t, mem) == Moved(s');
      MoveKeepsInv(s, tb, t, mem);
    } else if Calls(s, t, s') {
      var op :| Call(s, t, op, s');
      CallKeepsInv(s, tb, t, op, s');
    } else {
      var u, a :| Give(s, t, u, a, s');
      GiveKeepsInv(s, tb, t, u, a, s');
    }
  }

  lemma InvTable(s: State, tb: Table<Addr>)
    requires Inv(s, tb)
    ensures |tb.chains| == NHASH
  {
  }

  lemma {:induction false} Reachable(states: seq<State>, who: seq<Tid>, i: nat)
    requires Run(states, who) && i < |states|
    ensures exists tb :: Inv(states[i], tb)
  {
    hide Inv, Step, Init;
    if i == 0 {
      InitInv(states[0]);
    } else {
      Reachable(states, who, i - 1);
      var tb :| Inv(states[i - 1], tb);
      assert Step(states[i - 1], who[i - 1], states[i]);
      StepKeepsInv(states[i - 1], tb, who[i - 1], states[i]);
    }
  }

  // ---- Ownership ----

  // The count of every live object is the number of references owned; the gap of
  // foo_rele is entered by one thread at a time for an object, and the thread in
  // it still owns the reference it is giving up.
  lemma CountsAreReferences(states: seq<State>, who: seq<Tid>, i: nat)
    requires Run(states, who) && i < |states|
    ensures var s := states[i];
      && s.owners.Keys == s.heap.Keys
      && (forall a :: a in s.heap ==> s.heap[a].count == |s.owners[a]|)
      && (forall t :: 0 <= t < |s.pcs| && Gap(s.pcs[t]).Some? ==> Owns(s, t, Gap(s.pcs[t]).value))
      && (forall t, u :: 0 <= t < u < |s.pcs| && Gap(s.pcs[t]).Some? ==> Gap(s.pcs[t]) != Gap(s.pcs[u]))
  {
    Reachable(states, who, i);
    var s := states[i];
    var tb :| Inv(s, tb);
    forall t | 0 <= t < |s.pcs| && Gap(s.pcs[t]).Some? ensures Owns(s, t, Gap(s.pcs[t]).value) {
      assert Local(s, tb, t);
    }
  }

  // Every object an operation of this thread may still dereference, lock or return.
  function Uses(pc: Pc): set<Addr> {
    match pc
    case AllocWantHash(_, a) => {a}
    case AllocLink(_, a) => {a}
    case AllocPublish(_, a) => {a}
    case FindWalk(_, p, _) => if p.Some? then {p.value} else {}
    case FindHoldWant(_, a, _) => {a}
    case FindHoldInc(_, a, _) => {a}
    case ReleDecUnlock(a) => {a}
    case ReleDec2Unlock(a) => {a}
    case ReleHead(a) => {a}
    case ReleWalk(a, p, _) => {a, p}
    case ReleSplice(a, p, _) => {a, p}
    case ReleUnhash(a) => {a}
    case ReleUnlock(a) => {a}
    case ReleFree(a) => {a}
    case _ => if Relied(pc).Some? then {Relied(pc).value} else {}
  }

  // Off the walks, what an operation uses is owned, locked or its own unlinked object.
  lemma UsesHeld(pc: Pc, a: Addr)
    requires a in Uses(pc) && !pc.FindWalk? && !pc.FindHoldWant? && !pc.ReleWalk? && !pc.ReleSplice?
    ensures Relied(pc) == Some(a) || HeldObj(pc) == Some(a) || OffChain(pc) == Some(a)
  {
  }

  lemma UsesAreLive(s: State, tb: Table<Addr>, u: Tid, a: Addr)
    requires u < |s.pcs| && |tb.chains| == NHASH && Ready(s, tb, u) && a in Uses(s.pcs[u])
    ensures a in s.heap
    ensures Owns(s, u, a) || HasLock(s, u, a) || a in tb.objs
  {
    hide Global, WellFormed, Passed, ChainOf, Before, HeldObj, Relied, OffChain, HoldsHash;
    match s.pcs[u]
    case FindWalk(id, p, k) => InChain(tb, id, k);
    case FindHoldWant(id, _, k) => InChain(tb, id, k);
    case ReleWalk(x, p, k) => BeforeNext(s, tb, x, p, k);
    case ReleSplice(x, p, k) => BeforeNext(s, tb, x, p, k);
    case _ => UsesHeld(s.pcs[u], a);
  }

  // A thread about to free an object is its only owner, has unlinked it, and no
  // other thread can still reach it; nobody holds its lock.
  lemma FreeIsFinal(states: seq<State>, who: seq<Tid>, i: nat, t: Tid, a: Addr)
    requires Run(states, who) && i < |states| && t < |states[i].pcs| && states[i].pcs[t] == ReleFree(a)
    ensures var s := states[i];
      && Sole(s, t, a) && s.heap[a].lock == None
      && (forall b :: 0 <= b < |s.fh| ==> s.fh[b] != Some(a))
      && (forall u :: 0 <= u < |s.pcs| && u != t ==> a !in Uses(s.pcs[u]))
  {
    hide Run, Inv, Uses, WellFormed, Global;
    Reachable(states, who, i);
    var s := states[i];
    var tb :| Inv(s, tb);
    InvReady(s, tb, t);
    forall b | 0 <= b < |s.fh| ensures s.fh[b] != Some(a) { HeadsInTable(s, tb, b); }
    forall u | 0 <= u < |s.pcs| && u != t ensures a !in Uses(s.pcs[u]) {
      InvReady(s, tb, u);
      if a in Uses(s.pcs[u]) { UsesAreLive(s, tb, u, a); }
    }
  }

  lemma HeadsInTable(s: State, tb: Table<Addr>, b: nat)
    requires Global(s, tb) && b < |s.fh|
    ensures s.fh[b].Some? ==> s.fh[b].value in tb.objs
  {
  }

  // No step of any run touches memory that is not live, unlocks a lock it does
  // not hold or destroys a held lock.
  lemma RunsDoNotFault(states: seq<State>, who: seq<Tid>, i: nat, t: Tid, mem: Option<Addr>)
    requires Run(states, who) && i < |states| && t < |states[i].pcs|
    ensures !Next(states[i], t, mem).Fault?
  {
    Reachable(states, who, i);
    var tb :| Inv(states[i], tb);
    NoFault(states[i], tb, t, mem);
  }

  // ---- Progress ----

  // The lock a thread waits for at a program point.
  predicate WaitsForHash(pc: Pc) {
    pc.AllocWantHash? || pc.FindWantHash? || pc.ReleWantHash?
  }

  function WaitsForObj(pc: Pc): Option<Addr> {
    match pc
    case AllocWantLock(_, a) => Some(a)
    case HoldWant(a) => Some(a)
    case FindHoldWant(_, a, _) => Some(a)
    case ReleWant(a) => Some(a)
    case ReleRelock(a) => Some(a)
    case _ => None
  }

  // A thread inside an operation is stopped only by a lock that another thread holds,
  // and whoever holds an object's lock waits for nothing.
  lemma OnlyLocksBlock(s: State, tb: Table<Addr>, t: Tid, mem: Option<Addr>)
    requires t < |s.pcs| && Inv(s, tb) && s.pcs[t] != Idle && Next(s, t, mem) == Blocked
    ensures (WaitsForHash(s.pcs[t]) && s.hashlock.Some? && s.hashlock != Some(t))
         || (WaitsForObj(s.pcs[t]).Some? && WaitsForObj(s.pcs[t]).value in s.heap
             && var l := s.heap[WaitsForObj(s.pcs[t]).value].lock; l.Some? && l != Some(t))
  {
    hide Inv, Attributed;
    WaitedIsNotHeld(s, tb, t);
    BlockedWaits(s, t, mem);
  }

  lemma BlockedWaits(s: State, t: Tid, mem: Option<Addr>)
    requires t < |s.pcs| && s.pcs[t] != Idle && Next(s, t, mem) == Blocked
    ensures (WaitsForHash(s.pcs[t]) && s.hashlock.Some?)
         || (WaitsForObj(s.pcs[t]).Some? && WaitsForObj(s.pcs[t]).value in s.heap
             && s.heap[WaitsForObj(s.pcs[t]).value].lock.Some?)
  {
  }

  lemma WaitedIsNotHeld(s: State, tb: Table<Addr>, t: Tid)
    requires t < |s.pcs| && Inv(s, tb)
    ensures WaitsForHash(s.pcs[t]) ==> s.hashlock != Some(t)
    ensures WaitsForObj(s.pcs[t]).Some? && WaitsForObj(s.pcs[t]).value in s.heap ==>
              s.heap[WaitsForObj(s.pcs[t]).value].lock != Some(t)
  {
    hide WellFormed, Linked, Counted, Local, GapExclusive;
    LockOrder(s.pcs[t]);
  }

  lemma LockOrder(pc: Pc)
    ensures HeldObj(pc).Some? ==> !WaitsForHash(pc) && WaitsForObj(pc) == None
    ensures WaitsForHash(pc) ==> !HoldsHash(pc)
  {
  }

  // In every reachable state with an unfinished operation some thread can step.
  lemma DeadlockFree(states: seq<State>, who: seq<Tid>, i: nat, t: Tid)
    requires Run(states, who) && i < |states| && t < |states[i].pcs| && states[i].pcs[t] != Idle
    ensures exists u :: 0 <= u < |states[i].pcs| && Next(states[i], u, None).Moved?
  {
    Reachable(states, who, i);
    var s := states[i];
    var tb :| Inv(s, tb);
    var u := CanStep(s, tb, t);
  }

  lemma CanStep(s: State, tb: Table<Addr>, t: Tid) returns (u: Tid)
    requires t < |s.pcs| && Inv(s, tb) && s.pcs[t] != Idle
    ensures u < |s.pcs| && Next(s, u, None).Moved?
  {
    hide Next, WellFormed, Linked, Local, GapExclusive, HoldsHash, HeldObj, WaitsForHash, WaitsForObj;
    u := t;
    NoFault(s, tb, u, None);
    if Next(s, u, None).Blocked? {
      OnlyLocksBlock(s, tb, u, None);
      if WaitsForHash(s.pcs[u]) && s.hashlock.Some? {
        u := s.hashlock.value;
        HolderBusy(s.pcs[u]);
        LockOrder(s.pcs[u]);
        NoFault(s, tb, u, None);
      }
      if Next(s, u, None).Blocked? {
        OnlyLocksBlock(s, tb, u, None);
        u := s.heap[WaitsForObj(s.pcs[u]).value].lock.value;
        HolderBusy(s.pcs[u]);
        LockOrder(s.pcs[u]);
        NoFault(s, tb, u, None);
        if Next(s, u, None).Blocked? { OnlyLocksBlock(s, tb, u, None); }
      }
    }
  }

  lemma HolderBusy(pc: Pc)
    ensures HoldsHash(pc) || HeldObj(pc).Some? ==> pc != Idle
  {
  }

  // How far a thread is from the end of its operation: stages left, and inside a
  // walk, links left.
  function Stage(pc: Pc): nat {
    match pc
    case Idle => 0
    case AllocCall(_) => 9
    case AllocFail(_) => 1
    case AllocWantHash(_, _) => 8
    case AllocLink(_, _) => 7
    case AllocPublish(_, _) => 6
    case AllocWantLock(_, _) => 5
    case AllocUnhash(_, _) => 4
    case AllocFinish(_, _) => 3
    case HoldWant(_) => 3
    case HoldInc(_) => 2
    case HoldUnlock(_) => 1
    case FindWantHash(_) => 7
    case FindStart(_) => 6
    case FindWalk(_, _, _) => 5
    case FindHoldWant(_, _, _) => 4
    case FindHoldInc(_, _, _) => 3
    case FindHoldUnlock(_, _) => 2
    case FindUnhash(_, _) => 1
    case ReleWant(_) => 14
    case ReleCheck(_) => 13
    case ReleDec(_) => 2
    case ReleDecUnlock(_) => 1
    case ReleDrop(_) => 12
    case ReleWantHash(_) => 11
    case ReleRelock(_) => 10
    case ReleRecheck(_) => 9
    case ReleDec2(_) => 3
    case ReleDec2Unlock(_) => 2
    case ReleDec2Unhash(_) => 1
    case ReleHead(_) => 8
    case ReleWalk(_, _, _) => 7
    case ReleSplice(_, _, _) => 6
    case ReleUnhash(_) => 5
    case ReleUnlock(_) => 4
    case ReleFree(_) => 3
  }

  function LinksLeft(s: State, tb: Table<Addr>, pc: Pc): int
    requires |tb.chains| == NHASH
  {
    match pc
    case FindWalk(id, _, k) => |ChainOf(tb, id)| - k
    case ReleWalk(a, _, k) => if a in tb.objs then |ChainOf(tb, tb.objs[a].id)| - k else 0
    case _ => 0
  }

  // Each step a thread takes brings its operation nearer to the end, so every
  // walk ends and every operation takes finitely many of its own steps.
  lemma StepsDescend(s: State, tb: Table<Addr>, t: Tid, mem: Option<Addr>)
    requires |tb.chains| == NHASH && t < |s.pcs| && Inv(s, tb) && Next(s, t, mem).Moved?
    ensures |Next(s, t, mem).s.pcs| == |s.pcs|
    ensures Descends(s, tb, t, s.pcs[t], Next(s, t, mem).s.pcs[t])
  {
    hide WellFormed, Global, Inv, ChainOf, Passed, Before, Ready, TableAfter, Next, Stage;
    InvReady(s, tb, t);
    IntoGap(s, t, mem);
    if s.pcs[t].FindWalk? { FindDescends(s, tb, t, mem); }
    else if s.pcs[t].ReleWalk? { ReleDescends(s, tb, t, mem); }
    else if InAlloc(s.pcs[t]) || InHold(s.pcs[t]) { StageAllocHold(s, t, mem); }
    else if InFind(s.pcs[t]) { StageFind(s, t, mem); }
    else if s.pcs[t].ReleWant? || s.pcs[t].ReleCheck? || s.pcs[t].ReleDec? || s.pcs[t].ReleDecUnlock?
            || s.pcs[t].ReleDrop? || s.pcs[t].ReleWantHash? || s.pcs[t].ReleRelock? { StageGap(s, t, mem); }
    else if s.pcs[t].ReleRecheck? || s.pcs[t].ReleDec2? || s.pcs[t].ReleDec2Unlock? || s.pcs[t].ReleDec2Unhash? {
      StageUndo(s, t, mem);
    }
    else if s.pcs[t] != Idle { StageUnlink(s, t, mem); }
    else { IdleStays(s, t, mem); }
  }

  ghost predicate Descends(s: State, tb: Table<Addr>, t: Tid, pc: Pc, pc': Pc)
    requires |tb.chains| == NHASH && t < |s.pcs|
  {
    || Stage(pc') < Stage(pc)
    || (Stage(pc') == Stage(pc) && 0 <= LinksLeft(s, tb, pc') < LinksLeft(s, tb, pc)
        && TableAfter(s, tb, t) == tb)
  }

  lemma StageAllocHold(s: State, t: Tid, mem: Option<Addr>)
    requires t < |s.pcs| && Next(s, t, mem).Moved? && t < |Next(s, t, mem).s.pcs|
    requires InAlloc(s.pcs[t]) || InHold(s.pcs[t])
    ensures Stage(Next(s, t, mem).s.pcs[t]) < Stage(s.pcs[t])
  {
    hide NextFind, NextRele;
    hide Bucket;
  }

  lemma StageFind(s: State, t: Tid, mem: Option<Addr>)
    requires t < |s.pcs| && Next(s, t, mem).Moved? && t < |Next(s, t, mem).s.pcs|
    requires InFind(s.pcs[t]) && !s.pcs[t].FindWalk?
    ensures Stage(Next(s, t, mem).s.pcs[t]) < Stage(s.pcs[t])
  {
    hide NextAlloc, NextHold, NextRele;
    hide Bucket;
  }

  lemma StageGap(s: State, t: Tid, mem: Option<Addr>)
    requires t < |s.pcs| && Next(s, t, mem).Moved? && t < |Next(s, t, mem).s.pcs|
    requires s.pcs[t].ReleWant? || s.pcs[t].ReleCheck? || s.pcs[t].ReleDec? || s.pcs[t].ReleDecUnlock?
             || s.pcs[t].ReleDrop? || s.pcs[t].ReleWantHash? || s.pcs[t].ReleRelock?
    ensures Stage(Next(s, t, mem).s.pcs[t]) < Stage(s.pcs[t])
  {
    hide NextAlloc, NextHold, NextFind;
    hide Bucket;
  }

  lemma StageUndo(s: State, t: Tid, mem: Option<Addr>)
    requires t < |s.pcs| && Next(s, t, mem).Moved? && t < |Next(s, t, mem).s.pcs|
    requires s.pcs[t].ReleRecheck? || s.pcs[t].ReleDec2? || s.pcs[t].ReleDec2Unlock? || s.pcs[t].ReleDec2Unhash?
    ensures Stage(Next(s, t, mem).s.pcs[t]) < Stage(s.pcs[t])
  {
    hide NextAlloc, NextHold, NextFind, Bucket;
  }

  lemma StageUnlink(s: State, t: Tid, mem: Option<Addr>)
    requires t < |s.pcs| && Next(s, t, mem).Moved? && t < |Next(s, t, mem).s.pcs|
    requires s.pcs[t].ReleHead? || s.pcs[t].ReleSplice? || s.pcs[t].ReleUnhash? || s.pcs[t].ReleUnlock?
             || s.pcs[t].ReleFree?
    ensures Stage(Next(s, t, mem).s.pcs[t]) < Stage(s.pcs[t])
  {
    hide NextAlloc, NextHold, NextFind, Bucket;
  }

  lemma FindDescends(s: State, tb: Table<Addr>, t: Tid, mem: Option<Addr>)
    requires t < |s.pcs| && |tb.chains| == NHASH && Ready(s, tb, t)
    requires s.pcs[t].FindWalk? && Next(s, t, mem).Moved? && t < |Next(s, t, mem).s.pcs|
    ensures Descends(s, tb, t, s.pcs[t], Next(s, t, mem).s.pcs[t])
  {
    hide NextAlloc, NextHold, NextRele;
    hide Global, WellFormed, ChainOf, Passed;
    var FindWalk(id, p, k) := s.pcs[t];
    Reads(s, tb, id, k);
    WalkBounds(tb, id, k);
  }

  lemma ReleDescends(s: State, tb: Table<Addr>, t: Tid, mem: Option<Addr>)
    requires t < |s.pcs| && |tb.chains| == NHASH && Ready(s, tb, t)
    requires s.pcs[t].ReleWalk? && Next(s, t, mem).Moved? && t < |Next(s, t, mem).s.pcs|
    ensures Descends(s, tb, t, s.pcs[t], Next(s, t, mem).s.pcs[t])
  {
    hide NextAlloc, NextHold, NextFind;
    hide Global, WellFormed, ChainOf, Before;
    var ReleWalk(a, p, k) := s.pcs[t];
    BeforeNext(s, tb, a, p, k);
  }

  lemma WalkBounds(tb: Table<Addr>, id: int, k: nat)
    requires WellFormed(tb) && |tb.chains| == NHASH && Passed(tb, id, k)
    ensures k <= |ChainOf(tb, id)|
  {
  }

  lemma MoveDoesNotDelay(s: State, tb: Table<Addr>, t: Tid, mem: Option<Addr>, u: Tid)
    requires |tb.chains| == NHASH && t < |s.pcs| && Inv(s, tb) && u < |s.pcs| && u != t
    requires Next(s, t, mem).Moved?
    ensures var s' := Next(s, t, mem).s;
      && |s'.pcs| == |s.pcs| && s'.pcs[u] == s.pcs[u]
      && |TableAfter(s, tb, t).chains| == NHASH
      && LinksLeft(s', TableAfter(s, tb, t), s.pcs[u]) == LinksLeft(s, tb, s.pcs[u])
  {
    hide WellFormed, Linked, Counted, Attributed, GapExclusive, AtPoint, Next, TableAfter, HeldObj, OffChain, Relied;
    InvReady(s, tb, t);
    IdleStays(s, t, mem);
    StepSafe(s, tb, t, mem);
    assert Local(s, tb, u);
    assert Rely(s, tb, Next(s, t, mem).s, TableAfter(s, tb, t), u);
    if s.pcs[u].ReleWalk? { assert Local(s, tb, u); }
  }
}
