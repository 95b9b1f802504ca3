/** The semaphore wrapper over whole runs. */
module SemSetTheorems {
  import opened Prelude
  import opened SemSet
  import opened SemSetInvariant

  // Once a set is initialised, member [1] plus all undo adjustments for it is
  // BIGCOUNT, whatever processes create, open, close or exit; so [1] is BIGCOUNT
  // less the opens outstanding, and the abort in sem_close is never reached.
  lemma AccountBalances(c: Config, states: seq<State>, who: seq<nat>, i: nat)
    requires Run(c, states, who) && OpensBelow(states, BIGCOUNT) && i < |states|
    ensures var s := states[i];
      && (forall p :: 0 <= p < |s.procs| ==> s.procs[p].pc != Aborted)
      && (s.set_.Some? && Initialised(s) ==>
            && s.set_.value.v[1] + Sum(Column(s.procs, 1)) == BIGCOUNT
            && s.set_.value.v[1] == BIGCOUNT - Opens(s)
            && 0 < s.set_.value.v[1] <= BIGCOUNT)
      && (s.set_.Some? && !Initialised(s) ==> s.set_.value.v[1] == 0 && Opens(s) == 0)
  {
    Reachable(c, states, who, i);
    var s := states[i];
    if s.set_.Some? { OpensAreAdjustments(s); }
    forall p | 0 <= p < |s.procs| ensures s.procs[p].pc != Aborted { assert ProcOk(s, s.procs[p]); }
  }

  // The lock member is 0 or 1, it is 1 exactly while one process is in a locked
  // section, and two processes are never in one together.
  lemma LockIsExclusive(c: Config, states: seq<State>, who: seq<nat>, i: nat, p: nat, q: nat)
    requires Run(c, states, who) && OpensBelow(states, BIGCOUNT) && i < |states| && states[i].set_.Some?
    requires p < |states[i].procs| && q < |states[i].procs|
    ensures var s := states[i]; var id := Some(s.set_.value.id);
      && 0 <= s.set_.value.v[2] <= 1
      && (Locked(s.procs[p].pc) == id ==> s.set_.value.v[2] == 1)
      && (Locked(s.procs[p].pc) == id && Locked(s.procs[q].pc) == id ==> p == q)
  {
    Reachable(c, states, who, i);
    var s := states[i];
    if Locked(s.procs[p].pc) == Some(s.set_.value.id) {
      LockExclusive(s, p, p);
      if Locked(s.procs[q].pc) == Some(s.set_.value.id) { LockExclusive(s, p, q); }
    }
  }

  lemma LockFreeWhenNobodyIn(c: Config, states: seq<State>, who: seq<nat>, i: nat)
    requires Run(c, states, who) && OpensBelow(states, BIGCOUNT) && i < |states| && states[i].set_.Some?
    requires forall p :: 0 <= p < |states[i].procs| ==>
               Locked(states[i].procs[p].pc) != Some(states[i].set_.value.id)
    ensures states[i].set_.value.v[2] == 0
  {
    Reachable(c, states, who, i);
    var s := states[i];
    forall j | 0 <= j < |s.procs| ensures Column(s.procs, 2)[j] == 0 { assert ProcOk(s, s.procs[j]); }
    SumZero(Column(s.procs, 2));
  }

  // A process that exits inside a locked section releases the lock.
  lemma ExitReleasesLock(c: Config, states: seq<State>, who: seq<nat>, i: nat, p: nat)
    requires Run(c, states, who) && OpensBelow(states, BIGCOUNT) && i < |states|
    requires states[i].set_.Some? && p < |states[i].procs|
    requires Locked(states[i].procs[p].pc) == Some(states[i].set_.value.id)
    ensures states[i].set_.value.v[2] == 1 && Exit(states[i], p).set_.value.v[2] == 0
  {
    Reachable(c, states, who, i);
    LockExclusive(states[i], p, p);
    ExitKeeps(states[i], p);
  }

  // ---- The value member ----

  // Value [0] plus all adjustments for it changes in no step once the set is
  // initialised, so no later create resets it; only an exit whose undo would take
  // the value below zero loses some of it.
  lemma ValueKept(c: Config, s: State, p: nat, s': State)
    requires Inv(s) && CallsOk(s) && Opens(s) < BIGCOUNT && Step(c, s, p, s') && Initialised(s)
    requires s'.set_.Some? && s'.set_.value.id == s.set_.value.id
    requires s' == Exit(s, p) ==> s.set_.value.v[0] + s.procs[p].adj[0] >= 0
    ensures Initialised(s') && Account(s', 0) == Account(s, 0)
  {
    assert ProcOk(s, s.procs[p]);
    if s' == Exit(s, p) {
      ExitAccount(s, p);
      ExitKeeps(s, p);
    } else if Next(s, p) == Some(s') {
      NextAccount(s, p, s');
    } else {
      var pc :| MayCall(c, s.procs[p], pc) && s' == Goto(s, p, pc);
      GotoAccount(s, p, pc);
    }
  }

  lemma GotoAccount(s: State, p: nat, pc: Pc)
    requires p < |s.procs|
    ensures forall m :: 0 <= m < 3 ==> Account(Goto(s, p, pc), m) == Account(s, m)
  {
    forall m | 0 <= m < 3 ensures Account(Goto(s, p, pc), m) == Account(s, m) {
      assert Column(Goto(s, p, pc).procs, m) == Column(s.procs, m);
    }
  }

  // Every operation array of the wrapper conserves each member's account.
  lemma DoOpsAccount(s: State, p: nat, ops: seq<SemBuf>, pc: Pc, held: multiset<nat>)
    requires p < |s.procs| && s.set_.Some? && AllUndone(ops) && DoOps(s, p, ops, pc, held).Some?
    ensures forall m :: 0 <= m < 3 ==> Account(DoOps(s, p, ops, pc, held).value, m) == Account(s, m)
  {
    var x := Vals(s.set_.value.v, s.procs[p].adj);
    forall m | 0 <= m < 3 ensures Account(DoOps(s, p, ops, pc, held).value, m) == Account(s, m) {
      SemOpConserves(x, ops, m);
      ColumnUpdate(s.procs, p, Proc(pc, SemOp(x, ops).value.adj, held), m);
    }
  }

  lemma NextAccount(s: State, p: nat, s': State)
    requires Inv(s) && p < |s.procs| && Initialised(s) && Next(s, p) == Some(s') && s' != Exit(s, p)
    requires s'.set_.Some? && s'.set_.value.id == s.set_.value.id
    ensures forall m :: 0 <= m < 3 ==> Account(s', m) == Account(s, m)
  {
    hide SetOk, SemOp, Account;
    var q := s.procs[p];
    assert ProcOk(s, q);
    match q.pc
    case CreateLock(id, initval) =>
      if Current(s, id) { DoOpsAccount(s, p, OP_LOCK, CreateCheck(id, initval), q.held); }
      else { GotoAccount(s, p, CreateGet(initval)); }
    case CreateEnd(id) => DoOpsAccount(s, p, OP_ENDCREATE, Running, q.held + multiset{id});
    case OpenDec(id) => DoOpsAccount(s, p, OP_OPEN, Running, q.held + multiset{id});
    case CloseLock(id) => DoOpsAccount(s, p, OP_CLOSE, CloseCheck(id), q.held - multiset{id});
    case CloseUnlock(id) => DoOpsAccount(s, p, OP_UNLOCK, Running, q.held);
    case Operate(id, amount) => DoOpsAccount(s, p, OpOp(amount), Running, q.held);
    case CreateGet(_) => GotoAccount(s, p, s'.procs[p].pc);
    case CreateCheck(_, _) => GotoAccount(s, p, s'.procs[p].pc);
    case OpenGet => GotoAccount(s, p, s'.procs[p].pc);
    case CloseCheck(_) => GotoAccount(s, p, s'.procs[p].pc);
    case _ =>
  }

  // An exit keeps the account of [0] exactly when its undo does not go below zero.
  lemma ExitAccount(s: State, p: nat)
    requires p < |s.procs| && s.set_.Some?
    ensures Account(Exit(s, p), 0) == Account(s, 0) <==> s.set_.value.v[0] + s.procs[p].adj[0] >= 0
  {
    ColumnUpdate(s.procs, p, Proc(Exited, ZEROS, multiset{}), 0);
  }

  // What initialisation leaves: the caller's value in [0] with nothing to undo,
  // BIGCOUNT in [1], and the lock still held.
  lemma InitialisationSets(s: State, p: nat, id: nat, initval: int)
    requires Inv(s) && p < |s.procs| && Current(s, id) && 0 <= initval <= SEMVMX
    requires s.procs[p].pc == CreateSet0(id, initval)
    ensures Next(s, p).Some? && Next(Next(s, p).value, p).Some?
    ensures var s2 := Next(Next(s, p).value, p).value;
      && Initialised(s2) && s2.set_.value.v == [initval, BIGCOUNT, 1]
      && Account(s2, 0) == initval && Opens(s2) == 0
  {
    var s1 := Next(s, p).value;
    var s2 := Next(s1, p).value;
    Set0Keeps(s, p, id, initval);
    Set1Keeps(s1, p, id, initval);
    LockExclusive(s, p, p);
    ClearTotals(s.procs, 0);
    ClearTotals(s1.procs, 1);
    assert Column(s2.procs, 0) == Column(ClearMember(s.procs, 0), 0);
    OpensAreAdjustments(s2);
  }

  // ---- Who may find the set removed ----

  // Without sem_open, a set about to be removed by sem_close has no user.
  ghost predicate RemovesUnused(s: State) {
    forall p, q :: 0 <= p < |s.procs| && 0 <= q < |s.procs| && s.set_.Some?
                   && s.procs[p].pc == CloseRemove(s.set_.value.id) ==>
                     s.procs[q].held[s.set_.value.id] == 0
  }

  ghost predicate NobodyOpens(s: State) {
    && (forall p :: 0 <= p < |s.procs| ==> !s.procs[p].pc.OpenGet? && !s.procs[p].pc.OpenDec?)
    && (forall p :: 0 <= p < |s.procs| && s.set_.Some? && s.procs[p].pc == CloseRemove(s.set_.value.id) ==>
          Initialised(s) && s.set_.value.v[1] == BIGCOUNT)
  }

  lemma NobodyOpensKept(c: Config, s: State, p: nat, s': State)
    requires !c.usesOpen && Inv(s) && CallsOk(s) && NobodyOpens(s) && Opens(s) < BIGCOUNT && Step(c, s, p, s')
    ensures NobodyOpens(s')
  {
    StepKeeps(c, s, p, s');
    StaysOut(c, s, p, s');
    forall r | 0 <= r < |s'.procs| && s'.set_.Some? && s'.procs[r].pc == CloseRemove(s'.set_.value.id)
      ensures Initialised(s') && s'.set_.value.v[1] == BIGCOUNT
    {
      RemoverKept(c, s, p, s', r);
    }
  }

  lemma StaysOut(c: Config, s: State, p: nat, s': State)
    requires !c.usesOpen && NobodyOpens(s) && Step(c, s, p, s')
    ensures forall r :: 0 <= r < |s'.procs| ==> !s'.procs[r].pc.OpenGet? && !s'.procs[r].pc.OpenDec?
  {
    if Next(s, p) == Some(s') { NextOwn(s, p, s'); NextStaysOut(s, p, s'); }
  }

  lemma NextStaysOut(s: State, p: nat, s': State)
    requires p < |s.procs| && Next(s, p) == Some(s') && !s.procs[p].pc.OpenGet?
    ensures p < |s'.procs| && !s'.procs[p].pc.OpenGet? && !s'.procs[p].pc.OpenDec?
  {
    hide SemOp, Clamp, Apply, OpOp;
  }

  // While one process is about to remove the set, it holds the lock, and nobody
  // else can open or close.
  lemma RemoverKept(c: Config, s: State, p: nat, s': State, r: nat)
    requires !c.usesOpen && Inv(s) && CallsOk(s) && NobodyOpens(s) && Step(c, s, p, s')
    requires r < |s'.procs| && s'.set_.Some? && s'.procs[r].pc == CloseRemove(s'.set_.value.id)
    ensures Initialised(s') && s'.set_.value.v[1] == BIGCOUNT
  {
    if r == p { RemoverEnters(c, s, p, s'); }
    else if Next(s, p) == Some(s') {
      NextOwn(s, p, s');
      RemoverNext(s, p, s', r);
    } else if s' == Exit(s, p) {
      assert ProcOk(s, s.procs[p]);
      ExitKeeps(s, p);
      OpensAreAdjustments(s);
      SumLowerBound(OpenColumn(s), 0);
      assert OpenColumn(s)[p] == 0;
    } else {
      var pc :| MayCall(c, s.procs[p], pc) && s' == Goto(s, p, pc);
      GotoAccount(s, p, pc);
    }
  }

  lemma RemoverEnters(c: Config, s: State, p: nat, s': State)
    requires Inv(s) && Step(c, s, p, s')
    requires p < |s'.procs| && s'.set_.Some? && s'.procs[p].pc == CloseRemove(s'.set_.value.id)
    ensures Initialised(s') && s'.set_.value.v[1] == BIGCOUNT
  {
    assert ProcOk(s, s.procs[p]);
    assert Next(s, p) == Some(s');
    assert s.procs[p].pc.CloseCheck?;
    GotoAccount(s, p, s'.procs[p].pc);
  }

  lemma RemoverNext(s: State, p: nat, s': State, r: nat)
    requires Inv(s) && NobodyOpens(s) && p < |s.procs| && Next(s, p) == Some(s') && r < |s.procs| && r != p
    requires s'.set_.Some? && s.procs[r].pc == CloseRemove(s'.set_.value.id)
    ensures Initialised(s') && s'.set_.value.v[1] == BIGCOUNT
  {
    assert ProcOk(s, s.procs[r]) && ProcOk(s, s.procs[p]);
    var id := s'.set_.value.id;
    assert Current(s, id);
    LockExclusive(s, r, r);
    if Locked(s.procs[p].pc) == Some(id) { LockExclusive(s, p, r); }
    OthersLeaveSet(s, p, s', id);
  }

  lemma OthersLeaveSet(s: State, p: nat, s': State, id: nat)
    requires p < |s.procs| && Next(s, p) == Some(s') && Current(s, id) && s.set_.value.v[2] == 1
    requires Inv(s) && Initialised(s) && s.set_.value.v[1] == BIGCOUNT && Current(s', id)
    requires Locked(s.procs[p].pc) != Some(id) && !s.procs[p].pc.OpenDec?
    ensures Account(s', 1) == Account(s, 1) && s'.set_.value.v[1] == BIGCOUNT
  {
    var q := s.procs[p];
    assert ProcOk(s, q);
    LockEffect(Vals(s.set_.value.v, q.adj));
    CloseEffect(Vals(s.set_.value.v, q.adj));
    OpensAreAdjustments(s);
    SumLowerBound(OpenColumn(s), 0);
    assert OpenColumn(s)[p] == 0;
    if s' == Exit(s, p) { ExitKeeps(s, p); }
    else {
      NextAccount(s, p, s');
      if q.pc.Operate? { OperateEffect(Vals(s.set_.value.v, q.adj), q.pc.amount); }
    }
  }

  lemma {:induction false} NobodyOpensAlways(c: Config, states: seq<State>, who: seq<nat>, i: nat)
    requires !c.usesOpen && Run(c, states, who) && OpensBelow(states, BIGCOUNT) && i < |states|
    ensures NobodyOpens(states[i])
  {
    hide NobodyOpens, Inv, Step;
    if i == 0 {
      InitNobody(states[0]);
    } else {
      NobodyOpensAlways(c, states, who, i - 1);
      Reachable(c, states, who, i - 1);
      assert Step(c, states[i - 1], who[i - 1], states[i]);
      NobodyOpensKept(c, states[i - 1], who[i - 1], states[i]);
    }
  }

  lemma InitNobody(s: State)
    requires Init(s)
    ensures NobodyOpens(s)
  {
  }

  lemma RemovalSafe(c: Config, states: seq<State>, who: seq<nat>, i: nat)
    requires !c.usesOpen && Run(c, states, who) && OpensBelow(states, BIGCOUNT) && i < |states|
    ensures RemovesUnused(states[i])
  {
    NobodyOpensAlways(c, states, who, i);
    Reachable(c, states, who, i);
    var s := states[i];
    if s.set_.Some? && Account(s, 1) == BIGCOUNT && s.set_.value.v[1] == BIGCOUNT {
      OpensAreAdjustments(s);
      SumLowerBound(OpenColumn(s), 0);
      forall q | 0 <= q < |s.procs| ensures s.procs[q].held[s.set_.value.id] == 0 {
        assert OpenColumn(s)[q] == 0;
      }
    }
  }
}
