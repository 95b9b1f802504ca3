/** What every system call and every exit keeps about the semaphore set. */
module SemSetInvariant {
  import opened Prelude
  import opened SemSet

  // ---- Operation arrays ----

  ghost predicate AllUndone(ops: seq<SemBuf>) {
    forall i :: 0 <= i < |ops| ==> ops[i].op == 0 || ops[i].undo
  }

  // When every changing operation has SEM_UNDO, value plus adjustment of the
  // caller is the same before and after, member by member.
  lemma {:induction false} SemOpConserves(x: Vals, ops: seq<SemBuf>, m: nat)
    requires AllUndone(ops) && SemOp(x, ops).Some? && m < 3
    ensures var y := SemOp(x, ops).value; y.v[m] + y.adj[m] == x.v[m] + x.adj[m]
    decreases |ops|
  {
    if ops != [] {
      SemOpConserves(Apply(x, ops[0]).value, ops[1..], m);
    }
  }

  // Values never go below zero.
  lemma {:induction false} SemOpNonNegative(x: Vals, ops: seq<SemBuf>)
    requires SemOp(x, ops).Some? && forall m :: 0 <= m < 3 ==> x.v[m] >= 0
    ensures forall m :: 0 <= m < 3 ==> SemOp(x, ops).value.v[m] >= 0
    decreases |ops|
  {
    if ops != [] {
      SemOpNonNegative(Apply(x, ops[0]).value, ops[1..]);
    }
  }

  lemma SemOp1(x: Vals, a: SemBuf)
    ensures SemOp(x, [a]) == Apply(x, a)
  {
    assert forall y :: SemOp(y, []) == Some(y);
    assert [a][1..] == [];
  }

  lemma SemOp2(x: Vals, a: SemBuf, b: SemBuf)
    ensures SemOp(x, [a, b]) == match Apply(x, a) case None => None case Some(y) => Apply(y, b)
  {
    assert [a, b][1..] == [b];
    if Apply(x, a).Some? { SemOp1(Apply(x, a).value, b); }
  }

  lemma LockEffect(x: Vals)
    ensures SemOp(x, OP_LOCK) ==
            if x.v[2] == 0 then Some(Vals(x.v[2 := 1], x.adj[2 := x.adj[2] - 1])) else None
  {
    SemOp2(x, OP_LOCK[0], OP_LOCK[1]);
  }

  lemma EndCreateEffect(x: Vals)
    ensures SemOp(x, OP_ENDCREATE) ==
            if x.v[1] >= 1 && x.v[2] >= 1 then
              Some(Vals(x.v[1 := x.v[1] - 1][2 := x.v[2] - 1], x.adj[1 := x.adj[1] + 1][2 := x.adj[2] + 1]))
            else None
  {
    hide SemOp;
    var a, b := SemBuf(1, -1, true), SemBuf(2, -1, true);
    assert OP_ENDCREATE == [a, b];
    SemOp2(x, a, b);
    if x.v[1] >= 1 {
      var y := Vals(x.v[1 := x.v[1] - 1], x.adj[1 := x.adj[1] + 1]);
      assert Apply(x, a) == Some(y);
      assert y.v[2] == x.v[2] && y.adj[2] == x.adj[2];
    }
  }

  lemma OpenEffect(x: Vals)
    ensures SemOp(x, OP_OPEN) ==
            if x.v[1] >= 1 then Some(Vals(x.v[1 := x.v[1] - 1], x.adj[1 := x.adj[1] + 1])) else None
  {
    hide SemOp;
    var b := SemBuf(1, -1, true);
    assert OP_OPEN == [b];
    SemOp1(x, b);
  }

  lemma CloseEffect(x: Vals)
    requires x.v[1] >= 0
    ensures SemOp(x, OP_CLOSE) ==
            if x.v[2] == 0 then
              Some(Vals(x.v[2 := 1][1 := x.v[1] + 1], x.adj[2 := x.adj[2] - 1][1 := x.adj[1] - 1]))
            else None
  {
    assert OP_CLOSE[1..] == [OP_CLOSE[1], OP_CLOSE[2]];
    if x.v[2] == 0 { SemOp2(x, OP_CLOSE[1], OP_CLOSE[2]); }
  }

  lemma UnlockEffect(x: Vals)
    ensures SemOp(x, OP_UNLOCK) ==
            if x.v[2] >= 1 then Some(Vals(x.v[2 := x.v[2] - 1], x.adj[2 := x.adj[2] + 1])) else None
  {
    hide SemOp;
    var b := SemBuf(2, -1, true);
    assert OP_UNLOCK == [b];
    SemOp1(x, b);
  }

  lemma OperateEffect(x: Vals, amount: int)
    requires amount != 0
    ensures SemOp(x, OpOp(amount)) ==
            if x.v[0] + amount >= 0 then
              Some(Vals(x.v[0 := x.v[0] + amount], x.adj[0 := x.adj[0] - amount]))
            else None
  {
    hide SemOp;
    var b := SemBuf(0, amount, true);
    SemOp1(x, b);
    assert SemOp(x, OpOp(amount)) == Apply(x, b) by { assert OpOp(amount) == [b]; }
    hide OpOp;
  }

  // ---- The invariant ----

  // The set whose lock a process holds between its lock and unlock calls.
  function Locked(pc: Pc): Option<nat> {
    match pc
    case CreateCheck(id, _) => Some(id)
    case CreateSet0(id, _) => Some(id)
    case CreateSet1(id, _) => Some(id)
    case CreateEnd(id) => Some(id)
    case CloseCheck(id) => Some(id)
    case CloseRemove(id) => Some(id)
    case CloseUnlock(id) => Some(id)
    case _ => None
  }

  // Member [1] has been set: it and the adjustments for it account for BIGCOUNT.
  ghost predicate Initialised(s: State) {
    s.set_.Some? && Account(s, 1) == BIGCOUNT
  }

  ghost predicate ProcOk(s: State, q: Proc) {
    && (forall id :: id in q.held ==> id < s.next)
    && (Locked(q.pc).Some? ==> Locked(q.pc).value < s.next)
    && (q.pc.CreateLock? ==> q.pc.id < s.next)
    && (s.set_.None? ==> q.adj == ZEROS)
    && (s.set_.Some? ==>
          && q.adj[1] == q.held[s.set_.value.id]
          && q.adj[2] == (if Locked(q.pc) == Some(s.set_.value.id) then -1 else 0)
          && (q.pc.CreateSet0? && q.pc.id == s.set_.value.id ==> !Initialised(s))
          && (q.pc.CreateSet1? && q.pc.id == s.set_.value.id ==> !Initialised(s))
          && (q.pc.CreateEnd? && q.pc.id == s.set_.value.id ==> Initialised(s)))
    && !q.pc.Aborted?
  }

  ghost predicate SetOk(s: State) {
    s.set_.Some? ==>
      && s.set_.value.id < s.next
      && (forall m :: 0 <= m < 3 ==> s.set_.value.v[m] >= 0)
      && s.set_.value.v[2] <= 1
      && Account(s, 2) == 0
      && (Account(s, 1) == BIGCOUNT || (Account(s, 1) == 0 && s.set_.value.v[1] == 0))
  }

  ghost predicate Inv(s: State) {
    && SetOk(s)
    && forall p :: 0 <= p < |s.procs| ==> ProcOk(s, s.procs[p])
  }

  // ---- Totals ----

  lemma ColumnUpdate(procs: seq<Proc>, p: nat, q: Proc, m: nat)
    requires p < |procs| && m < 3
    ensures Sum(Column(procs[p := q], m)) == Sum(Column(procs, m)) - procs[p].adj[m] + q.adj[m]
  {
    assert Column(procs[p := q], m) == Column(procs, m)[p := q.adj[m]];
    SumUpdate(Column(procs, m), p, q.adj[m]);
  }

  lemma {:induction false} SumNegate(s: seq<int>)
    ensures Sum(seq(|s|, i requires 0 <= i < |s| => -s[i])) == -Sum(s)
  {
    var n := seq(|s|, i requires 0 <= i < |s| => -s[i]);
    if s != [] {
      SumNegate(s[1..]);
      assert n[1..] == seq(|s[1..]|, i requires 0 <= i < |s[1..]| => -s[1..][i]);
    }
  }

  // The users of the set are exactly the adjustments for member [1].
  lemma OpensAreAdjustments(s: State)
    requires Inv(s) && s.set_.Some?
    ensures OpenColumn(s) == Column(s.procs, 1)
    ensures s.set_.value.v[1] == Account(s, 1) - Opens(s) && Opens(s) >= 0
  {
    SumLowerBound(OpenColumn(s), 0);
  }

  // At most one process is between locking and unlocking the set; [2] is 1 exactly then.
  lemma LockExclusive(s: State, p: nat, q: nat)
    requires Inv(s) && s.set_.Some? && p < |s.procs| && q < |s.procs|
    requires Locked(s.procs[p].pc) == Some(s.set_.value.id) == Locked(s.procs[q].pc)
    ensures p == q && s.set_.value.v[2] == 1
  {
    var c := Column(s.procs, 2);
    var n := seq(|c|, i requires 0 <= i < |c| => -c[i]);
    SumNegate(c);
    SumAtLeastOne(n, p);
    if p < q { SumAtLeastTwo(n, p, q); } else if q < p { SumAtLeastTwo(n, q, p); }
  }

  // With nobody open, member [1] alone carries the account.
  lemma NoOpens(s: State, p: nat)
    requires Inv(s) && s.set_.Some? && Account(s, 1) == 0 && p < |s.procs|
    ensures s.procs[p].held[s.set_.value.id] == 0
  {
    OpensAreAdjustments(s);
    SumLowerBound(OpenColumn(s), 0);
    assert OpenColumn(s)[p] == 0;
  }

  // ---- Every step keeps the invariant ----

  // A call that changes only the program point.
  lemma GotoKeeps(s: State, p: nat, pc: Pc)
    requires Inv(s) && p < |s.procs| && ProcOk(s, s.procs[p].(pc := pc))
    ensures Inv(Goto(s, p, pc))
  {
    var s' := Goto(s, p, pc);
    assert Column(s'.procs, 1) == Column(s.procs, 1) && Column(s'.procs, 2) == Column(s.procs, 2);
    hide Column;
    forall i | 0 <= i < |s'.procs| ensures ProcOk(s', s'.procs[i]) {
      assert ProcOk(s, s.procs[i]);
    }
  }

  // A new or changed set whose accounts of [1] and [2] are as before.
  lemma UpdateKeeps(s: State, p: nat, q: Proc, v: Triple)
    requires Inv(s) && p < |s.procs| && s.set_.Some?
    requires forall m :: 0 <= m < 3 ==> v[m] >= 0
    requires forall m :: 1 <= m < 3 ==> v[m] + q.adj[m] == s.set_.value.v[m] + s.procs[p].adj[m]
    requires v[2] <= 1 && (v[1] != 0 ==> Account(s, 1) == BIGCOUNT)
    requires ProcOk(s, q)
    ensures var s' := s.(set_ := Some(s.set_.value.(v := v)), procs := s.procs[p := q]);
            && Inv(s')
            && Account(s', 1) == Account(s, 1) && Account(s', 2) == Account(s, 2)
  {
    var s' := s.(set_ := Some(s.set_.value.(v := v)), procs := s.procs[p := q]);
    ColumnUpdate(s.procs, p, q, 1);
    ColumnUpdate(s.procs, p, q, 2);
    forall i | 0 <= i < |s'.procs| ensures ProcOk(s', s'.procs[i]) {
      assert ProcOk(s, s.procs[i]);
    }
  }

  lemma ExitKeeps(s: State, p: nat)
    requires Inv(s) && p < |s.procs|
    ensures Inv(Exit(s, p))
    ensures s.set_.Some? ==> Account(Exit(s, p), 1) == Account(s, 1)
    ensures s.set_.Some? && Locked(s.procs[p].pc) == Some(s.set_.value.id) ==>
              Exit(s, p).set_.value.v[2] == 0
  {
    var q := Proc(Exited, ZEROS, multiset{});
    var s' := Exit(s, p);
    assert ProcOk(s, s.procs[p]) && ProcOk(s, q);
    if s.set_.Some? {
      var v, a := s.set_.value.v, s.procs[p].adj;
      if Locked(s.procs[p].pc) == Some(s.set_.value.id) { LockExclusive(s, p, p); }
      ExitCounts(s, p);
      UpdateKeeps(s, p, q, s'.set_.value.v);
    } else {
      forall i | 0 <= i < |s'.procs| ensures ProcOk(s', s'.procs[i]) {
        assert ProcOk(s, s.procs[i]);
      }
    }
  }

  // Before initialisation an exiting process has nothing to add to [1].
  lemma ExitCounts(s: State, p: nat)
    requires Inv(s) && p < |s.procs| && s.set_.Some?
    ensures s.procs[p].adj[1] >= 0 && (Account(s, 1) == 0 ==> s.procs[p].adj[1] == 0)
  {
    assert ProcOk(s, s.procs[p]);
    if Account(s, 1) == 0 { NoOpens(s, p); }
  }

  lemma CreateKeeps(s: State, p: nat, initval: int)
    requires Inv(s) && p < |s.procs| && s.procs[p].pc == CreateGet(initval)
    ensures Inv(Next(s, p).value)
  {
    assert ProcOk(s, s.procs[p]);
    if s.set_.None? {
      var s1 := State(Some(Set(s.next, ZEROS)), s.next + 1, s.procs);
      forall i | 0 <= i < |s.procs| ensures ProcOk(s1, s1.procs[i]) && s.procs[i].adj == ZEROS {
        assert ProcOk(s, s.procs[i]);
      }
      SumZero(Column(s.procs, 1));
      SumZero(Column(s.procs, 2));
      GotoKeeps(s1, p, CreateLock(s.next, initval));
    } else {
      GotoKeeps(s, p, CreateLock(s.set_.value.id, initval));
    }
  }

  lemma RemoveKeeps(s: State, p: nat)
    requires Inv(s) && p < |s.procs|
    ensures Inv(RemoveSet(s, p, Running))
  {
    var s1 := s.(set_ := None, procs := ClearAll(s.procs));
    forall i | 0 <= i < |s1.procs| ensures ProcOk(s1, s1.procs[i]) {
      assert ProcOk(s, s.procs[i]);
    }
    GotoKeeps(s1, p, Running);
  }

  // Setting a member clears its adjustments; the other members' totals stand.
  lemma ClearTotals(procs: seq<Proc>, m: nat)
    requires m < 3
    ensures Sum(Column(ClearMember(procs, m), m)) == 0
    ensures forall j :: 0 <= j < 3 && j != m ==> Column(ClearMember(procs, m), j) == Column(procs, j)
  {
    SumZero(Column(ClearMember(procs, m), m));
  }

  lemma Set0Keeps(s: State, p: nat, id: nat, initval: int)
    requires Inv(s) && p < |s.procs| && s.procs[p].pc == CreateSet0(id, initval) && Current(s, id)
    requires initval >= 0
    ensures Inv(SetVal(s, p, 0, initval, CreateSet1(id, initval)))
  {
    ClearTotals(s.procs, 0);
    var s1 := s.(set_ := Some(s.set_.value.(v := s.set_.value.v[0 := initval])), procs := ClearMember(s.procs, 0));
    assert Account(s1, 1) == Account(s, 1) && Account(s1, 2) == Account(s, 2);
    forall i | 0 <= i < |s1.procs| ensures ProcOk(s1, s1.procs[i]) {
      assert ProcOk(s, s.procs[i]);
    }
    assert ProcOk(s1, s1.procs[p]);
    GotoKeeps(s1, p, CreateSet1(id, initval));
  }

  lemma Set1Keeps(s: State, p: nat, id: nat, initval: int)
    requires Inv(s) && p < |s.procs| && s.procs[p].pc == CreateSet1(id, initval) && Current(s, id)
    ensures Inv(SetVal(s, p, 1, BIGCOUNT, CreateEnd(id)))
    ensures Account(SetVal(s, p, 1, BIGCOUNT, CreateEnd(id)), 1) == BIGCOUNT
  {
    var s' := SetVal(s, p, 1, BIGCOUNT, CreateEnd(id));
    ClearTotals(s.procs, 1);
    assert ProcOk(s, s.procs[p]);
    assert Column(s'.procs, 1) == Column(ClearMember(s.procs, 1), 1);
    assert Column(s'.procs, 2) == Column(ClearMember(s.procs, 1), 2);
    forall i | 0 <= i < |s'.procs| ensures ProcOk(s', s'.procs[i]) {
      assert ProcOk(s, s.procs[i]);
      NoOpens(s, i);
      if i != p && Locked(s.procs[i].pc) == Some(id) { LockExclusive(s, i, p); }
    }
  }

  // The check in sem_create is right as long as fewer than BIGCOUNT opens are
  // outstanding, and wrong when [1] has been counted down to zero.
  lemma CheckDecides(s: State)
    requires Inv(s) && s.set_.Some?
    ensures (s.set_.value.v[1] == 0 <==> !Initialised(s)) <==> (!Initialised(s) || Opens(s) < BIGCOUNT)
  {
    OpensAreAdjustments(s);
  }

  lemma LockedKeeps(s: State, p: nat, s': State)
    requires Inv(s) && p < |s.procs| && Opens(s) < BIGCOUNT && Next(s, p) == Some(s')
    requires var pc := s.procs[p].pc;
             pc.CreateCheck? || pc.CreateSet0? || pc.CreateSet1? || pc.CreateEnd? || pc.CreateLock?
    ensures Inv(s')
  {
    hide Inv, SemOp, Opens;
    match s.procs[p].pc
    case CreateLock(_, _) => LockingKeeps(s, p, s');
    case CreateEnd(_) => EndingKeeps(s, p, s');
    case _ => SettingKeeps(s, p, s');
  }

  lemma LockingKeeps(s: State, p: nat, s': State)
    requires Inv(s) && p < |s.procs| && Next(s, p) == Some(s') && s.procs[p].pc.CreateLock?
    ensures Inv(s')
  {
    hide SemOp;
    var q := s.procs[p];
    assert ProcOk(s, q);
    var CreateLock(id, initval) := q.pc;
    if Current(s, id) {
      LockEffect(Vals(s.set_.value.v, q.adj));
      var y := SemOp(Vals(s.set_.value.v, q.adj), OP_LOCK).value;
      UpdateKeeps(s, p, Proc(CreateCheck(id, initval), y.adj, q.held), y.v);
    } else {
      GotoKeeps(s, p, CreateGet(initval));
    }
  }

  lemma SettingKeeps(s: State, p: nat, s': State)
    requires Inv(s) && p < |s.procs| && Opens(s) < BIGCOUNT && Next(s, p) == Some(s')
    requires s.procs[p].pc.CreateCheck? || s.procs[p].pc.CreateSet0? || s.procs[p].pc.CreateSet1?
    ensures Inv(s')
  {
    hide SemOp, Account, SetOk;
    assert ProcOk(s, s.procs[p]);
    match s.procs[p].pc
    case CreateCheck(id, initval) =>
      if Current(s, id) {
        CheckDecides(s);
        GotoKeeps(s, p, if s.set_.value.v[1] == 0 then CreateSet0(id, initval) else CreateEnd(id));
      } else { ExitKeeps(s, p); }
    case CreateSet0(id, initval) =>
      if Current(s, id) && 0 <= initval <= SEMVMX { Set0Keeps(s, p, id, initval); } else { ExitKeeps(s, p); }
    case CreateSet1(id, initval) =>
      if Current(s, id) { Set1Keeps(s, p, id, initval); } else { ExitKeeps(s, p); }
  }

  lemma EndingKeeps(s: State, p: nat, s': State)
    requires Inv(s) && p < |s.procs| && Next(s, p) == Some(s') && s.procs[p].pc.CreateEnd?
    ensures Inv(s')
  {
    hide SemOp;
    var q := s.procs[p];
    assert ProcOk(s, q);
    var CreateEnd(id) := q.pc;
    if Current(s, id) {
      EndCreateEffect(Vals(s.set_.value.v, q.adj));
      var y := SemOp(Vals(s.set_.value.v, q.adj), OP_ENDCREATE).value;
      LockExclusive(s, p, p);
      UpdateKeeps(s, p, Proc(Running, y.adj, q.held + multiset{id}), y.v);
    } else {
      ExitKeeps(s, p);
    }
  }

  lemma OpenKeeps(s: State, p: nat, s': State)
    requires Inv(s) && p < |s.procs| && Next(s, p) == Some(s')
    requires s.procs[p].pc.OpenGet? || s.procs[p].pc.OpenDec?
    ensures Inv(s')
  {
    var q := s.procs[p];
    assert ProcOk(s, q);
    match q.pc
    case OpenGet => GotoKeeps(s, p, if s.set_.Some? then OpenDec(s.set_.value.id) else Running);
    case OpenDec(id) =>
      if Current(s, id) {
        OpenEffect(Vals(s.set_.value.v, q.adj));
        var y := SemOp(Vals(s.set_.value.v, q.adj), OP_OPEN).value;
        UpdateKeeps(s, p, Proc(Running, y.adj, q.held + multiset{id}), y.v);
      } else { ExitKeeps(s, p); }
  }

  // The abort in sem_close needs [1] above BIGCOUNT, which the account rules out.
  lemma CloseKeeps(s: State, p: nat, s': State)
    requires Inv(s) && p < |s.procs| && Next(s, p) == Some(s')
    requires var pc := s.procs[p].pc; pc.CloseCheck? || pc.CloseRemove? || pc.CloseUnlock?
    ensures Inv(s') && !s'.procs[p].pc.Aborted?
  {
    var q := s.procs[p];
    assert ProcOk(s, q);
    match q.pc
    case CloseCheck(id) =>
      if Current(s, id) {
        OpensAreAdjustments(s);
        GotoKeeps(s, p, if s.set_.value.v[1] == BIGCOUNT then CloseRemove(id) else CloseUnlock(id));
      } else { ExitKeeps(s, p); }
    case CloseRemove(id) => if Current(s, id) { RemoveKeeps(s, p); } else { ExitKeeps(s, p); }
    case CloseUnlock(id) =>
      if Current(s, id) {
        UnlockEffect(Vals(s.set_.value.v, q.adj));
        LockExclusive(s, p, p);
        var y := SemOp(Vals(s.set_.value.v, q.adj), OP_UNLOCK).value;
        UpdateKeeps(s, p, Proc(Running, y.adj, q.held), y.v);
      } else { ExitKeeps(s, p); }
  }

  lemma CloseLockKeeps(s: State, p: nat, s': State)
    requires Inv(s) && p < |s.procs| && Next(s, p) == Some(s')
    requires s.procs[p].pc.CloseLock? && s.procs[p].pc.id in s.procs[p].held
    ensures Inv(s')
  {
    var q, id := s.procs[p], s.procs[p].pc.id;
    assert ProcOk(s, q);
    if Current(s, id) {
      CloseEffect(Vals(s.set_.value.v, q.adj));
      ExitCounts(s, p);
      var y := SemOp(Vals(s.set_.value.v, q.adj), OP_CLOSE).value;
      UpdateKeeps(s, p, Proc(CloseCheck(id), y.adj, q.held - multiset{id}), y.v);
    } else { ExitKeeps(s, p); }
  }

  lemma OperateKeeps(s: State, p: nat, s': State)
    requires Inv(s) && p < |s.procs| && Next(s, p) == Some(s')
    requires s.procs[p].pc.Operate? || s.procs[p].pc.Remove?
    ensures Inv(s')
  {
    var q := s.procs[p];
    assert ProcOk(s, q);
    match q.pc
    case Operate(id, amount) =>
      if Current(s, id) && amount != 0 {
        OperateEffect(Vals(s.set_.value.v, q.adj), amount);
        var y := SemOp(Vals(s.set_.value.v, q.adj), OpOp(amount)).value;
        UpdateKeeps(s, p, Proc(Running, y.adj, q.held), y.v);
      } else { ExitKeeps(s, p); }
    case Remove(id) => if Current(s, id) { RemoveKeeps(s, p); } else { ExitKeeps(s, p); }
  }

  // A process between calling sem_close and its first system call still has the set open.
  ghost predicate CallsOk(s: State) {
    forall p :: 0 <= p < |s.procs| && s.procs[p].pc.CloseLock? ==> s.procs[p].pc.id in s.procs[p].held
  }

  lemma NextKeeps(s: State, p: nat, s': State)
    requires Inv(s) && CallsOk(s) && p < |s.procs| && Opens(s) < BIGCOUNT && Next(s, p) == Some(s')
    ensures Inv(s')
  {
    hide Inv, CallsOk;
    match s.procs[p].pc
    case CreateGet(initval) => CreateKeeps(s, p, initval);
    case OpenGet => OpenKeeps(s, p, s');
    case OpenDec(_) => OpenKeeps(s, p, s');
    case CloseLock(id) =>
      assert id in s.procs[p].held by { CallsOkAt(s, p); }
      CloseLockKeeps(s, p, s');
    case CloseCheck(_) => CloseKeeps(s, p, s');
    case CloseRemove(_) => CloseKeeps(s, p, s');
    case CloseUnlock(_) => CloseKeeps(s, p, s');
    case Operate(_, _) => OperateKeeps(s, p, s');
    case Remove(_) => OperateKeeps(s, p, s');
    case _ => LockedKeeps(s, p, s');
  }

  lemma CallsOkAt(s: State, p: nat)
    requires CallsOk(s) && p < |s.procs| && s.procs[p].pc.CloseLock?
    ensures s.procs[p].pc.id in s.procs[p].held
  {
  }

  // Only its own steps change the program point and the opens of a process.
  lemma NextOwn(s: State, p: nat, s': State)
    requires p < |s.procs| && Next(s, p) == Some(s')
    ensures |s'.procs| == |s.procs| && !s'.procs[p].pc.CloseLock?
    ensures forall i :: 0 <= i < |s.procs| && i != p ==>
              s'.procs[i].pc == s.procs[i].pc && s'.procs[i].held == s.procs[i].held
  {
    hide SemOp, Apply, OpOp, Clamp;
    match s.procs[p].pc
    case CreateGet(_) =>
    case CreateLock(_, _) =>
    case CreateCheck(_, _) =>
    case CreateSet0(_, _) =>
    case CreateSet1(_, _) =>
    case CreateEnd(_) =>
    case _ => NextOwnRest(s, p, s');
  }

  lemma NextOwnRest(s: State, p: nat, s': State)
    requires p < |s.procs| && Next(s, p) == Some(s')
    requires var pc := s.procs[p].pc;
             && !pc.CreateGet? && !pc.CreateLock? && !pc.CreateCheck?
             && !pc.CreateSet0? && !pc.CreateSet1? && !pc.CreateEnd?
    ensures |s'.procs| == |s.procs| && !s'.procs[p].pc.CloseLock?
    ensures forall i :: 0 <= i < |s.procs| && i != p ==>
              s'.procs[i].pc == s.procs[i].pc && s'.procs[i].held == s.procs[i].held
  {
    hide SemOp, Apply, OpOp, Clamp;
  }

  lemma StepKeeps(c: Config, s: State, p: nat, s': State)
    requires Inv(s) && CallsOk(s) && Opens(s) < BIGCOUNT && Step(c, s, p, s')
    ensures Inv(s') && CallsOk(s')
  {
    hide Inv;
    if Next(s, p) == Some(s') {
      NextKeeps(s, p, s');
      NextOwn(s, p, s');
    } else if s.procs[p].pc == Running && exists pc :: MayCall(c, s.procs[p], pc) && s' == Goto(s, p, pc) {
      var pc :| MayCall(c, s.procs[p], pc) && s' == Goto(s, p, pc);
      CallKeeps(c, s, p, pc);
    } else {
      ExitKeeps(s, p);
    }
  }

  lemma CallKeeps(c: Config, s: State, p: nat, pc: Pc)
    requires Inv(s) && p < |s.procs| && s.procs[p].pc == Running && MayCall(c, s.procs[p], pc)
    ensures Inv(Goto(s, p, pc))
  {
    assert ProcOk(s, s.procs[p]);
    GotoKeeps(s, p, pc);
  }

  lemma {:induction false} Reachable(c: Config, states: seq<State>, who: seq<nat>, i: nat)
    requires Run(c, states, who) && OpensBelow(states, BIGCOUNT) && i < |states|
    ensures Inv(states[i]) && CallsOk(states[i])
  {
    hide Inv, Step;
    if i == 0 {
      InitInv(states[0]);
    } else {
      Reachable(c, states, who, i - 1);
      assert Step(c, states[i - 1], who[i - 1], states[i]);
      StepKeeps(c, states[i - 1], who[i - 1], states[i]);
    }
  }

  lemma InitInv(s: State)
    requires Init(s)
    ensures Inv(s) && CallsOk(s)
  {
  }
}
