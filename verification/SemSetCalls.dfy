/** What each call of the semaphore wrapper does from its first system call to its
    return, with other processes in between; what a call waits for; and a
    sem_create that can always be brought to its end. */
module SemSetCalls {
  import opened Prelude
  import opened SemSet
  import opened SemSetInvariant
  import opened SemSetTheorems
  import opened SemSetWitness

  // ---- A process between its own steps ----

  // Inside a call, a step of the process that does not end it is its next system call.
  lemma OwnStep(c: Config, s: State, p: nat, s': State)
    requires Step(c, s, p, s') && s.procs[p].pc != Running && p < |s'.procs| && s'.procs[p].pc != Exited
    ensures Next(s, p) == Some(s')
  {
    hide Next;
  }

  lemma NotExited(c: Config, s: State, p: nat, s': State)
    requires Step(c, s, p, s')
    ensures s.procs[p].pc != Exited && |s'.procs| == |s.procs|
  {
    if Next(s, p) == Some(s') { NextOwn(s, p, s'); }
  }

  lemma OthersStay(c: Config, s: State, r: nat, s': State, p: nat)
    requires Step(c, s, r, s') && p < |s.procs| && p != r
    ensures |s'.procs| == |s.procs| && s'.procs[p].pc == s.procs[p].pc && s'.procs[p].held == s.procs[p].held
  {
    if Next(s, r) == Some(s') { NextOwn(s, r, s'); }
  }

  // While only others move, a process stays where it is with the sets it has open.
  lemma {:induction false} Stays(c: Config, states: seq<State>, who: seq<nat>, i: nat, j: nat, p: nat)
    requires Run(c, states, who) && i <= j <= |who| && p < |states[i].procs|
    requires forall k :: i <= k < j ==> who[k] != p
    ensures |states[j].procs| == |states[i].procs|
    ensures states[j].procs[p].pc == states[i].procs[p].pc && states[j].procs[p].held == states[i].procs[p].held
    decreases j
  {
    hide Step, Init;
    if i < j {
      Stays(c, states, who, i, j - 1, p);
      assert Step(c, states[j - 1], who[j - 1], states[j]);
      OthersStay(c, states[j - 1], who[j - 1], states[j], p);
    }
  }

  // ---- sem_close ----

  // An initialised set stays initialised as long as it exists.
  lemma InitialisedStays(c: Config, s: State, p: nat, s': State)
    requires Inv(s) && CallsOk(s) && Step(c, s, p, s') && Initialised(s)
    requires s'.set_.Some? && s'.set_.value.id == s.set_.value.id
    ensures Initialised(s')
  {
    hide Next;
    if s' == Exit(s, p) {
      ExitKeeps(s, p);
    } else if Next(s, p) == Some(s') {
      NextAccount(s, p, s');
    } else {
      var pc :| MayCall(c, s.procs[p], pc) && s' == Goto(s, p, pc);
      GotoAccount(s, p, pc);
    }
  }

  predicate Closing(pc: Pc) {
    pc.CloseCheck? || pc.CloseRemove? || pc.CloseUnlock?
  }

  // The set a process is closing has been initialised.
  ghost predicate ClosesInitialised(s: State) {
    forall p :: 0 <= p < |s.procs| && Closing(s.procs[p].pc) && Current(s, s.procs[p].pc.id) ==> Initialised(s)
  }

  // A set that is the current one after a step was so before, or is new.
  lemma NoReturn(c: Config, s: State, p: nat, s': State, id: nat)
    requires Step(c, s, p, s') && Current(s', id) && id < s.next
    ensures Current(s, id)
  {
    hide SemOp, Apply, OpOp, Clamp;
  }

  // Closing starts with the set open, so it is initialised.
  lemma CloseStarts(s: State, p: nat, s': State)
    requires Inv(s) && CallsOk(s) && p < |s.procs| && Next(s, p) == Some(s') && s.procs[p].pc.CloseLock?
    requires p < |s'.procs| && s'.procs[p].pc != Exited
    ensures var id := s.procs[p].pc.id;
      && Current(s, id) && Current(s', id) && Initialised(s) && s.set_.value.v[2] == 0
      && s'.set_.value.v == [s.set_.value.v[0], s.set_.value.v[1] + 1, 1]
      && s'.procs[p].pc == CloseCheck(id) && s'.procs[p].held == s.procs[p].held - multiset{id}
  {
    hide SemOp, Account;
    var q := s.procs[p];
    CallsOkAt(s, p);
    CloseEffect(Vals(s.set_.value.v, q.adj));
    if !Initialised(s) { NoOpens(s, p); }
  }

  lemma ClosesInitialisedKept(c: Config, s: State, p: nat, s': State)
    requires Inv(s) && CallsOk(s) && ClosesInitialised(s) && Step(c, s, p, s')
    ensures ClosesInitialised(s')
  {
    hide Next, CallsOk;
    NotExited(c, s, p, s');
    forall r | 0 <= r < |s'.procs| && Closing(s'.procs[r].pc) && Current(s', s'.procs[r].pc.id)
      ensures Initialised(s')
    {
      if r != p { OthersStay(c, s, p, s', r); }
      else { ClosingOwn(c, s, p, s'); }
      assert ProcOk(s, s.procs[r]);
      NoReturn(c, s, p, s', s'.set_.value.id);
      InitialisedStays(c, s, p, s');
    }
  }

  // Where a closing process comes from.
  lemma ClosingOwn(c: Config, s: State, p: nat, s': State)
    requires Inv(s) && CallsOk(s) && Step(c, s, p, s') && p < |s'.procs| && Closing(s'.procs[p].pc)
    ensures var id := s'.procs[p].pc.id;
      && (s.procs[p].pc == CloseLock(id) ==> Initialised(s))
      && (s.procs[p].pc == CloseLock(id) || s.procs[p].pc == CloseCheck(id))
      && id < s.next
  {
    hide SemOp, Apply, OpOp, Clamp, Account;
    assert s.procs[p].pc != Running;
    OwnStep(c, s, p, s');
    assert ProcOk(s, s.procs[p]);
    if s.procs[p].pc.CloseLock? { CloseStarts(s, p, s'); }
  }

  lemma {:induction false} ClosesInitialisedAlways(c: Config, states: seq<State>, who: seq<nat>, i: nat)
    requires Run(c, states, who) && OpensBelow(states, BIGCOUNT) && i < |states|
    ensures ClosesInitialised(states[i])
  {
    hide Inv, Step, Opens, CallsOk, Initialised;
    if i > 0 {
      ClosesInitialisedAlways(c, states, who, i - 1);
      Reachable(c, states, who, i - 1);
      assert Step(c, states[i - 1], who[i - 1], states[i]);
      ClosesInitialisedKept(c, states[i - 1], who[i - 1], states[i]);
    }
  }

  // The check finds BIGCOUNT exactly when nobody has the set open any more, and never more.
  lemma CheckSees(s: State, p: nat, s': State)
    requires Inv(s) && ClosesInitialised(s) && p < |s.procs| && s.procs[p].pc.CloseCheck? && Next(s, p) == Some(s')
    requires p < |s'.procs| && s'.procs[p].pc != Exited
    ensures var id := s.procs[p].pc.id;
      && Current(s, id) && s.set_.value.v[1] <= BIGCOUNT
      && (s.set_.value.v[1] == BIGCOUNT <==> forall q :: 0 <= q < |s.procs| ==> s.procs[q].held[id] == 0)
      && s'.procs[p].held == s.procs[p].held
      && s'.procs[p].pc == if s.set_.value.v[1] == BIGCOUNT then CloseRemove(id) else CloseUnlock(id)
  {
    hide SemOp;
    var id := s.procs[p].pc.id;
    assert Current(s, id);
    OpensAreAdjustments(s);
    var col := OpenColumn(s);
    SumLowerBound(col, 0);
    if forall q :: 0 <= q < |s.procs| ==> s.procs[q].held[id] == 0 { SumZero(col); }
    forall q | 0 <= q < |s.procs| ensures s.procs[q].held[id] == col[q] { }
  }

  lemma CloseFinishes(s: State, p: nat, s': State)
    requires Inv(s) && p < |s.procs| && (s.procs[p].pc.CloseRemove? || s.procs[p].pc.CloseUnlock?)
    requires Next(s, p) == Some(s') && p < |s'.procs| && s'.procs[p].pc != Exited
    ensures var id := s.procs[p].pc.id;
      && Current(s, id) && s'.procs[p].pc == Running && s'.procs[p].held == s.procs[p].held
      && (s.procs[p].pc.CloseRemove? ==>
            s'.set_ == None && forall q :: 0 <= q < |s'.procs| ==> s'.procs[q].adj == ZEROS)
      && (s.procs[p].pc.CloseUnlock? ==>
            s'.set_ == Some(Set(id, [s.set_.value.v[0], s.set_.value.v[1], 0])))
  {
    hide SemOp;
    if Current(s, s.procs[p].pc.id) {
      LockExclusive(s, p, p);
      UnlockEffect(Vals(s.set_.value.v, s.procs[p].adj));
      var v := s.set_.value.v;
      assert v[2 := v[2] - 1] == [v[0], v[1], 0];
    }
  }

  // A sem_close that returns has taken three steps. At the first it waited for the lock,
  // took it and counted itself out. If at the second nobody had the set open, it ends
  // with the set gone and every adjustment for it cleared; else the set stays, unlocked.
  lemma CloseEnds(c: Config, states: seq<State>, who: seq<nat>, h: nat, i: nat, j: nat, p: nat, id: nat)
    requires Run(c, states, who) && OpensBelow(states, BIGCOUNT) && h < i < j < |who|
    requires who[h] == p && who[i] == p && who[j] == p && forall k :: h < k < j && k != i ==> who[k] != p
    requires p < |states[h].procs| && states[h].procs[p].pc == CloseLock(id)
    requires p < |states[j + 1].procs| && states[j + 1].procs[p].pc != Exited
    ensures var called, locked := states[h], states[h + 1];
      && Current(called, id) && called.set_.value.v[2] == 0
      && locked.set_ == Some(Set(id, [called.set_.value.v[0], called.set_.value.v[1] + 1, 1]))
    ensures var check, last, done := states[i], states[j], states[j + 1];
      && Current(check, id) && Current(last, id) && check.set_.value.v[1] <= BIGCOUNT
      && (if forall q :: 0 <= q < |check.procs| ==> check.procs[q].held[id] == 0 then
            && check.set_.value.v[1] == BIGCOUNT
            && done.set_ == None && forall q :: 0 <= q < |done.procs| ==> done.procs[q].adj == ZEROS
          else
            && check.set_.value.v[1] < BIGCOUNT
            && done.set_ == Some(Set(id, [last.set_.value.v[0], last.set_.value.v[1], 0])))
      && done.procs[p].pc == Running && p < |states[h].procs|
      && done.procs[p].held == states[h].procs[p].held - multiset{id}
  {
    hide Step, Init, Next, Inv, CallsOk, Opens, ClosesInitialised;
    assert Step(c, states[h], p, states[h + 1]) && Step(c, states[i], p, states[i + 1]);
    assert Step(c, states[j], p, states[j + 1]);
    Reachable(c, states, who, h);
    Reachable(c, states, who, i);
    Reachable(c, states, who, j);
    NotExited(c, states[h], p, states[h + 1]);
    NotExited(c, states[i], p, states[i + 1]);
    NotExited(c, states[j], p, states[j + 1]);
    Stays(c, states, who, h + 1, i, p);
    OwnStep(c, states[h], p, states[h + 1]);
    CloseStarts(states[h], p, states[h + 1]);
    Stays(c, states, who, i + 1, j, p);
    ClosesInitialisedAlways(c, states, who, i);
    OwnStep(c, states[i], p, states[i + 1]);
    CheckSees(states[i], p, states[i + 1]);
    OwnStep(c, states[j], p, states[j + 1]);
    CloseFinishes(states[j], p, states[j + 1]);
  }

  // ---- The other calls ----

  // sem_rm removes the set whoever uses it: with it go all adjustments, and nothing else.
  lemma RmEnds(c: Config, s: State, p: nat, s': State)
    requires Step(c, s, p, s') && s.procs[p].pc.Remove? && p < |s'.procs| && s'.procs[p].pc != Exited
    ensures Current(s, s.procs[p].pc.id) && s'.set_ == None && s'.next == s.next && |s'.procs| == |s.procs|
    ensures forall q :: 0 <= q < |s.procs| ==>
              s'.procs[q] == Proc(if q == p then Running else s.procs[q].pc, ZEROS, s.procs[q].held)
  {
  }

  // sem_open returns with the set counted in, or has found no set and changed nothing.
  lemma OpenEnds(c: Config, s: State, p: nat, s': State)
    requires Step(c, s, p, s') && (s.procs[p].pc.OpenGet? || s.procs[p].pc.OpenDec?)
    requires p < |s'.procs| && s'.procs[p].pc == Running
    ensures var q := s.procs[p];
      if q.pc.OpenGet? then s.set_ == None && s' == Goto(s, p, Running)
      else
        && Current(s, q.pc.id) && s.set_.value.v[1] >= 1
        && s'.set_ == Some(Set(q.pc.id, [s.set_.value.v[0], s.set_.value.v[1] - 1, s.set_.value.v[2]]))
        && s'.procs[p].held == q.held + multiset{q.pc.id}
  {
    hide SemOp;
    OwnStep(c, s, p, s');
    if s.procs[p].pc.OpenDec? && s.set_.Some? {
      var v := s.set_.value.v;
      OpenEffect(Vals(v, s.procs[p].adj));
      assert v[1 := v[1] - 1] == [v[0], v[1] - 1, v[2]];
    }
  }

  // sem_create returns with the set initialised, counted in and unlocked.
  lemma CreateEnds(c: Config, s: State, p: nat, s': State)
    requires Inv(s) && CallsOk(s) && Step(c, s, p, s') && s.procs[p].pc.CreateEnd?
    requires p < |s'.procs| && s'.procs[p].pc != Exited
    ensures var q := s.procs[p];
      && Current(s, q.pc.id) && Initialised(s') && s.set_.value.v[1] >= 1
      && s'.set_ == Some(Set(q.pc.id, [s.set_.value.v[0], s.set_.value.v[1] - 1, 0]))
      && s'.procs[p].pc == Running && s'.procs[p].held == q.held + multiset{q.pc.id}
  {
    hide SemOp;
    OwnStep(c, s, p, s');
    assert ProcOk(s, s.procs[p]);
    LockExclusive(s, p, p);
    var v := s.set_.value.v;
    EndCreateEffect(Vals(v, s.procs[p].adj));
    assert v[1 := v[1] - 1][2 := v[2] - 1] == [v[0], v[1] - 1, 0];
    InitialisedStays(c, s, p, s');
  }

  // sem_op returns with the amount added to [0] and taken from what an exit would undo.
  lemma OperateEnds(c: Config, s: State, p: nat, s': State)
    requires Step(c, s, p, s') && s.procs[p].pc.Operate? && p < |s'.procs| && s'.procs[p].pc != Exited
    ensures var Operate(id, amount) := s.procs[p].pc;
      && Current(s, id) && amount != 0 && s.set_.value.v[0] + amount >= 0
      && s'.set_ == Some(Set(id, [s.set_.value.v[0] + amount, s.set_.value.v[1], s.set_.value.v[2]]))
      && s'.procs[p].pc == Running
      && s'.procs[p].adj[0] == s.procs[p].adj[0] - amount && s'.procs[p].held == s.procs[p].held
  {
    hide SemOp;
    OwnStep(c, s, p, s');
    var v, amount := s.set_.value.v, s.procs[p].pc.amount;
    OperateEffect(Vals(v, s.procs[p].adj), amount);
    assert v[0 := v[0] + amount] == [v[0] + amount, v[1], v[2]];
  }

  // ---- What a call waits for ----

  predicate InCall(pc: Pc) {
    pc != Running && pc != Aborted && pc != Exited
  }

  // A call waits only for the lock, for room in the count of users, or for the value.
  lemma WaitsIff(s: State, p: nat)
    requires Inv(s) && Opens(s) < BIGCOUNT && p < |s.procs| && InCall(s.procs[p].pc)
    ensures Next(s, p).None? <==>
            match s.procs[p].pc
            case CreateLock(id, _) => Current(s, id) && s.set_.value.v[2] == 1
            case CloseLock(id) => Current(s, id) && s.set_.value.v[2] == 1
            case OpenDec(id) => Current(s, id) && s.set_.value.v[1] == 0
            case Operate(id, amount) => Current(s, id) && amount != 0 && s.set_.value.v[0] + amount < 0
            case _ => false
  {
    hide SemOp, Exit;
    assert ProcOk(s, s.procs[p]);
    if s.set_.Some? {
      var x := Vals(s.set_.value.v, s.procs[p].adj);
      LockEffect(x);
      CloseEffect(x);
      OpenEffect(x);
      EndCreateEffect(x);
      UnlockEffect(x);
      if s.procs[p].pc.Operate? && s.procs[p].pc.amount != 0 { OperateEffect(x, s.procs[p].pc.amount); }
      if Locked(s.procs[p].pc) == Some(s.set_.value.id) { LockExclusive(s, p, p); }
      OpensAreAdjustments(s);
    }
  }

  // The lock is taken by a process that can go on.
  lemma LockHolderMoves(s: State) returns (q: nat)
    requires Inv(s) && Opens(s) < BIGCOUNT && s.set_.Some? && s.set_.value.v[2] == 1
    ensures q < |s.procs| && Locked(s.procs[q].pc) == Some(s.set_.value.id) && Next(s, q).Some?
  {
    var col := Column(s.procs, 2);
    if forall i :: 0 <= i < |col| ==> col[i] == 0 {
      SumZero(col);
      assert false;
    }
    q :| 0 <= q < |col| && col[q] != 0;
    assert ProcOk(s, s.procs[q]);
    WaitsIff(s, q);
  }

  // ---- Initialisation, with others in between ----

  // Operations are called on sets the caller has open.
  ghost predicate OperatesOpen(s: State) {
    forall p :: 0 <= p < |s.procs| && s.procs[p].pc.Operate? ==> s.procs[p].pc.id in s.procs[p].held
  }

  // Between the two SETVAL calls [0] is what the caller asked for, and no exit would change it.
  ghost predicate HalfSet(s: State, p: nat)
    requires p < |s.procs|
  {
    s.procs[p].pc.CreateSet1? && Current(s, s.procs[p].pc.id) ==>
      && s.set_.value.v[0] == s.procs[p].pc.initval
      && forall q :: 0 <= q < |s.procs| ==> s.procs[q].adj[0] == 0
  }

  ghost predicate SetsAlone(s: State) {
    OperatesOpen(s) && forall p :: 0 <= p < |s.procs| ==> HalfSet(s, p)
  }

  lemma OperatesOpenKept(c: Config, s: State, p: nat, s': State)
    requires OperatesOpen(s) && Step(c, s, p, s')
    ensures OperatesOpen(s')
  {
    NotExited(c, s, p, s');
    forall r | 0 <= r < |s'.procs| && s'.procs[r].pc.Operate? ensures s'.procs[r].pc.id in s'.procs[r].held {
      if r != p { OthersStay(c, s, p, s', r); }
      else if Next(s, p) == Some(s') { NextIsNoCall(s, p, s'); }
    }
  }

  lemma NextIsNoCall(s: State, p: nat, s': State)
    requires p < |s.procs| && Next(s, p) == Some(s')
    ensures p < |s'.procs| && !s'.procs[p].pc.Operate?
  {
    hide SemOp, Apply, OpOp, Clamp;
  }

  // While p is between the two calls, nobody else can do anything to the set but remove it.
  lemma OthersWait(c: Config, s: State, r: nat, s': State, p: nat)
    requires Inv(s) && CallsOk(s) && OperatesOpen(s) && Step(c, s, r, s') && p < |s.procs| && p != r
    requires s.procs[p].pc.CreateSet1? && Current(s, s.procs[p].pc.id) && HalfSet(s, p)
    requires s'.set_.Some?
    ensures s'.set_ == s.set_ && |s'.procs| == |s.procs|
    ensures forall q :: 0 <= q < |s.procs| ==> s'.procs[q].adj[0] == 0
  {
    var id := s.set_.value.id;
    assert ProcOk(s, s.procs[p]) && ProcOk(s, s.procs[r]);
    LockExclusive(s, p, p);
    NoOpens(s, r);
    if Locked(s.procs[r].pc) == Some(id) { LockExclusive(s, p, r); }
    if s' == Exit(s, r) {
      assert s.set_.value.v == [Clamp(s.set_.value.v[0]), Clamp(s.set_.value.v[1]), s.set_.value.v[2]];
    } else if Next(s, r) == Some(s') {
      OtherNextWaits(s, r, s');
    }
  }

  lemma OtherNextWaits(s: State, r: nat, s': State)
    requires r < |s.procs| && Next(s, r) == Some(s') && s' != Exit(s, r) && s.set_.Some? && s'.set_.Some?
    requires s.set_.value.v[1] == 0 && s.set_.value.v[2] == 1 && s.set_.value.id !in s.procs[r].held
    requires Locked(s.procs[r].pc) != Some(s.set_.value.id)
    requires s.procs[r].pc.CloseLock? || s.procs[r].pc.Operate? ==> s.procs[r].pc.id in s.procs[r].held
    ensures s'.set_ == s.set_ && |s'.procs| == |s.procs|
    ensures forall q :: 0 <= q < |s.procs| ==> s'.procs[q].adj == s.procs[q].adj
  {
    hide SemOp, Exit;
    LockEffect(Vals(s.set_.value.v, s.procs[r].adj));
    OpenEffect(Vals(s.set_.value.v, s.procs[r].adj));
  }

  lemma SetsAloneKept(c: Config, s: State, r: nat, s': State)
    requires Inv(s) && CallsOk(s) && SetsAlone(s) && Step(c, s, r, s')
    ensures SetsAlone(s')
  {
    hide Next, Inv, CallsOk, OperatesOpen, HalfSet;
    NotExited(c, s, r, s');
    OperatesOpenKept(c, s, r, s');
    forall p | 0 <= p < |s'.procs| ensures HalfSet(s', p) {
      if s'.procs[p].pc.CreateSet1? && Current(s', s'.procs[p].pc.id) {
        if p == r {
          HalfSets(c, s, p, s');
        } else {
          OthersStay(c, s, r, s', p);
          SetKnown(s, p);
          NoReturn(c, s, r, s', s'.set_.value.id);
          OthersWait(c, s, r, s', p);
          HalfSetBy(s, s', p);
        }
      } else {
        NotSetting(s', p);
      }
    }
  }

  lemma NotSetting(s: State, p: nat)
    requires p < |s.procs| && !(s.procs[p].pc.CreateSet1? && Current(s, s.procs[p].pc.id))
    ensures HalfSet(s, p)
  {
  }

  lemma SetKnown(s: State, p: nat)
    requires Inv(s) && p < |s.procs| && s.procs[p].pc.CreateSet1?
    ensures s.procs[p].pc.id < s.next
  {
    assert ProcOk(s, s.procs[p]);
  }

  lemma HalfSetBy(s: State, s': State, p: nat)
    requires p < |s.procs| && HalfSet(s, p) && |s'.procs| == |s.procs| && s'.procs[p].pc == s.procs[p].pc
    requires s'.set_ == s.set_ && forall q :: 0 <= q < |s.procs| ==> s'.procs[q].adj[0] == 0
    ensures HalfSet(s', p)
  {
  }

  lemma HalfSets(c: Config, s: State, p: nat, s': State)
    requires Step(c, s, p, s') && p < |s'.procs| && s'.procs[p].pc.CreateSet1?
    ensures HalfSet(s', p)
  {
    hide SemOp, Apply, OpOp, Clamp;
    OwnStep(c, s, p, s');
  }

  lemma {:induction false} SetsAloneAlways(c: Config, states: seq<State>, who: seq<nat>, i: nat)
    requires Run(c, states, who) && OpensBelow(states, BIGCOUNT) && i < |states|
    ensures SetsAlone(states[i])
  {
    hide Inv, Step, Opens, CallsOk;
    if i > 0 {
      SetsAloneAlways(c, states, who, i - 1);
      Reachable(c, states, who, i - 1);
      assert Step(c, states[i - 1], who[i - 1], states[i]);
      SetsAloneKept(c, states[i - 1], who[i - 1], states[i]);
    }
  }

  // When a process has initialised a set, the set holds the value it asked for, BIGCOUNT
  // and the lock, with nothing to undo on [0] or [1], whatever happened in between.
  lemma InitialisedInRuns(c: Config, states: seq<State>, who: seq<nat>, i: nat, p: nat)
    requires Run(c, states, who) && OpensBelow(states, BIGCOUNT) && i < |who| && who[i] == p
    requires p < |states[i].procs| && states[i].procs[p].pc.CreateSet1?
    requires p < |states[i + 1].procs| && states[i + 1].procs[p].pc != Exited
    ensures var CreateSet1(id, initval) := states[i].procs[p].pc; var s' := states[i + 1];
      && s'.set_ == Some(Set(id, [initval, BIGCOUNT, 1])) && s'.procs[p].pc == CreateEnd(id)
      && forall q :: 0 <= q < |s'.procs| ==> s'.procs[q].adj[0] == 0 && s'.procs[q].adj[1] == 0
  {
    hide Step, Init, Inv, Opens, CallsOk, Next, OperatesOpen;
    Reachable(c, states, who, i);
    SetsAloneAlways(c, states, who, i);
    assert Step(c, states[i], p, states[i + 1]);
    OwnStep(c, states[i], p, states[i + 1]);
    assert HalfSet(states[i], p);
    SetsCount(states[i], p, states[i + 1]);
  }

  lemma SetsCount(s: State, p: nat, s': State)
    requires Inv(s) && p < |s.procs| && s.procs[p].pc.CreateSet1? && Next(s, p) == Some(s') && HalfSet(s, p)
    requires p < |s'.procs| && s'.procs[p].pc != Exited
    ensures var CreateSet1(id, initval) := s.procs[p].pc;
      && s'.set_ == Some(Set(id, [initval, BIGCOUNT, 1])) && s'.procs[p].pc == CreateEnd(id)
      && forall q :: 0 <= q < |s'.procs| ==> s'.procs[q].adj[0] == 0 && s'.procs[q].adj[1] == 0
  {
    LockExclusive(s, p, p) by { assert Current(s, s.procs[p].pc.id); }
    var v := s.set_.value.v;
    assert v[1 := BIGCOUNT] == [v[0], BIGCOUNT, 1];
  }

  // ---- A sem_create that can be finished ----

  // The system calls a sem_create has left when nobody interferes.
  function CallsLeft(s: State, pc: Pc): nat {
    match pc
    case CreateLock(id, _) => if Current(s, id) then 5 else 7
    case CreateGet(_) => 6
    case CreateCheck(_, _) => 4
    case CreateSet0(_, _) => 3
    case CreateSet1(_, _) => 2
    case CreateEnd(_) => 1
    case _ => 0
  }

  // p is in a sem_create, on the current set once it has the lock, and nobody else has the lock.
  ghost predicate Creates(s: State, p: nat) {
    && Inv(s) && CallsOk(s) && Opens(s) < BIGCOUNT && p < |s.procs|
    && var pc := s.procs[p].pc;
       && CallsLeft(s, pc) > 0
       && (!pc.CreateEnd? ==> 0 <= pc.initval <= SEMVMX)
       && (!pc.CreateGet? && !pc.CreateLock? ==> Current(s, pc.id))
       && (pc.CreateGet? || pc.CreateLock? ==> s.set_.Some? ==> s.set_.value.v[2] == 0)
  }

  // sem_create has returned: one more open of the current set than before.
  ghost predicate Created(s: State, p: nat, held: multiset<nat>) {
    && s.set_.Some? && p < |s.procs| && s.procs[p].pc == Running
    && s.procs[p].held == held + multiset{s.set_.value.id}
  }

  lemma CreateGoesOn(s: State, p: nat)
    requires Creates(s, p)
    ensures p < |s.procs| && Next(s, p).Some?
    ensures var s' := Next(s, p).value;
      if s.procs[p].pc.CreateEnd? then Created(s', p, s.procs[p].held)
      else
        && Creates(s', p) && s'.procs[p].held == s.procs[p].held
        && CallsLeft(s', s'.procs[p].pc) < CallsLeft(s, s.procs[p].pc)
  {
    hide Inv, CallsOk, Opens, Initialised, SetOk;
    CreateNext(s, p);
    var s' := Next(s, p).value;
    if !s.procs[p].pc.CreateEnd? {
      NextKeeps(s, p, s');
      CallsOn(s, p, s');
      OpensOnly(s, p, s');
    }
  }

  lemma CallsOn(s: State, p: nat, s': State)
    requires CallsOk(s) && p < |s.procs| && Next(s, p) == Some(s')
    ensures CallsOk(s')
  {
    NextOwn(s, p, s');
  }

  lemma CreateNext(s: State, p: nat)
    requires Creates(s, p)
    ensures Next(s, p).Some?
    ensures var s', pc := Next(s, p).value, s.procs[p].pc;
      && p < |s'.procs|
      && (pc.CreateEnd? ==> Created(s', p, s.procs[p].held))
      && (!pc.CreateEnd? ==>
            var pc' := s'.procs[p].pc;
            && 0 < CallsLeft(s', pc') < CallsLeft(s, pc) && s'.procs[p].held == s.procs[p].held
            && (!pc'.CreateEnd? ==> pc'.initval == pc.initval)
            && (!pc'.CreateGet? && !pc'.CreateLock? ==> Current(s', pc'.id))
            && (pc'.CreateGet? || pc'.CreateLock? ==> s'.set_.Some? ==> s'.set_.value.v[2] == 0))
  {
    hide SemOp, Exit, Clamp, Initialised, SetOk;
    assert ProcOk(s, s.procs[p]);
    match s.procs[p].pc
    case CreateLock(id, _) => if Current(s, id) { LockEffect(Vals(s.set_.value.v, s.procs[p].adj)); }
    case CreateEnd(id) => EndMoves(s, p);
    case _ =>
  }

  lemma EndMoves(s: State, p: nat)
    requires Creates(s, p) && s.procs[p].pc.CreateEnd?
    ensures Next(s, p).Some? && Created(Next(s, p).value, p, s.procs[p].held)
  {
    hide SemOp, Exit, Clamp;
    assert ProcOk(s, s.procs[p]);
    OpensAreAdjustments(s);
    LockExclusive(s, p, p);
    EndCreateEffect(Vals(s.set_.value.v, s.procs[p].adj));
  }

  // Before its last call a sem_create counts nobody in; a new set has no users.
  lemma OpensOnly(s: State, p: nat, s': State)
    requires Creates(s, p) && !s.procs[p].pc.CreateEnd? && Next(s, p) == Some(s')
    requires p < |s'.procs| && s'.procs[p].held == s.procs[p].held
    ensures Opens(s') < BIGCOUNT
  {
    hide SemOp, Exit, Clamp, Initialised, SetOk, CallsOk;
    NextOwn(s, p, s');
    if s.set_.Some? {
      SameSet(s, p, s');
      assert OpenColumn(s') == OpenColumn(s);
    } else {
      NewSet(s, p, s');
      forall i | 0 <= i < |s.procs| ensures OpenColumn(s')[i] == 0 { assert ProcOk(s, s.procs[i]); }
      SumZero(OpenColumn(s'));
    }
  }

  lemma SameSet(s: State, p: nat, s': State)
    requires p < |s.procs| && s.set_.Some? && Next(s, p) == Some(s')
    requires s.procs[p].pc.CreateGet? || s.procs[p].pc.CreateLock? || s.procs[p].pc.CreateCheck?
             || s.procs[p].pc.CreateSet0? || s.procs[p].pc.CreateSet1?
    ensures s'.set_.Some? && s'.set_.value.id == s.set_.value.id
  {
    hide SemOp, Clamp;
  }

  lemma NewSet(s: State, p: nat, s': State)
    requires p < |s.procs| && s.set_.None? && Next(s, p) == Some(s')
    requires s.procs[p].pc.CreateGet? || s.procs[p].pc.CreateLock?
    ensures s'.set_.Some? ==> s'.set_.value.id == s.next
  {
  }

  // Alone, such a sem_create returns with one more open of the current set.
  lemma {:induction false} CreateAlone(c: Config, s: State, p: nat) returns (path: seq<State>)
    requires Creates(s, p)
    ensures Path(c, p, path) && path[0] == s && Created(path[|path| - 1], p, s.procs[p].held)
    decreases CallsLeft(s, s.procs[p].pc)
  {
    hide Next, Creates, Created;
    CreateGoesOn(s, p);
    var s' := Next(s, p).value;
    CreateStep(c, s, p, s');
    if s.procs[p].pc.CreateEnd? {
      path := [s, s'];
    } else {
      var rest := CreateAlone(c, s', p);
      path := [s] + rest;
      forall i | 0 <= i < |path| - 1 ensures Step(c, path[i], p, path[i + 1]) {
        if i > 0 { assert Step(c, rest[i - 1], p, rest[i]); }
      }
    }
  }

  lemma CreateStep(c: Config, s: State, p: nat, s': State)
    requires p < |s.procs| && Next(s, p) == Some(s')
    ensures Step(c, s, p, s')
  {
  }

  // Every run in which a process is about to get or lock a set in sem_create goes on so
  // that the call returns with the current set open, whether or not the set it got first
  // is still there: at most the process that has the lock is in the way, and may exit.
  lemma CreateCanFinish(c: Config, states: seq<State>, who: seq<nat>, p: nat)
    returns (states': seq<State>, who': seq<nat>)
    requires Run(c, states, who) && OpensBelow(states, BIGCOUNT) && p < |states[|who|].procs|
    requires var pc := states[|who|].procs[p].pc; (pc.CreateGet? || pc.CreateLock?) && 0 <= pc.initval <= SEMVMX
    ensures Run(c, states', who') && states <= states'
    ensures Created(states'[|who'|], p, states[|who|].procs[p].held)
  {
    hide Step, Init, Inv, CallsOk, Opens, Created, Exit;
    var s := states[|who|];
    Reachable(c, states, who, |who|);
    states', who' := states, who;
    if s.set_.Some? && s.set_.value.v[2] != 0 {
      var q := Unlock(s, p);
      ExitStep(c, s, p, q);
      Extend(c, states, who, q, Exit(s, q));
      states', who' := states + [Exit(s, q)], who + [q];
    } else {
      LockIsFree(s, p);
    }
    var path := CreateAlone(c, states'[|who'|], p);
    var before := states';
    states', who' := Follow(c, states', who', p, path);
    assert states' == before + path[1..];
    assert states'[|who'|] == path[|path| - 1];
  }

  lemma LockIsFree(s: State, p: nat)
    requires Inv(s) && CallsOk(s) && Opens(s) < BIGCOUNT && p < |s.procs|
    requires (s.procs[p].pc.CreateGet? || s.procs[p].pc.CreateLock?) && 0 <= s.procs[p].pc.initval <= SEMVMX
    requires s.set_.Some? ==> s.set_.value.v[2] == 0
    ensures Creates(s, p)
  {
  }

  // The process that has the lock, if it is taken.
  lemma Unlock(s: State, p: nat) returns (q: nat)
    requires Inv(s) && Opens(s) < BIGCOUNT && s.set_.Some? && s.set_.value.v[2] != 0 && p < |s.procs|
    requires s.procs[p].pc.CreateGet? || s.procs[p].pc.CreateLock?
    ensures q < |s.procs| && q != p && Locked(s.procs[q].pc) == Some(s.set_.value.id)
  {
    q := LockHolderMoves(s);
  }

  lemma ExitStep(c: Config, s: State, p: nat, q: nat)
    requires Inv(s) && CallsOk(s) && Opens(s) < BIGCOUNT && s.set_.Some? && p < |s.procs|
    requires (s.procs[p].pc.CreateGet? || s.procs[p].pc.CreateLock?) && 0 <= s.procs[p].pc.initval <= SEMVMX
    requires q < |s.procs| && q != p && Locked(s.procs[q].pc) == Some(s.set_.value.id)
    ensures Step(c, s, q, Exit(s, q)) && Creates(Exit(s, q), p)
    ensures p < |Exit(s, q).procs| && Exit(s, q).procs[p].held == s.procs[p].held
  {
    hide Next;
    var s' := Exit(s, q);
    ExitKeeps(s, q);
    SumUpdate(OpenColumn(s), q, 0);
    assert OpenColumn(s') == OpenColumn(s)[q := 0];
    assert Opens(s') <= Opens(s);
    LockIsFree(s', p);
  }
}
