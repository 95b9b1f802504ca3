/** What foo_alloc gives its caller in a run of the two-lock table: the new object
    whenever there was memory for it, and nothing only when there was none. */
module TwoLockAlloc {
  import opened Prelude
  import opened TableSpec
  import opened TwoLockTable
  import opened TwoLockInvariant
  import opened TwoLockPreserved
  import opened TwoLockSafety
  import opened TwoLockRefinement

  // The step at which thread t asks for memory, and what it is given: an address not
  // in use, with its mutex initialised, or nothing.
  ghost predicate Obtains(s: State, t: Tid, id: int, mem: Option<Addr>, s': State) {
    && t < |s.pcs| && s.pcs[t] == AllocCall(id)
    && (mem.Some? ==> mem.value !in s.heap)
    && Next(s, t, mem) == Moved(s')
  }

  // Asking always gets an answer; nothing else is a step of a thread at that point.
  lemma AlwaysObtains(s: State, t: Tid, s': State)
    requires t < |s.pcs| && s.pcs[t].AllocCall? && Step(s, t, s')
    ensures exists mem :: Obtains(s, t, s.pcs[t].id, mem, s')
  {
    var mem :| Next(s, t, mem) == Moved(s');
    if mem.Some? && mem.value !in s.heap {
      assert Obtains(s, t, s.pcs[t].id, mem, s');
    } else {
      assert Obtains(s, t, s.pcs[t].id, None, s');
    }
  }

  // The points of foo_alloc after it asked for memory, by what it was given.
  predicate Allocating(pc: Pc, id: int, mem: Option<Addr>) {
    match pc
    case AllocFail(i) => i == id && mem == None
    case AllocWantHash(i, a) => i == id && mem == Some(a)
    case AllocLink(i, a) => i == id && mem == Some(a)
    case AllocPublish(i, a) => i == id && mem == Some(a)
    case AllocWantLock(i, a) => i == id && mem == Some(a)
    case AllocUnhash(i, a) => i == id && mem == Some(a)
    case AllocFinish(i, a) => i == id && mem == Some(a)
    case _ => false
  }

  lemma GoesOn(s: State, t: Tid, id: int, mem: Option<Addr>, s': State)
    requires t < |s.pcs| && Allocating(s.pcs[t], id, mem) && Step(s, t, s')
    ensures |s'.pcs| == |s.pcs|
    ensures Allocating(s'.pcs[t], id, mem) || s'.pcs[t] == Idle
    ensures s'.pcs[t] == Idle ==> StatusOf(s.pcs[t]) == Done(AllocOp(id), Pointer(mem))
    ensures s'.pcs[t] == Idle && mem.Some? && Owns(s, t, mem.value) ==> Owns(s', t, mem.value)
  {
    hide Bucket;
  }

  lemma OthersStay(s: State, t: Tid, s': State, u: Tid)
    requires Step(s, t, s') && u < |s.pcs| && u != t
    ensures |s'.pcs| == |s.pcs| && s'.pcs[u] == s.pcs[u]
  {
    hide Next;
    if Moves(s, t, s') {
      var mem :| Next(s, t, mem) == Moved(s');
      IntoGap(s, t, mem);
    }
  }

  lemma {:induction false} StaysAllocating(states: seq<State>, who: seq<Tid>, i: nat, j: nat, t: Tid, id: int,
                                           mem: Option<Addr>)
    requires Run(states, who) && i < j <= |who| && who[i] == t && Obtains(states[i], t, id, mem, states[i + 1])
    requires forall k :: i < k <= j ==> t < |states[k].pcs| && states[k].pcs[t] != Idle
    ensures Allocating(states[j].pcs[t], id, mem)
    decreases j
  {
    hide Step, Init;
    if j > i + 1 {
      StaysAllocating(states, who, i, j - 1, t, id, mem);
      assert Step(states[j - 1], who[j - 1], states[j]);
      if who[j - 1] == t {
        GoesOn(states[j - 1], t, id, mem, states[j]);
      } else {
        OthersStay(states[j - 1], who[j - 1], states[j], t);
      }
    }
  }

  // Between the call of an operation and its return there is one step of the caller at
  // which the atomic table performs it, with the result it returns.
  lemma {:induction false} EffectBetween(xs: seq<Atomic>, who: seq<Tid>, i: nat, j: nat, t: Tid, op: Op<Addr>,
                                         res: Result<Addr>)
    requires AtomicRun(xs, who) && i <= j <= |who| && t < |xs[i].status| && t < |xs[j].status|
    requires xs[i].status[t] == Pending(op) && xs[j].status[t] == Done(op, res)
    ensures exists k :: i <= k < j && who[k] == t && |xs[k].table.chains| == NHASH
                        && Performs(xs[k].table, op, res, xs[k + 1].table)
    decreases j
  {
    hide Performs;
    assert AtomicStep(xs[j - 1], who[j - 1], xs[j]);
    if who[j - 1] != t || xs[j - 1].status[t].Done? {
      EffectBetween(xs, who, i, j - 1, t, op, res);
    }
  }

  // foo_alloc returns what it was given: null if and only if malloc or the mutex
  // failed. An object it returns is put in the table, counted once, at one step of the
  // call, and belongs to the caller afterwards.
  lemma AllocReturns(states: seq<State>, who: seq<Tid>, xs: seq<Atomic>, i: nat, j: nat, t: Tid, id: int,
                     mem: Option<Addr>)
    requires Run(states, who) && AtomicRun(xs, who) && Tracks(xs, states)
    requires i < j < |who| && who[i] == t && Obtains(states[i], t, id, mem, states[i + 1])
    requires forall k :: i < k <= j ==> t < |states[k].pcs| && states[k].pcs[t] != Idle
    requires who[j] == t && t < |states[j + 1].pcs| && states[j + 1].pcs[t] == Idle
    ensures t < |xs[j].status| && xs[j].status[t] == Done(AllocOp(id), Pointer(mem))
    ensures mem.Some? ==> Owns(states[j + 1], t, mem.value)
    ensures mem.Some? ==>
              exists k :: i < k < j && who[k] == t && |xs[k].table.chains| == NHASH
                          && mem.value !in xs[k].table.objs
                          && xs[k + 1].table == Alloc(xs[k].table, mem.value, id)
  {
    hide Step, Init, Inv, AtomicStep, Next, Alloc;
    StaysAllocating(states, who, i, j, t, id, mem);
    assert Step(states[j], who[j], states[j + 1]);
    assert Abstracts(xs[j], states[j]);
    if mem.Some? {
      OwnsNew(states[j], xs[j].table, t, id, mem.value);
      StaysAllocating(states, who, i, i + 1, t, id, mem);
      assert Abstracts(xs[i + 1], states[i + 1]);
      AsksThenWants(states[i], t, id, mem.value, states[i + 1]);
      GoesOn(states[j], t, id, mem, states[j + 1]);
      EffectBetween(xs, who, i + 1, j, t, AllocOp(id), Pointer(mem));
    } else {
      GoesOn(states[j], t, id, mem, states[j + 1]);
    }
  }

  lemma AsksThenWants(s: State, t: Tid, id: int, a: Addr, s': State)
    requires Obtains(s, t, id, Some(a), s')
    ensures |s'.pcs| == |s.pcs| && StatusOf(s'.pcs[t]) == Pending(AllocOp(id))
  {
  }

  lemma OwnsNew(s: State, tb: Table<Addr>, t: Tid, id: int, a: Addr)
    requires Inv(s, tb) && t < |s.pcs| && Allocating(s.pcs[t], id, Some(a))
    ensures Owns(s, t, a)
  {
    assert Local(s, tb, t);
    assert Relied(s.pcs[t]) == Some(a) || OffChain(s.pcs[t]) == Some(a);
  }

  // ---- A run that shows it ----

  // The table while only thread 0 has used it: at most one object.
  function Alone(id: int, head: Option<Addr>, o: map<Addr, Obj>, hashlock: Option<Tid>, pc: Pc,
                 owners: map<Addr, multiset<Tid>>): State
  {
    State(seq(NHASH, _ => None)[Bucket(id) := head], o, hashlock, [pc], owners)
  }

  function AllocPath(id: int, a: Addr): seq<State> {
    var free, held := Obj(1, id, None, None), Obj(1, id, None, Some(0));
    var one := map[a := multiset{0}];
    [Alone(id, None, map[], None, Idle, map[]),
     Alone(id, None, map[], None, AllocCall(id), map[]),
     Alone(id, None, map[a := free], None, AllocWantHash(id, a), one),
     Alone(id, None, map[a := free], Some(0), AllocLink(id, a), one),
     Alone(id, None, map[a := free], Some(0), AllocPublish(id, a), one),
     Alone(id, Some(a), map[a := free], Some(0), AllocWantLock(id, a), one),
     Alone(id, Some(a), map[a := held], Some(0), AllocUnhash(id, a), one),
     Alone(id, Some(a), map[a := held], None, AllocFinish(id, a), one)]
  }

  function FindPath(id: int, a: Addr): seq<State> {
    var free, held := Obj(1, id, None, None), Obj(1, id, None, Some(0));
    var one, two := map[a := multiset{0}], map[a := multiset{0, 0}];
    [Alone(id, Some(a), map[a := free], None, Idle, one),
     Alone(id, Some(a), map[a := free], None, FindWantHash(id), one),
     Alone(id, Some(a), map[a := free], Some(0), FindStart(id), one),
     Alone(id, Some(a), map[a := free], Some(0), FindWalk(id, Some(a), 0), one),
     Alone(id, Some(a), map[a := free], Some(0), FindHoldWant(id, a, 0), one),
     Alone(id, Some(a), map[a := held], Some(0), FindHoldInc(id, a, 0), one),
     Alone(id, Some(a), map[a := held.(count := 2)], Some(0), FindHoldUnlock(id, a), two),
     Alone(id, Some(a), map[a := free.(count := 2)], Some(0), FindUnhash(id, Some(a)), two)]
  }

  lemma AllocSteps(id: int, a: Addr)
    ensures var p := AllocPath(id, a);
      forall i {:trigger p[i]} :: 1 <= i < 7 ==> Next(p[i], 0, Some(a)) == Moved(p[i + 1])
    ensures Next(AllocPath(id, a)[7], 0, None) == Moved(FindPath(id, a)[0])
  {
    hide Bucket, Next, AllocPath, FindPath;
    AllocLinks(id, a);
    AllocLocks(id, a);
  }

  lemma AllocLinks(id: int, a: Addr)
    ensures var p := AllocPath(id, a);
      && |p| == 8 && Next(p[1], 0, Some(a)) == Moved(p[2]) && Next(p[2], 0, Some(a)) == Moved(p[3])
      && Next(p[3], 0, Some(a)) == Moved(p[4]) && Next(p[4], 0, Some(a)) == Moved(p[5])
  {
    hide Bucket, NextHold, NextFind, NextRele;
    Replaced(a, Obj(1, id, None, None), Obj(1, id, None, None));
  }

  lemma AllocLocks(id: int, a: Addr)
    ensures var p := AllocPath(id, a);
      && |p| == 8 && Next(p[5], 0, Some(a)) == Moved(p[6]) && Next(p[6], 0, Some(a)) == Moved(p[7])
      && Next(p[7], 0, None) == Moved(FindPath(id, a)[0])
  {
    hide Bucket, NextHold, NextFind, NextRele;
    Replaced(a, Obj(1, id, None, None), Obj(1, id, None, Some(0)));
    Replaced(a, Obj(1, id, None, Some(0)), Obj(1, id, None, None));
  }

  lemma Replaced<V>(a: Addr, v: V, w: V)
    ensures map[a := v][a := w] == map[a := w]
  {
  }

  lemma FindSteps(id: int, a: Addr)
    ensures var p := FindPath(id, a); forall i {:trigger p[i]} :: 1 <= i < 7 ==> Next(p[i], 0, None) == Moved(p[i + 1])
  {
    hide Bucket, Next, FindPath;
    FindWalks(id, a);
    FindLocks(id, a);
    FindUnlocks(id, a);
    FindCounts(id, a);
  }

  lemma FindWalks(id: int, a: Addr)
    ensures var p := FindPath(id, a);
      && |p| == 8 && Next(p[1], 0, None) == Moved(p[2]) && Next(p[2], 0, None) == Moved(p[3])
      && Next(p[3], 0, None) == Moved(p[4])
  {
    hide Bucket, NextHold, NextAlloc, NextRele;
  }

  lemma FindLocks(id: int, a: Addr)
    ensures var p := FindPath(id, a); |p| == 8 && Next(p[4], 0, None) == Moved(p[5])
  {
    hide Bucket, NextHold, NextAlloc, NextRele, Head, LockHash, UnlockHash, Increment, UnlockObj;
    Replaced(a, Obj(1, id, None, None), Obj(1, id, None, Some(0)));
  }

  lemma FindUnlocks(id: int, a: Addr)
    ensures var p := FindPath(id, a); |p| == 8 && Next(p[6], 0, None) == Moved(p[7])
  {
    hide Bucket, NextHold, NextAlloc, NextRele, Head, LockHash, UnlockHash, Increment, LockObj;
    Replaced(a, Obj(2, id, None, Some(0)), Obj(2, id, None, None));
  }

  lemma FindCounts(id: int, a: Addr)
    ensures var p := FindPath(id, a); |p| == 8 && Next(p[5], 0, None) == Moved(p[6])
  {
    hide Bucket, NextHold, NextAlloc, NextRele, Head, LockHash, UnlockHash, LockObj, UnlockObj;
    var held := Obj(1, id, None, Some(0));
    Replaced(a, held, held.(count := 2));
    assert multiset{0} + multiset{0} == multiset{0, 0};
    Replaced(a, multiset{0}, multiset{0, 0});
  }

  // One thread allocates an object and looks for it: it finds that object.
  lemma AllocThenFind(id: int, a: Addr) returns (states: seq<State>, who: seq<Tid>)
    ensures Run(states, who) && |who| == 15
    ensures Obtains(states[1], 0, id, Some(a), states[2])
    ensures states[8].pcs == [Idle] && states[9].pcs == [FindWantHash(id)]
    ensures states[15].pcs == [FindUnhash(id, Some(a))]
  {
    hide Next;
    var p, q := AllocPath(id, a), FindPath(id, a);
    AllocSteps(id, a);
    FindSteps(id, a);
    states, who := p + q, seq(15, _ => 0);
    StartsEmpty(id);
    forall i | 0 <= i < 15 ensures Step(states[i], 0, states[i + 1]) {
      if i == 0 { AloneCalls(p[0], AllocOp(id), p[1]); }
      else if i < 7 { AloneMoves(p[i], Some(a), p[i + 1]); }
      else if i == 7 { AloneMoves(p[7], None, q[0]); }
      else if i == 8 { AloneCalls(q[0], FindOp(id), q[1]); }
      else { AloneMoves(q[i - 8], None, q[i - 7]); }
    }
  }

  lemma StartsEmpty(id: int)
    ensures Init(Alone(id, None, map[], None, Idle, map[]))
  {
    var n: seq<Option<Addr>> := seq(NHASH, _ => None);
    assert n[Bucket(id) := None] == n;
  }

  lemma AloneCalls(s: State, op: Op<Addr>, s': State)
    requires |s.pcs| == 1 && s.pcs[0] == Idle && (op.AllocOp? || op.FindOp?) && s' == Goto(s, 0, EntryPc(op))
    ensures Step(s, 0, s')
  {
    assert Call(s, 0, op, s');
  }

  lemma AloneMoves(s: State, mem: Option<Addr>, s': State)
    requires |s.pcs| == 1 && Next(s, 0, mem) == Moved(s')
    ensures Step(s, 0, s')
  {
  }
}
