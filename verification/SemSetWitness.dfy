/** Runs of the semaphore wrapper in which a promise is not kept, and so the exact
    conditions of the promises. */
module SemSetWitness {
  import opened Prelude
  import opened SemSet
  import opened SemSetInvariant
  import opened SemSetTheorems

  // ---- A removal that comes too late ----

  // With sem_open the property fails: p0 creates and closes; after it has read
  // BIGCOUNT and before it removes the set, p1 opens it, and then has a set that is gone.
  function Late(k: nat): State {
    var none: multiset<nat>, one := multiset{}, multiset{0};
    var idle := Proc(Running, ZEROS, none);
    if k == 0 then State(None, 0, [idle, idle])
    else if k == 1 then State(None, 0, [Proc(CreateGet(1), ZEROS, none), idle])
    else if k == 2 then State(Some(Set(0, ZEROS)), 1, [Proc(CreateLock(0, 1), ZEROS, none), idle])
    else if k == 3 then State(Some(Set(0, [0, 0, 1])), 1, [Proc(CreateCheck(0, 1), [0, 0, -1], none), idle])
    else if k == 4 then State(Some(Set(0, [0, 0, 1])), 1, [Proc(CreateSet0(0, 1), [0, 0, -1], none), idle])
    else if k == 5 then State(Some(Set(0, [1, 0, 1])), 1, [Proc(CreateSet1(0, 1), [0, 0, -1], none), idle])
    else if k == 6 then State(Some(Set(0, [1, BIGCOUNT, 1])), 1, [Proc(CreateEnd(0), [0, 0, -1], none), idle])
    else if k == 7 then State(Some(Set(0, [1, BIGCOUNT - 1, 0])), 1, [Proc(Running, [0, 1, 0], one), idle])
    else if k == 8 then State(Some(Set(0, [1, BIGCOUNT - 1, 0])), 1, [Proc(CloseLock(0), [0, 1, 0], one), idle])
    else if k == 9 then State(Some(Set(0, [1, BIGCOUNT, 1])), 1, [Proc(CloseCheck(0), [0, 0, -1], none), idle])
    else
      var closing := Proc(CloseRemove(0), [0, 0, -1], none);
      if k == 10 then State(Some(Set(0, [1, BIGCOUNT, 1])), 1, [closing, idle])
      else if k == 11 then State(Some(Set(0, [1, BIGCOUNT, 1])), 1, [closing, Proc(OpenGet, ZEROS, none)])
      else if k == 12 then State(Some(Set(0, [1, BIGCOUNT, 1])), 1, [closing, Proc(OpenDec(0), ZEROS, none)])
      else if k == 13 then State(Some(Set(0, [1, BIGCOUNT - 1, 1])), 1, [closing, Proc(Running, [0, 1, 0], one)])
      else State(None, 1, [idle, Proc(Running, ZEROS, one)])
  }

  function LateMover(k: nat): nat {
    if k <= 9 || k == 13 then 0 else 1
  }

  lemma LateSmall(k: nat)
    ensures Opens(Late(k)) <= 2
  {
    var c := OpenColumn(Late(k));
    TwoTerms(c);
    assert multiset{0}[0] == 1 && c[0] <= 1 && c[1] <= 1;
  }

  lemma LateStep(c: Config, k: nat)
    requires k < 14 && (k < 10 || c.usesOpen)
    ensures Step(c, Late(k), LateMover(k), Late(k + 1))
  {
    hide SemOp, DoOps;
    var s, s' := Late(k), Late(k + 1);
    if k == 0 { assert MayCall(c, s.procs[0], CreateGet(1)) && s' == Goto(s, 0, CreateGet(1)); }
    else if k == 7 { assert MayCall(c, s.procs[0], CloseLock(0)) && s' == Goto(s, 0, CloseLock(0)); }
    else if k == 10 { assert MayCall(c, s.procs[1], OpenGet) && s' == Goto(s, 1, OpenGet); }
    else if k == 2 || k == 6 || k == 8 || k == 12 { LateOps(k); }
    else if k == 4 || k == 5 { LateSet(k); }
    else if k == 13 { LateRemoves(); }
    else { assert s.procs[LateMover(k) := s'.procs[LateMover(k)]] == s'.procs; }
  }

  // The four semop() calls of the run.
  lemma LateOps(k: nat)
    requires k == 2 || k == 6 || k == 8 || k == 12
    ensures Next(Late(k), LateMover(k)) == Some(Late(k + 1))
  {
    hide SemOp;
    var s, s', p := Late(k), Late(k + 1), LateMover(k);
    var x := Vals(s.set_.value.v, s.procs[p].adj);
    LockEffect(x);
    EndCreateEffect(x);
    CloseEffect(x);
    OpenEffect(x);
    var v, a := s'.set_.value.v, s'.procs[p].adj;
    assert k == 2 ==> x.v[2 := 1] == v && x.adj[2 := -1] == a;
    assert k == 6 ==> x.v[1 := BIGCOUNT - 1][2 := 0] == v && x.adj[1 := 1][2 := 0] == a;
    assert k == 8 ==> x.v[2 := 1][1 := BIGCOUNT] == v && x.adj[2 := -1][1 := 0] == a;
    assert k == 12 ==> x.v[1 := BIGCOUNT - 1] == v && x.adj[1 := 1] == a;
    assert s.procs[p := s'.procs[p]] == s'.procs;
    var none: multiset<nat> := multiset{};
    assert multiset{0} - multiset{0} == none && none + multiset{0} == multiset{0};
  }

  lemma LateSet(k: nat)
    requires k == 4 || k == 5
    ensures Next(Late(k), 0) == Some(Late(k + 1))
  {
    var s, s' := Late(k), Late(k + 1);
    var m := if k == 4 then 0 else 1;
    var cleared := ClearMember(s.procs, m);
    forall i | 0 <= i < 2 ensures cleared[i] == s.procs[i] {
      assert s.procs[i].adj[m := 0] == s.procs[i].adj;
    }
    assert cleared == s.procs;
    assert s.set_.value.v[m := if k == 4 then 1 else BIGCOUNT] == s'.set_.value.v;
    assert s.procs[0 := s'.procs[0]] == s'.procs;
  }

  lemma LateRemoves()
    ensures Next(Late(13), 0) == Some(Late(14))
  {
    var s, s' := Late(13), Late(14);
    assert ClearAll(s.procs)[0 := s'.procs[0]] == s'.procs;
  }

  function LateRun(): (seq<State>, seq<nat>) {
    (seq(15, k requires 0 <= k < 15 => Late(k)), seq(14, k requires 0 <= k < 14 => LateMover(k)))
  }

  lemma LateIsRun(c: Config)
    requires c.usesOpen
    ensures Run(c, LateRun().0, LateRun().1) && OpensBelow(LateRun().0, BIGCOUNT) && !RemovesUnused(LateRun().0[13])
    ensures var last := LateRun().0[14]; last.set_ == None && last.procs[1].pc == Running && 0 in last.procs[1].held
  {
    var (states, who) := LateRun();
    forall i | 0 <= i < |who| ensures Step(c, states[i], who[i], states[i + 1]) { LateStep(c, i); }
    forall i | 0 <= i < |states| ensures Opens(states[i]) < BIGCOUNT { LateSmall(i); }
    var s := states[13];
    assert s.procs[0].pc == CloseRemove(s.set_.value.id) && s.procs[1].held[s.set_.value.id] == 1;
  }

  // sem_close removes only sets that nobody has open, in all runs, exactly when
  // every user joins through sem_create.
  lemma RemovalSafeIff(c: Config)
    ensures (forall states, who, i :: Run(c, states, who) && OpensBelow(states, BIGCOUNT) && 0 <= i < |states| ==>
               RemovesUnused(states[i]))
            <==> !c.usesOpen
  {
    if c.usesOpen {
      LateIsRun(c);
      assert Run(c, LateRun().0, LateRun().1) && 0 <= 13 < |LateRun().0|;
    } else {
      forall states, who, i | Run(c, states, who) && OpensBelow(states, BIGCOUNT) && 0 <= i < |states|
        ensures RemovesUnused(states[i])
      {
        RemovalSafe(c, states, who, i);
      }
    }
  }

  // ---- Building runs ----

  // A run that goes on with one more step.
  lemma Extend(c: Config, states: seq<State>, who: seq<nat>, p: nat, s': State)
    requires Run(c, states, who) && Step(c, states[|who|], p, s')
    ensures Run(c, states + [s'], who + [p])
  {
    hide Step, Init;
    var xs, ys := states + [s'], who + [p];
    forall i | 0 <= i < |ys| ensures Step(c, xs[i], ys[i], xs[i + 1]) {
      if i < |who| { assert Step(c, states[i], who[i], states[i + 1]); }
    }
  }

  // Any number of steps of one process after a run.
  ghost predicate Path(c: Config, p: nat, path: seq<State>) {
    path != [] && forall i :: 0 <= i < |path| - 1 ==> Step(c, path[i], p, path[i + 1])
  }

  lemma {:induction false} Follow(c: Config, states: seq<State>, who: seq<nat>, p: nat, path: seq<State>)
    returns (states': seq<State>, who': seq<nat>)
    requires Run(c, states, who) && Path(c, p, path) && path[0] == states[|who|]
    ensures Run(c, states', who') && states <= states' && states' == states + path[1..]
    decreases |path|
  {
    hide Step;
    if |path| == 1 {
      states', who' := states, who;
      assert path[1..] == [];
    } else {
      assert Step(c, path[0], p, path[1]);
      Extend(c, states, who, p, path[1]);
      var rest := path[1..];
      assert Path(c, p, rest) by {
        forall i | 0 <= i < |rest| - 1 ensures Step(c, rest[i], p, rest[i + 1]) {
          assert Step(c, path[i + 1], p, path[i + 2]);
        }
      }
      states', who' := Follow(c, states + [path[1]], who + [p], p, rest);
      assert path[1..] == [path[1]] + rest[1..];
    }
  }

  // One set, identifier 0, and two processes: p and the other one.
  function Pair(v: Triple, p: nat, mine: Proc, other: Proc): State {
    State(Some(Set(0, v)), 1, if p == 0 then [mine, other] else [other, mine])
  }

  // What a change of p's own process and of the values makes of such a state.
  lemma PairMine(v: Triple, p: nat, mine: Proc, other: Proc, v': Triple, mine': Proc)
    requires p < 2
    ensures |Pair(v, p, mine, other).procs| == 2 && Pair(v, p, mine, other).procs[p] == mine
    ensures State(Some(Set(0, v')), 1, Pair(v, p, mine, other).procs[p := mine']) == Pair(v', p, mine', other)
  {
  }

  function Triple3(x: int, y: int, z: int): Triple {
    [x, y, z]
  }

  function Times(k: nat): multiset<nat> {
    multiset{}[0 := k]
  }

  // A process that has the set open k times, at a program point.
  function Me(pc: Pc, k: nat, adj1: int, adj2: int): Proc {
    Proc(pc, Triple3(0, adj1, adj2), Times(k))
  }

  // sem_create(key, initval) by p on a set of value `value` with `b` in [1], from the
  // call to the return or, with [1] at 0, to the end of an initialisation.
  function Creating(p: nat, other: Proc, value: int, b: int, k: nat, initval: int, i: nat): State {
    if i == 0 then Pair(Triple3(value, b, 0), p, Me(Running, k, k, 0), other)
    else if i == 1 then Pair(Triple3(value, b, 0), p, Me(CreateGet(initval), k, k, 0), other)
    else if i == 2 then Pair(Triple3(value, b, 0), p, Me(CreateLock(0, initval), k, k, 0), other)
    else if i == 3 then Pair(Triple3(value, b, 1), p, Me(CreateCheck(0, initval), k, k, -1), other)
    else if b != 0 then
      if i == 4 then Pair(Triple3(value, b, 1), p, Me(CreateEnd(0), k, k, -1), other)
      else Pair(Triple3(value, b - 1, 0), p, Me(Running, k + 1, k + 1, 0), other)
    else if i == 4 then Pair(Triple3(value, 0, 1), p, Me(CreateSet0(0, initval), k, k, -1), other)
    else if i == 5 then Pair(Triple3(initval, 0, 1), p, Me(CreateSet1(0, initval), k, k, -1), other)
    else Pair(Triple3(initval, BIGCOUNT, 1), p, Me(CreateEnd(0), k, 0, -1), other)
  }

  function CreatingPath(p: nat, other: Proc, value: int, b: int, k: nat, initval: int): seq<State> {
    seq(if b != 0 then 6 else 7, i requires 0 <= i => Creating(p, other, value, b, k, initval, i))
  }

  lemma CreatingCalls(c: Config, p: nat, other: Proc, value: int, b: int, k: nat, initval: int)
    requires p < 2
    ensures Step(c, Creating(p, other, value, b, k, initval, 0), p, Creating(p, other, value, b, k, initval, 1))
    ensures Step(c, Creating(p, other, value, b, k, initval, 1), p, Creating(p, other, value, b, k, initval, 2))
  {
    hide SemOp, Exit;
    var s, s1 := Creating(p, other, value, b, k, initval, 0), Creating(p, other, value, b, k, initval, 1);
    var v := Triple3(value, b, 0);
    PairMine(v, p, Me(Running, k, k, 0), other, v, Me(CreateGet(initval), k, k, 0));
    PairMine(v, p, Me(CreateGet(initval), k, k, 0), other, v, Me(CreateLock(0, initval), k, k, 0));
    assert MayCall(c, s.procs[p], CreateGet(initval)) && s1 == Goto(s, p, CreateGet(initval));
    assert Next(s1, p) == Some(Creating(p, other, value, b, k, initval, 2));
  }

  lemma CreatingLocks(c: Config, p: nat, other: Proc, value: int, b: int, k: nat, initval: int)
    requires p < 2
    ensures Step(c, Creating(p, other, value, b, k, initval, 2), p, Creating(p, other, value, b, k, initval, 3))
    ensures Step(c, Creating(p, other, value, b, k, initval, 3), p, Creating(p, other, value, b, k, initval, 4))
  {
    hide SemOp, Exit;
    var s, s1 := Creating(p, other, value, b, k, initval, 2), Creating(p, other, value, b, k, initval, 3);
    var x := Vals(s.set_.value.v, s.procs[p].adj);
    var v, locked, mine := Triple3(value, b, 0), Triple3(value, b, 1), Me(CreateCheck(0, initval), k, k, -1);
    PairMine(v, p, Me(CreateLock(0, initval), k, k, 0), other, locked, mine);
    PairMine(locked, p, mine, other, locked, Me(if b != 0 then CreateEnd(0) else CreateSet0(0, initval), k, k, -1));
    LockEffect(x);
    assert x.v[2 := 1] == locked && x.adj[2 := -1] == mine.adj;
    assert Next(s, p) == Some(s1);
    assert Next(s1, p) == Some(Creating(p, other, value, b, k, initval, 4));
  }

  lemma CreatingJoins(c: Config, p: nat, other: Proc, value: int, b: int, k: nat, initval: int)
    requires p < 2 && b > 0
    ensures Step(c, Creating(p, other, value, b, k, initval, 4), p, Creating(p, other, value, b, k, initval, 5))
  {
    hide SemOp, Exit;
    var s, s1 := Creating(p, other, value, b, k, initval, 4), Creating(p, other, value, b, k, initval, 5);
    var x := Vals(s.set_.value.v, s.procs[p].adj);
    PairMine(Triple3(value, b, 1), p, Me(CreateEnd(0), k, k, -1), other,
           Triple3(value, b - 1, 0), Me(Running, k + 1, k + 1, 0));
    EndCreateEffect(x);
    assert x.v[1 := b - 1][2 := 0] == s1.set_.value.v && x.adj[1 := k + 1][2 := 0] == s1.procs[p].adj;
    assert Times(k) + multiset{0} == Times(k + 1);
    assert Next(s, p) == Some(s1);
  }

  lemma CreatingSets(c: Config, p: nat, other: Proc, value: int, k: nat, initval: int)
    requires p < 2 && 0 <= initval <= SEMVMX && other.adj == ZEROS
    ensures Step(c, Creating(p, other, value, 0, k, initval, 4), p, Creating(p, other, value, 0, k, initval, 5))
    ensures Step(c, Creating(p, other, value, 0, k, initval, 5), p, Creating(p, other, value, 0, k, initval, 6))
  {
    hide SemOp, Exit;
    var s, s1 := Creating(p, other, value, 0, k, initval, 4), Creating(p, other, value, 0, k, initval, 5);
    var s2 := Creating(p, other, value, 0, k, initval, 6);
    var v0, v1, v2 := Triple3(value, 0, 1), Triple3(initval, 0, 1), Triple3(initval, BIGCOUNT, 1);
    var q0, q1, q2 :=
      Me(CreateSet0(0, initval), k, k, -1), Me(CreateSet1(0, initval), k, k, -1), Me(CreateEnd(0), k, 0, -1);
    assert v0[0 := initval] == v1 && v1[1 := BIGCOUNT] == v2;
    assert q0.adj[0 := 0] == q0.adj && q1.adj[1 := 0] == q2.adj;
    Cleared(v0, p, q0, q0, other, 0);
    Cleared(v1, p, q1, q1.(adj := q2.adj), other, 1);
    PairMine(v1, p, q0, other, v1, q1);
    PairMine(v2, p, q1.(adj := q2.adj), other, v2, q2);
    hide ClearMember;
    assert Next(s, p) == Some(s1);
    assert Next(s1, p) == Some(s2);
  }

  lemma Cleared(v: Triple, p: nat, mine: Proc, mine': Proc, other: Proc, m: nat)
    requires p < 2 && m < 3 && other.adj == ZEROS && mine' == mine.(adj := mine.adj[m := 0])
    ensures ClearMember(Pair(v, p, mine, other).procs, m) == Pair(v, p, mine', other).procs
  {
    assert other.(adj := other.adj[m := 0]) == other;
  }

  lemma CreatingIsPath(c: Config, p: nat, other: Proc, value: int, b: int, k: nat, initval: int)
    requires p < 2 && b >= 0 && 0 <= initval <= SEMVMX && (b == 0 ==> other.adj == ZEROS)
    ensures Path(c, p, CreatingPath(p, other, value, b, k, initval))
  {
    hide Step, Creating;
    CreatingCalls(c, p, other, value, b, k, initval);
    CreatingLocks(c, p, other, value, b, k, initval);
    if b > 0 { CreatingJoins(c, p, other, value, b, k, initval); }
    else { CreatingSets(c, p, other, value, k, initval); }
    var path := CreatingPath(p, other, value, b, k, initval);
    forall i | 0 <= i < |path| - 1 ensures Step(c, path[i], p, path[i + 1]) {
      assert i == 0 || i == 1 || i == 2 || i == 3 || i == 4 || i == 5;
    }
  }

  lemma OpensOfPair(v: Triple, p: nat, mine: Proc, other: Proc)
    ensures Opens(Pair(v, p, mine, other)) == mine.held[0] + other.held[0]
  {
    TwoTerms(OpenColumn(Pair(v, p, mine, other)));
  }

  lemma CreatingOpens(p: nat, other: Proc, value: int, b: int, k: nat, initval: int, i: nat)
    ensures Opens(Creating(p, other, value, b, k, initval, i)) <= k + other.held[0] + (if i > 4 && b != 0 then 1 else 0)
  {
    var s := Creating(p, other, value, b, k, initval, i);
    if p == 0 { OpensOfPair(s.set_.value.v, p, s.procs[0], s.procs[1]); }
    else { OpensOfPair(s.set_.value.v, p, s.procs[1], s.procs[0]); }
  }

  // ---- A set in use that is initialised again ----

  // Process 0 has the set open k times; the value is 1.
  function Opened(k: nat): State {
    Creating(0, Proc(Running, ZEROS, Times(0)), 1, BIGCOUNT - k, k, 1, 0)
  }

  // By induction on the number of opens: a run that reaches it.
  lemma {:induction false} Reopen(c: Config, k: nat) returns (states: seq<State>, who: seq<nat>)
    requires 1 <= k <= BIGCOUNT
    ensures Run(c, states, who) && states[|who|] == Opened(k) && OpensBelow(states, k + 1)
    decreases k
  {
    hide Step, Init, Opens, Creating, Late;
    if k == 1 {
      states, who := seq(8, i requires 0 <= i < 8 => Late(i)), seq(7, i requires 0 <= i < 7 => LateMover(i));
      FirstOpens(c, states, who);
    } else {
      var other := Proc(Running, ZEROS, Times(0));
      var before, movers := Reopen(c, k - 1);
      CreatingIsPath(c, 0, other, 1, BIGCOUNT - (k - 1), k - 1, 1);
      var path := CreatingPath(0, other, 1, BIGCOUNT - (k - 1), k - 1, 1);
      states, who := Follow(c, before, movers, 0, path);
      OpenedNext(k - 1);
      forall i | 0 <= i < |path| ensures Opens(path[i]) < k + 1 {
        CreatingOpens(0, other, 1, BIGCOUNT - (k - 1), k - 1, 1, i);
      }
      OpensOn(before, path, states, k + 1);
    }
  }

  lemma OpensOn(before: seq<State>, path: seq<State>, states: seq<State>, most: int)
    requires OpensBelow(before, most) && path != [] && states == before + path[1..]
    requires forall i :: 0 <= i < |path| ==> Opens(path[i]) < most
    ensures OpensBelow(states, most)
  {
    forall i | 0 <= i < |states| ensures Opens(states[i]) < most {
      assert states[i] == if i < |before| then before[i] else path[i - |before| + 1];
    }
  }

  lemma OpenedNext(k: nat)
    requires k < BIGCOUNT
    ensures Creating(0, Proc(Running, ZEROS, Times(0)), 1, BIGCOUNT - k, k, 1, 5) == Opened(k + 1)
  {
  }

  lemma FirstOpens(c: Config, states: seq<State>, who: seq<nat>)
    requires states == seq(8, i requires 0 <= i < 8 => Late(i)) && who == seq(7, i requires 0 <= i < 7 => LateMover(i))
    ensures Run(c, states, who) && states[7] == Opened(1) && OpensBelow(states, 2)
  {
    hide Step;
    forall i | 0 <= i < |who| ensures Step(c, states[i], who[i], states[i + 1]) { LateStep(c, i); }
    forall i | 0 <= i < |states| ensures Opens(states[i]) < 2 {
      TwoTerms(OpenColumn(states[i]));
    }
    var none: multiset<nat> := multiset{};
    assert multiset{0} == Times(1) && none == Times(0);
  }

  // With BIGCOUNT opens outstanding, the next sem_create takes the set for an
  // uninitialised one: it sets the value anew, and [1] no longer counts the users.
  lemma ReinitialisesInUse(c: Config) returns (states: seq<State>, who: seq<nat>)
    ensures Run(c, states, who) && OpensBelow(states, BIGCOUNT + 1)
    ensures |who| >= 6 && states[|who| - 6] == Opened(BIGCOUNT)
    ensures var s, last := states[|who| - 6], states[|who|];
      && Opens(s) == BIGCOUNT && s.set_.value.v == [1, 0, 0]
      && last.set_.Some? && last.set_.value.id == s.set_.value.id
      && Opens(last) == BIGCOUNT && last.set_.value.v == [2, BIGCOUNT, 1] && Initialised(last)
  {
    hide Step, Init;
    var other := Proc(Running, ZEROS, Times(0));
    var before, movers := Reopen(c, BIGCOUNT);
    CreatingIsPath(c, 0, other, 1, 0, BIGCOUNT, 2);
    var path := CreatingPath(0, other, 1, 0, BIGCOUNT, 2);
    states, who := Follow(c, before, movers, 0, path);
    forall i | 0 <= i < |path| ensures Opens(path[i]) < BIGCOUNT + 1 {
      CreatingOpens(0, other, 1, 0, BIGCOUNT, 2, i);
    }
    OpensOn(before, path, states, BIGCOUNT + 1);
    assert |path| == 7 && |who| - 6 == |movers| && states[|who|] == path[6];
    assert states[|movers|] == before[|movers|];
    LastOpened();
  }

  lemma LastOpened()
    ensures var last := Creating(0, Proc(Running, ZEROS, Times(0)), 1, 0, BIGCOUNT, 2, 6);
      Opens(last) == BIGCOUNT && Initialised(last) && Opens(Opened(BIGCOUNT)) == BIGCOUNT
  {
    var other := Proc(Running, ZEROS, Times(0));
    var last := Creating(0, other, 1, 0, BIGCOUNT, 2, 6);
    OpensOfPair(last.set_.value.v, 0, last.procs[0], other);
    OpensOfPair(Opened(BIGCOUNT).set_.value.v, 0, Opened(BIGCOUNT).procs[0], other);
    TwoTerms(Column(last.procs, 1));
  }

  // [1] counts the users of an initialised set.
  ghost predicate Balanced(s: State) {
    s.set_.Some? && Initialised(s) ==> s.set_.value.v[1] == BIGCOUNT - Opens(s)
  }

  // Runs with fewer than `most` opens outstanding all keep the count right exactly when
  // `most` is at most BIGCOUNT.
  lemma BalancedIff(c: Config, most: int)
    ensures (forall states, who, i :: Run(c, states, who) && OpensBelow(states, most) && 0 <= i < |states| ==>
               Balanced(states[i]))
            <==> most <= BIGCOUNT
  {
    if most <= BIGCOUNT {
      forall states, who, i | Run(c, states, who) && OpensBelow(states, most) && 0 <= i < |states|
        ensures Balanced(states[i])
      {
        AccountBalances(c, states, who, i);
      }
    } else {
      var states, who := ReinitialisesInUse(c);
      assert Run(c, states, who) && OpensBelow(states, most) && 0 <= |who| < |states|;
      assert !Balanced(states[|who|]);
    }
  }

  // ---- An exit that takes value with it ----

  // What sem_op(id, amount) by p leaves, when it does not have to wait.
  function Operated(s: State, p: nat, amount: int): State
    requires p < |s.procs| && s.set_.Some?
  {
    var q, v := s.procs[p], s.set_.value.v;
    s.(set_ := Some(s.set_.value.(v := v[0 := v[0] + amount])),
       procs := s.procs[p := q.(pc := Running, adj := q.adj[0 := q.adj[0] - amount])])
  }

  lemma Operates(c: Config, states: seq<State>, who: seq<nat>, p: nat, amount: int)
    returns (states': seq<State>, who': seq<nat>)
    requires Run(c, states, who) && OpensBelow(states, 3)
    requires var s := states[|who|];
      && p < |s.procs| && s.procs[p].pc == Running && s.set_.Some? && s.set_.value.id in s.procs[p].held
      && amount != 0 && s.set_.value.v[0] + amount >= 0
    ensures Run(c, states', who') && states'[|who'|] == Operated(states[|who|], p, amount) && OpensBelow(states', 3)
  {
    hide SemOp, Init, Exit, OpOp;
    var s := states[|who|];
    var pc := Operate(s.set_.value.id, amount);
    var s1, s2 := Goto(s, p, pc), Operated(s, p, amount);
    assert MayCall(c, s.procs[p], pc);
    OperateEffect(Vals(s.set_.value.v, s.procs[p].adj), amount);
    assert s1.procs[p := s2.procs[p]] == s2.procs;
    assert Next(s1, p) == Some(s2);
    assert OpenColumn(s1) == OpenColumn(s) && OpenColumn(s2) == OpenColumn(s);
    assert Opens(s) < 3;
    Extend(c, states, who, p, s1);
    Extend(c, states + [s1], who + [p], p, s2);
    states', who' := states + [s1] + [s2], who + [p] + [p];
  }

  // Process 0 has signalled once and process 1 has taken two.
  function Taken(): State {
    State(Some(Set(0, [0, BIGCOUNT - 2, 0])), 1,
          [Proc(Running, [-1, 1, 0], Times(1)), Proc(Running, [2, 1, 0], Times(1))])
  }

  // Process 0 creates the set with 1 and process 1 joins; 0 signals, 1 takes 2; then 0
  // exits and its undo of the signal would need a value of -1.
  lemma LosesValue(c: Config) returns (states: seq<State>, who: seq<nat>)
    ensures Run(c, states, who) && OpensBelow(states, 3) && |who| > 0
    ensures var s := states[|who| - 1];
      && Initialised(s) && s == Taken() && states[|who|] == Exit(s, 0)
      && Account(s, 0) == 1 && Account(states[|who|], 0) == 2
  {
    hide Step, Init, Opens;
    states, who := Reopen(c, 1);
    var other := Me(Running, 1, 1, 0);
    CreatingIsPath(c, 1, other, 1, BIGCOUNT - 1, 0, 1);
    var path := CreatingPath(1, other, 1, BIGCOUNT - 1, 0, 1);
    var before := states;
    states, who := Follow(c, states, who, 1, path);
    forall i | 0 <= i < |path| ensures Opens(path[i]) < 3 { CreatingOpens(1, other, 1, BIGCOUNT - 1, 0, 1, i); }
    OpensOn(before, path, states, 3);
    var joined := states[|who|];
    assert joined == Creating(1, other, 1, BIGCOUNT - 1, 0, 1, 5);
    states, who := Operates(c, states, who, 0, 1);
    states, who := Operates(c, states, who, 1, -2);
    TakenIs(Creating(1, other, 1, BIGCOUNT - 1, 0, 1, 5));
    TakenAccount();
    ExitIsStep(c);
    var last := Exit(Taken(), 0);
    Extend(c, states, who, 0, last);
    var shorter := states;
    states, who := states + [last], who + [0];
    assert states[|who| - 1] == shorter[|shorter| - 1];
  }

  lemma TakenIs(joined: State)
    requires joined == Creating(1, Me(Running, 1, 1, 0), 1, BIGCOUNT - 1, 0, 1, 5)
    ensures |joined.procs| == 2 && joined.set_.Some?
    ensures Operated(Operated(joined, 0, 1), 1, -2) == Taken()
  {
    var s := Operated(Operated(joined, 0, 1), 1, -2);
    assert Triple3(0, 1, 0)[0 := -1] == [-1, 1, 0] && Triple3(0, 1, 0)[0 := 2] == [2, 1, 0];
    assert s.set_.value.v == Taken().set_.value.v;
    assert s.procs[0] == Taken().procs[0] && s.procs[1] == Taken().procs[1];
    assert s.procs == Taken().procs;
  }

  lemma ExitIsStep(c: Config)
    ensures Step(c, Taken(), 0, Exit(Taken(), 0))
  {
  }

  lemma TakenAccount()
    ensures Initialised(Taken()) && Account(Taken(), 0) == 1
    ensures Account(Exit(Taken(), 0), 0) == 2 && Opens(Exit(Taken(), 0)) < 3
  {
    var s, s' := Taken(), Exit(Taken(), 0);
    TwoTerms(Column(s.procs, 0));
    TwoTerms(Column(s.procs, 1));
    TwoTerms(Column(s'.procs, 0));
    TwoTerms(OpenColumn(s'));
  }

  lemma TwoTerms(s: seq<int>)
    requires |s| == 2
    ensures Sum(s) == s[0] + s[1]
  {
    assert Sum(s[1..]) == s[1] + Sum(s[1..][1..]);
  }
}
