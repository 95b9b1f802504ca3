/** How many steps of its own an operation of the two-lock table takes in a run,
    however the other threads interleave with it. */
module TwoLockProgress {
  import opened Prelude
  import opened TableSpec
  import opened TwoLockTable
  import opened TwoLockInvariant
  import opened TwoLockPreserved
  import opened TwoLockSafety

  // No step of another thread, whether inside an operation, a call or a handover,
  // lengthens what a thread has left.
  lemma OthersDoNotDelay(s: State, tb: Table<Addr>, t: Tid, s': State, u: Tid) returns (tb': Table<Addr>)
    requires |tb.chains| == NHASH && Inv(s, tb) && Step(s, t, s') && u < |s.pcs| && u != t
    ensures Inv(s', tb') && |tb'.chains| == NHASH
    ensures |s'.pcs| == |s.pcs| && s'.pcs[u] == s.pcs[u]
    ensures LinksLeft(s', tb', s'.pcs[u]) == LinksLeft(s, tb, s.pcs[u])
  {
    hide Inv, Next, TableAfter;
    if Moves(s, t, s') {
      var mem :| Next(s, t, mem) == Moved(s');
      MoveKeepsInv(s, tb, t, mem);
      MoveDoesNotDelay(s, tb, t, mem, u);
      tb' := TableAfter(s, tb, t);
    } else {
      tb' := tb;
      if Calls(s, t, s') {
        var op :| Call(s, t, op, s');
        CallKeepsInv(s, tb, t, op, s');
      } else {
        var v, a :| Give(s, t, v, a, s');
        GiveKeepsInv(s, tb, t, v, a, s');
      }
    }
  }

  // Before its walk, if it has one, an operation may still have to follow all links of
  // a chain.
  predicate WalkAhead(pc: Pc) {
    || pc.FindWantHash? || pc.FindStart?
    || pc.ReleWant? || pc.ReleCheck? || pc.ReleDrop? || pc.ReleWantHash? || pc.ReleRelock?
    || pc.ReleRecheck? || pc.ReleHead?
  }

  // Steps left to thread t, when no chain is longer than `most`.
  function Left(s: State, tb: Table<Addr>, t: Tid, most: nat): int
    requires |tb.chains| == NHASH && t < |s.pcs|
  {
    Stage(s.pcs[t]) + if WalkAhead(s.pcs[t]) then most else LinksLeft(s, tb, s.pcs[t])
  }

  lemma OwnStepCounts(s: State, tb: Table<Addr>, t: Tid, s': State, most: nat) returns (tb': Table<Addr>)
    requires |tb.chains| == NHASH && Inv(s, tb) && Step(s, t, s') && t < |s.pcs| && s.pcs[t] != Idle
    requires |s'.heap| <= most
    ensures Inv(s', tb') && |tb'.chains| == NHASH && |s'.pcs| == |s.pcs|
    ensures Left(s', tb', t, most) < Left(s, tb, t, most)
  {
    hide Inv, Next, TableAfter, LinksLeft, Stage;
    InvTable(s, tb);
    var mem :| Next(s, t, mem) == Moved(s');
    tb' := TableAfter(s, tb, t);
    MoveKeepsInv(s, tb, t, mem);
    InvTable(s', tb');
    StepsDescend(s, tb, t, mem);
    WalkStarts(s, t, mem);
    LinksBounded(s, tb, t);
    LinksBounded(s', tb', t);
    OnlyWalksLink(s, tb, s.pcs[t]);
    OnlyWalksLink(s', tb', s'.pcs[t]);
    LinksOfTable(s, s', tb, s'.pcs[t]);
  }

  // A walk begins only where one is ahead, and none is ahead after it.
  lemma WalkStarts(s: State, t: Tid, mem: Option<Addr>)
    requires t < |s.pcs| && Next(s, t, mem).Moved? && t < |Next(s, t, mem).s.pcs|
    ensures WalkAfter(s.pcs[t], Next(s, t, mem).s.pcs[t])
  {
    hide WalkAfter, NextAlloc, NextHold, NextFind, NextRele;
    if InAlloc(s.pcs[t]) || InHold(s.pcs[t]) { WalkStartsElsewhere(s, t, mem); }
    else if InFind(s.pcs[t]) { WalkStartsInFind(s, t); }
    else { WalkStartsInRele(s, t); }
  }

  predicate WalkAfter(pc: Pc, pc': Pc) {
    && (pc'.FindWalk? || pc'.ReleWalk? ==> WalkAhead(pc) || pc.FindWalk? || pc.ReleWalk?)
    && (WalkAhead(pc') ==> WalkAhead(pc))
    && (Stage(pc') < Stage(pc) && (pc'.FindWalk? || pc'.ReleWalk?) ==> WalkAhead(pc))
  }

  lemma WalkStartsElsewhere(s: State, t: Tid, mem: Option<Addr>)
    requires t < |s.pcs| && Next(s, t, mem).Moved? && t < |Next(s, t, mem).s.pcs|
    requires InAlloc(s.pcs[t]) || InHold(s.pcs[t])
    ensures WalkAfter(s.pcs[t], Next(s, t, mem).s.pcs[t])
  {
    hide Bucket, NextFind, NextRele, Stage;
  }

  lemma WalkStartsInFind(s: State, t: Tid)
    requires t < |s.pcs| && NextFind(s, t).Moved? && t < |NextFind(s, t).s.pcs|
    ensures WalkAfter(s.pcs[t], NextFind(s, t).s.pcs[t])
  {
    hide Bucket;
  }

  lemma WalkStartsInRele(s: State, t: Tid)
    requires t < |s.pcs| && NextRele(s, t).Moved? && t < |NextRele(s, t).s.pcs| && !s.pcs[t].FindWalk?
    ensures WalkAfter(s.pcs[t], NextRele(s, t).s.pcs[t])
  {
    hide Bucket, WalkAfter, NextRele;
    if WalkAhead(s.pcs[t]) { WalkAheadGoesOn(s.pcs[t], NextRele(s, t).s.pcs[t]); }
    else if s.pcs[t].ReleWalk? { WalkGoesOn(s, t); }
    else { WalkIsBehind(s, t); }
  }

  lemma WalkAheadGoesOn(pc: Pc, pc': Pc)
    requires WalkAhead(pc)
    ensures WalkAfter(pc, pc')
  {
    hide Stage;
  }

  lemma WalkGoesOn(s: State, t: Tid)
    requires t < |s.pcs| && NextRele(s, t).Moved? && t < |NextRele(s, t).s.pcs| && s.pcs[t].ReleWalk?
    ensures WalkAfter(s.pcs[t], NextRele(s, t).s.pcs[t])
  {
    hide Bucket;
  }

  lemma WalkIsBehind(s: State, t: Tid)
    requires t < |s.pcs| && NextRele(s, t).Moved? && t < |NextRele(s, t).s.pcs|
    requires !WalkAhead(s.pcs[t]) && !s.pcs[t].ReleWalk? && !s.pcs[t].FindWalk?
    ensures WalkAfter(s.pcs[t], NextRele(s, t).s.pcs[t])
  {
    hide Bucket, Stage;
  }

  lemma OnlyWalksLink(s: State, tb: Table<Addr>, pc: Pc)
    requires |tb.chains| == NHASH
    ensures !pc.FindWalk? && !pc.ReleWalk? ==> LinksLeft(s, tb, pc) == 0
  {
  }

  lemma LinksOfTable(s: State, s': State, tb: Table<Addr>, pc: Pc)
    requires |tb.chains| == NHASH
    ensures LinksLeft(s, tb, pc) == LinksLeft(s', tb, pc)
  {
  }

  // No more links are left than there are live objects.
  lemma LinksBounded(s: State, tb: Table<Addr>, t: Tid)
    requires |tb.chains| == NHASH && t < |s.pcs| && Inv(s, tb)
    ensures 0 <= LinksLeft(s, tb, s.pcs[t]) <= |s.heap|
  {
    hide Linked, Attributed, GapExclusive, Holdings;
    assert Local(s, tb, t);
    match s.pcs[t]
    case FindWalk(id, _, k) => ChainBounded(s, tb, id);
    case ReleWalk(a, _, k) => ChainBounded(s, tb, tb.objs[a].id);
    case _ =>
  }

  lemma ChainBounded(s: State, tb: Table<Addr>, id: int)
    requires Global(s, tb) && |tb.chains| == NHASH
    ensures |ChainOf(tb, id)| <= |s.heap|
  {
    hide Linked, Attributed;
    var c := ChainOf(tb, id);
    MembersBounded(c, s.heap.Keys);
    assert |s.heap.Keys| == |s.heap|;
  }

  lemma {:induction false} MembersBounded(c: seq<Addr>, s: set<Addr>)
    requires NoDuplicates(c) && forall i :: 0 <= i < |c| ==> c[i] in s
    ensures |c| <= |s|
  {
    if c != [] {
      var tail := c[1..];
      assert forall i :: 0 <= i < |tail| ==> tail[i] == c[i + 1];
      MembersBounded(tail, s - {c[0]});
    }
  }

  // ---- Over a run ----

  // The steps thread t takes between two moments of a run.
  function Own(who: seq<Tid>, t: Tid, j: nat, k: nat): nat
    requires j <= k <= |who|
    decreases k
  {
    if j == k then 0 else Own(who, t, j, k - 1) + if who[k - 1] == t then 1 else 0
  }

  // While a thread is inside one operation it takes at most 14 steps and one for each
  // object live at a time, whatever the others do meanwhile.
  lemma OwnStepsBounded(states: seq<State>, who: seq<Tid>, t: Tid, j: nat, k: nat, most: nat)
    requires Run(states, who) && j <= k <= |who| && t < |states[j].pcs|
    requires forall x :: j <= x <= k ==> |states[x].heap| <= most
    requires forall x :: j <= x < k ==> t < |states[x].pcs| && states[x].pcs[t] != Idle
    ensures Own(who, t, j, k) <= 14 + most
  {
    Reachable(states, who, j);
    var tb :| Inv(states[j], tb);
    InvTable(states[j], tb);
    var tb' := LeftFalls(states, who, t, j, k, most, tb);
    LeftBounded(states[j], tb, t, most);
    LeftBounded(states[k], tb', t, most);
  }

  lemma LeftBounded(s: State, tb: Table<Addr>, t: Tid, most: nat)
    requires |tb.chains| == NHASH && t < |s.pcs| && Inv(s, tb) && |s.heap| <= most
    ensures 0 <= Left(s, tb, t, most) <= 14 + most
  {
    hide Inv, LinksLeft;
    LinksBounded(s, tb, t);
  }

  lemma {:induction false} LeftFalls(states: seq<State>, who: seq<Tid>, t: Tid, j: nat, k: nat, most: nat,
                                     tb: Table<Addr>) returns (tb': Table<Addr>)
    requires Run(states, who) && j <= k <= |who| && t < |states[j].pcs|
    requires forall x :: j <= x <= k ==> |states[x].heap| <= most
    requires forall x :: j <= x < k ==> t < |states[x].pcs| && states[x].pcs[t] != Idle
    requires Inv(states[j], tb) && |tb.chains| == NHASH
    ensures Inv(states[k], tb') && |tb'.chains| == NHASH && t < |states[k].pcs|
    ensures Own(who, t, j, k) + Left(states[k], tb', t, most) <= Left(states[j], tb, t, most)
    decreases k
  {
    hide Inv, Step, Init, LinksLeft, Stage, WalkAhead;
    if j == k {
      tb' := tb;
    } else {
      var tb1 := LeftFalls(states, who, t, j, k - 1, most, tb);
      assert Step(states[k - 1], who[k - 1], states[k]);
      if who[k - 1] == t {
        tb' := OwnStepCounts(states[k - 1], tb1, t, states[k], most);
      } else {
        tb' := OthersDoNotDelay(states[k - 1], tb1, who[k - 1], states[k], t);
      }
    }
  }
}
