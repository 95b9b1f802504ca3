/** The reference-counted table under two locks: `hashlock` guards the chains,
    each object's own lock guards its count. Any number of threads interleave,
    one program counter each; a step is one lock operation or one access to
    shared memory. */
module TwoLockTable {
  import opened Prelude
  import opened TableSpec

  type Tid = nat
  type Addr = nat

  datatype Obj = Obj(count: int, id: int, next: Option<Addr>, lock: Option<Tid>)

  // The point each thread has reached; `a` is the object it works on and `k`
  // the number of links it has followed in a chain.
  datatype Pc =
    | Idle
      // foo_alloc
    | AllocCall(id: int)                 // about to call malloc
    | AllocFail(id: int)                 // malloc or mutex initialisation failed
    | AllocWantHash(id: int, a: Addr)
    | AllocLink(id: int, a: Addr)
    | AllocPublish(id: int, a: Addr)
    | AllocWantLock(id: int, a: Addr)
    | AllocUnhash(id: int, a: Addr)
    | AllocFinish(id: int, a: Addr)
      // foo_hold
    | HoldWant(a: Addr)
    | HoldInc(a: Addr)
    | HoldUnlock(a: Addr)
      // foo_find
    | FindWantHash(id: int)
    | FindStart(id: int)
    | FindWalk(id: int, cur: Option<Addr>, k: nat)
    | FindHoldWant(id: int, a: Addr, k: nat)
    | FindHoldInc(id: int, a: Addr, k: nat)
    | FindHoldUnlock(id: int, a: Addr)
    | FindUnhash(id: int, r: Option<Addr>)
      // foo_rele
    | ReleWant(a: Addr)
    | ReleCheck(a: Addr)
    | ReleDec(a: Addr)
    | ReleDecUnlock(a: Addr)
    | ReleDrop(a: Addr)                  // last reference seen: drop the object lock
    | ReleWantHash(a: Addr)              // in the gap
    | ReleRelock(a: Addr)                // still in the gap, table lock held
    | ReleRecheck(a: Addr)
    | ReleDec2(a: Addr)
    | ReleDec2Unlock(a: Addr)
    | ReleDec2Unhash(a: Addr)
    | ReleHead(a: Addr)
    | ReleWalk(a: Addr, p: Addr, k: nat)
    | ReleSplice(a: Addr, p: Addr, k: nat)
    | ReleUnhash(a: Addr)
    | ReleUnlock(a: Addr)
    | ReleFree(a: Addr)

  // `owners` records, for each object, who holds references to it: the clients'
  // side of the contract that only an owner may call hold or release.
  datatype State = State(
    fh: seq<Option<Addr>>,
    heap: map<Addr, Obj>,
    hashlock: Option<Tid>,
    pcs: seq<Pc>,
    owners: map<Addr, multiset<Tid>>)

  // A thread moves, waits for a lock, or does something undefined: it touches
  // memory that is not live, unlocks a lock it does not hold, or destroys a
  // lock that is held.
  datatype Outcome = Moved(s: State) | Blocked | Fault

  // ---- Single steps ----

  function Goto(s: State, t: Tid, pc: Pc): State
    requires t < |s.pcs|
  {
    s.(pcs := s.pcs[t := pc])
  }

  function LockHash(s: State, t: Tid, pc: Pc): Outcome
    requires t < |s.pcs|
  {
    if s.hashlock.None? then Moved(Goto(s, t, pc).(hashlock := Some(t))) else Blocked
  }

  function UnlockHash(s: State, t: Tid, pc: Pc): Outcome
    requires t < |s.pcs|
  {
    if s.hashlock == Some(t) then Moved(Goto(s, t, pc).(hashlock := None)) else Fault
  }

  function SetObj(s: State, t: Tid, a: Addr, o: Obj, pc: Pc): State
    requires t < |s.pcs|
  {
    Goto(s, t, pc).(heap := s.heap[a := o])
  }

  function LockObj(s: State, t: Tid, a: Addr, pc: Pc): Outcome
    requires t < |s.pcs|
  {
    if a !in s.heap then Fault
    else if s.heap[a].lock.None? then Moved(SetObj(s, t, a, s.heap[a].(lock := Some(t)), pc))
    else Blocked
  }

  function UnlockObj(s: State, t: Tid, a: Addr, pc: Pc): Outcome
    requires t < |s.pcs|
  {
    if a !in s.heap || s.heap[a].lock != Some(t) then Fault
    else Moved(SetObj(s, t, a, s.heap[a].(lock := None), pc))
  }

  // f_count++: the thread gains a reference.
  function Increment(s: State, t: Tid, a: Addr, pc: Pc): Outcome
    requires t < |s.pcs|
  {
    if a !in s.heap || a !in s.owners then Fault
    else Moved(SetObj(s, t, a, s.heap[a].(count := s.heap[a].count + 1), pc)
               .(owners := s.owners[a := s.owners[a] + multiset{t}]))
  }

  // f_count--: the thread gives its reference up.
  function Decrement(s: State, t: Tid, a: Addr, pc: Pc): Outcome
    requires t < |s.pcs|
  {
    if a !in s.heap || a !in s.owners then Fault
    else Moved(SetObj(s, t, a, s.heap[a].(count := s.heap[a].count - 1), pc)
               .(owners := s.owners[a := s.owners[a] - multiset{t}]))
  }

  function Head(s: State, id: int): Option<Addr> {
    if Bucket(id) < |s.fh| then s.fh[Bucket(id)] else None
  }

  function SetHead(s: State, t: Tid, id: int, p: Option<Addr>, pc: Pc): Outcome
    requires t < |s.pcs|
  {
    if Bucket(id) < |s.fh| then Moved(Goto(s, t, pc).(fh := s.fh[Bucket(id) := p])) else Fault
  }

  predicate InAlloc(pc: Pc) {
    || pc.AllocCall? || pc.AllocFail? || pc.AllocWantHash? || pc.AllocLink? || pc.AllocPublish?
    || pc.AllocWantLock? || pc.AllocUnhash? || pc.AllocFinish?
  }

  predicate InHold(pc: Pc) {
    pc.HoldWant? || pc.HoldInc? || pc.HoldUnlock?
  }

  predicate InFind(pc: Pc) {
    || pc.FindWantHash? || pc.FindStart? || pc.FindWalk? || pc.FindHoldWant? || pc.FindHoldInc?
    || pc.FindHoldUnlock? || pc.FindUnhash?
  }

  // The steps of each operation. `mem` is what malloc and mutex initialisation
  // give: an unused address, or failure.
  function NextAlloc(s: State, t: Tid, mem: Option<Addr>): Outcome
    requires t < |s.pcs|
  {
    match s.pcs[t]
    case AllocCall(id) =>
      if mem.Some? && mem.value !in s.heap then
        Moved(SetObj(s, t, mem.value, Obj(1, id, None, None), AllocWantHash(id, mem.value))
              .(owners := s.owners[mem.value := multiset{t}]))
      else Moved(Goto(s, t, AllocFail(id)))
    case AllocFail(id) => Moved(Goto(s, t, Idle))
    case AllocWantHash(id, a) => LockHash(s, t, AllocLink(id, a))
    case AllocLink(id, a) =>
      if a !in s.heap then Fault
      else Moved(SetObj(s, t, a, s.heap[a].(next := Head(s, id)), AllocPublish(id, a)))
    case AllocPublish(id, a) => SetHead(s, t, id, Some(a), AllocWantLock(id, a))
    case AllocWantLock(id, a) => LockObj(s, t, a, AllocUnhash(id, a))
    case AllocUnhash(id, a) => UnlockHash(s, t, AllocFinish(id, a))
    case AllocFinish(id, a) => UnlockObj(s, t, a, Idle)
    case _ => Blocked
  }

  function NextHold(s: State, t: Tid): Outcome
    requires t < |s.pcs|
  {
    match s.pcs[t]
    case HoldWant(a) => LockObj(s, t, a, HoldInc(a))
    case HoldInc(a) => Increment(s, t, a, HoldUnlock(a))
    case HoldUnlock(a) => UnlockObj(s, t, a, Idle)
    case _ => Blocked
  }

  function NextFind(s: State, t: Tid): Outcome
    requires t < |s.pcs|
  {
    match s.pcs[t]
    case FindWantHash(id) => LockHash(s, t, FindStart(id))
    case FindStart(id) => Moved(Goto(s, t, FindWalk(id, Head(s, id), 0)))
    case FindWalk(id, p, k) =>
      if p.None? then Moved(Goto(s, t, FindUnhash(id, None)))
      else if p.value !in s.heap then Fault
      else if s.heap[p.value].id == id then Moved(Goto(s, t, FindHoldWant(id, p.value, k)))
      else Moved(Goto(s, t, FindWalk(id, s.heap[p.value].next, k + 1)))
    case FindHoldWant(id, a, k) => LockObj(s, t, a, FindHoldInc(id, a, k))
    case FindHoldInc(id, a, k) => Increment(s, t, a, FindHoldUnlock(id, a))
    case FindHoldUnlock(id, a) => UnlockObj(s, t, a, FindUnhash(id, Some(a)))
    case FindUnhash(id, r) => UnlockHash(s, t, Idle)
    case _ => Blocked
  }

  function NextRele(s: State, t: Tid): Outcome
    requires t < |s.pcs|
  {
    match s.pcs[t]
    case ReleWant(a) => LockObj(s, t, a, ReleCheck(a))
    case ReleCheck(a) =>
      if a !in s.heap then Fault
      else Moved(Goto(s, t, if s.heap[a].count == 1 then ReleDrop(a) else ReleDec(a)))
    case ReleDec(a) => Decrement(s, t, a, ReleDecUnlock(a))
    case ReleDecUnlock(a) => UnlockObj(s, t, a, Idle)
    case ReleDrop(a) => UnlockObj(s, t, a, ReleWantHash(a))
    case ReleWantHash(a) => LockHash(s, t, ReleRelock(a))
    case ReleRelock(a) => LockObj(s, t, a, ReleRecheck(a))
    case ReleRecheck(a) =>
      if a !in s.heap then Fault
      else Moved(Goto(s, t, if s.heap[a].count != 1 then ReleDec2(a) else ReleHead(a)))
    case ReleDec2(a) => Decrement(s, t, a, ReleDec2Unlock(a))
    case ReleDec2Unlock(a) => UnlockObj(s, t, a, ReleDec2Unhash(a))
    case ReleDec2Unhash(a) => UnlockHash(s, t, Idle)
    case ReleHead(a) =>
      if a !in s.heap then Fault
      else
        var id := s.heap[a].id;
        if Head(s, id) == Some(a) then SetHead(s, t, id, s.heap[a].next, ReleUnhash(a))
        else if Head(s, id).None? then Fault
        else Moved(Goto(s, t, ReleWalk(a, Head(s, id).value, 0)))
    case ReleWalk(a, p, k) =>
      if p !in s.heap then Fault
      else if s.heap[p].next == Some(a) then Moved(Goto(s, t, ReleSplice(a, p, k)))
      else if s.heap[p].next.None? then Fault
      else Moved(Goto(s, t, ReleWalk(a, s.heap[p].next.value, k + 1)))
    case ReleSplice(a, p, k) =>
      if p !in s.heap || a !in s.heap then Fault
      else Moved(SetObj(s, t, p, s.heap[p].(next := s.heap[a].next), ReleUnhash(a)))
    case ReleUnhash(a) => UnlockHash(s, t, ReleUnlock(a))
    case ReleUnlock(a) => UnlockObj(s, t, a, ReleFree(a))
    case ReleFree(a) =>
      if a !in s.heap || s.heap[a].lock.Some? then Fault
      else Moved(Goto(s, t, Idle).(heap := s.heap - {a}, owners := s.owners - {a}))
    case _ => Blocked
  }

  function Next(s: State, t: Tid, mem: Option<Addr>): Outcome
    requires t < |s.pcs|
  {
    var pc := s.pcs[t];
    if InAlloc(pc) then NextAlloc(s, t, mem)
    else if InHold(pc) then NextHold(s, t)
    else if InFind(pc) then NextFind(s, t)
    else NextRele(s, t)
  }

  // ---- What clients may do between operations ----

  function EntryPc(op: Op<Addr>): Pc {
    match op
    case AllocOp(id) => AllocCall(id)
    case HoldOp(a) => HoldWant(a)
    case FindOp(id) => FindWantHash(id)
    case ReleOp(a) => ReleWant(a)
  }

  ghost predicate Owns(s: State, t: Tid, a: Addr) {
    a in s.heap && a in s.owners && s.owners[a][t] > 0
  }

  // An idle thread calls an operation; hold and release only on an object it owns.
  ghost predicate Call(s: State, t: Tid, op: Op<Addr>, s': State) {
    && t < |s.pcs|
    && s.pcs[t] == Idle
    && (op.HoldOp? || op.ReleOp? ==> Owns(s, t, op.a))
    && s' == Goto(s, t, EntryPc(op))
  }

  // An idle thread hands one of its references to another thread.
  ghost predicate Give(s: State, t: Tid, u: Tid, a: Addr, s': State) {
    && t < |s.pcs| && u < |s.pcs|
    && s.pcs[t] == Idle
    && Owns(s, t, a)
    && s' == s.(owners := s.owners[a := s.owners[a] - multiset{t} + multiset{u}])
  }

  ghost predicate Moves(s: State, t: Tid, s': State) {
    t < |s.pcs| && exists mem :: Next(s, t, mem) == Moved(s')
  }

  ghost predicate Calls(s: State, t: Tid, s': State) {
    exists op :: Call(s, t, op, s')
  }

  ghost predicate Gives(s: State, t: Tid, s': State) {
    exists u, a :: Give(s, t, u, a, s')
  }

  ghost predicate Step(s: State, t: Tid, s': State) {
    Moves(s, t, s') || Calls(s, t, s') || Gives(s, t, s')
  }

  ghost predicate Init(s: State) {
    && s.fh == seq(NHASH, _ => None)
    && s.heap == map[]
    && s.owners == map[]
    && s.hashlock == None
    && forall t :: 0 <= t < |s.pcs| ==> s.pcs[t] == Idle
  }

  // A run: any schedule of any number of threads, recorded as the states passed
  // and the thread that moved each time.
  ghost predicate Run(states: seq<State>, who: seq<Tid>) {
    && |states| == |who| + 1
    && Init(states[0])
    && forall i :: 0 <= i < |who| ==> Step(states[i], who[i], states[i + 1])
  }
}
