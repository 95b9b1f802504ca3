/** The semaphore wrapper over System V semaphores: a three-member set holding the
    value [0], a count of users [1] and a lock [2]. Kernel rules follow semop()
    and semctl() in section 3 of POSIX.1-2008, System Interfaces: an operation
    array takes effect as a whole or not at all, SEM_UNDO operations are recorded
    as adjustments applied when the process exits, and SETVAL clears the
    adjustments of its member in every process. Processes interleave at every
    system call and may exit at any point. */
module SemSet {
  import opened Prelude

  const BIGCOUNT: int := 10000
  const SEMVMX: int := 32767   // largest value a member may have

  type Triple = s: seq<int> | |s| == 3 witness [0, 0, 0]
  const ZEROS: Triple := [0, 0, 0]

  datatype SemBuf = SemBuf(num: nat, op: int, undo: bool)

  const OP_LOCK := [SemBuf(2, 0, false), SemBuf(2, 1, true)]
  const OP_ENDCREATE := [SemBuf(1, -1, true), SemBuf(2, -1, true)]
  const OP_OPEN := [SemBuf(1, -1, true)]
  const OP_CLOSE := [SemBuf(2, 0, false), SemBuf(2, 1, true), SemBuf(1, 1, true)]
  const OP_UNLOCK := [SemBuf(2, -1, true)]

  function OpOp(amount: int): seq<SemBuf> {
    [SemBuf(0, amount, true)]
  }

  // Values of the set and adjustments of the calling process.
  datatype Vals = Vals(v: Triple, adj: Triple)

  // One operation of an array; None means the process has to wait.
  function Apply(x: Vals, b: SemBuf): Option<Vals> {
    if b.num >= 3 then None
    else if b.op == 0 then (if x.v[b.num] == 0 then Some(x) else None)
    else if x.v[b.num] + b.op < 0 then None
    else Some(Vals(x.v[b.num := x.v[b.num] + b.op],
                   if b.undo then x.adj[b.num := x.adj[b.num] - b.op] else x.adj))
  }

  // The array as a whole: all operations in order, or none.
  function SemOp(x: Vals, ops: seq<SemBuf>): Option<Vals>
    decreases |ops|
  {
    if ops == [] then Some(x)
    else match Apply(x, ops[0])
      case None => None
      case Some(y) => SemOp(y, ops[1..])
  }

  // ---- Processes ----

  datatype Pc =
    | Running
      // sem_create
    | CreateGet(initval: int)
    | CreateLock(id: nat, initval: int)
    | CreateCheck(id: nat, initval: int)
    | CreateSet0(id: nat, initval: int)
    | CreateSet1(id: nat, initval: int)
    | CreateEnd(id: nat)
      // sem_open
    | OpenGet
    | OpenDec(id: nat)
      // sem_close
    | CloseLock(id: nat)
    | CloseCheck(id: nat)
    | CloseRemove(id: nat)
    | CloseUnlock(id: nat)
      // sem_op, sem_wait, sem_signal
    | Operate(id: nat, amount: int)
      // sem_rm called by a user
    | Remove(id: nat)
      // the abort on sem[1] > BIGCOUNT, and the end
    | Aborted
    | Exited

  // `held` counts, per set, the opens this process has made and not closed.
  datatype Proc = Proc(pc: Pc, adj: Triple, held: multiset<nat>)

  datatype Set = Set(id: nat, v: Triple)

  // One key: the set it names at present, if any, and the next unused identifier.
  datatype State = State(set_: Option<Set>, next: nat, procs: seq<Proc>)

  // Which ways of joining and leaving the processes use besides sem_create and sem_close.
  datatype Config = Config(usesOpen: bool, usesRm: bool)

  predicate Current(s: State, id: nat) {
    s.set_.Some? && s.set_.value.id == id
  }

  function Goto(s: State, p: nat, pc: Pc): State
    requires p < |s.procs|
  {
    s.(procs := s.procs[p := s.procs[p].(pc := pc)])
  }

  // A semop() by p on the current set that goes through.
  function DoOps(s: State, p: nat, ops: seq<SemBuf>, pc: Pc, held: multiset<nat>): Option<State>
    requires p < |s.procs| && s.set_.Some?
  {
    match SemOp(Vals(s.set_.value.v, s.procs[p].adj), ops)
    case None => None
    case Some(y) => Some(State(Some(Set(s.set_.value.id, y.v)), s.next, s.procs[p := Proc(pc, y.adj, held)]))
  }

  function ClearMember(procs: seq<Proc>, m: nat): seq<Proc>
    requires m < 3
  {
    seq(|procs|, i requires 0 <= i < |procs| => procs[i].(adj := procs[i].adj[m := 0]))
  }

  function ClearAll(procs: seq<Proc>): seq<Proc> {
    seq(|procs|, i requires 0 <= i < |procs| => procs[i].(adj := ZEROS))
  }

  // semctl(SETVAL): the value is set and every process's adjustment for it cleared.
  function SetVal(s: State, p: nat, m: nat, val: int, pc: Pc): State
    requires p < |s.procs| && s.set_.Some? && m < 3
  {
    var s1 := s.(set_ := Some(s.set_.value.(v := s.set_.value.v[m := val])), procs := ClearMember(s.procs, m));
    Goto(s1, p, pc)
  }

  // semctl(IPC_RMID): the set and all adjustments for it are gone.
  function RemoveSet(s: State, p: nat, pc: Pc): State
    requires p < |s.procs|
  {
    Goto(s.(set_ := None, procs := ClearAll(s.procs)), p, pc)
  }

  function Clamp(x: int): int {
    if x < 0 then 0 else x
  }

  // Process exit: the adjustments are added; a value that would be negative becomes 0.
  function Exit(s: State, p: nat): State
    requires p < |s.procs|
  {
    var a := s.procs[p].adj;
    var s1 := s.(procs := s.procs[p := Proc(Exited, ZEROS, multiset{})]);
    if s.set_.None? then s1
    else
      var v := s.set_.value.v;
      s1.(set_ := Some(s.set_.value.(v := [Clamp(v[0] + a[0]), Clamp(v[1] + a[1]), Clamp(v[2] + a[2])])))
  }

  // The next system call of p; None when it has to wait or has nothing to do.
  // A call on a set that is gone fails, and the wrapper exits (err_sys), except
  // that sem_create starts again when its lock call finds the set gone.
  function Next(s: State, p: nat): Option<State>
    requires p < |s.procs|
  {
    var q := s.procs[p];
    match q.pc
    case CreateGet(initval) =>
      if s.set_.Some? then Some(Goto(s, p, CreateLock(s.set_.value.id, initval)))
      else Some(Goto(State(Some(Set(s.next, ZEROS)), s.next + 1, s.procs), p, CreateLock(s.next, initval)))
    case CreateLock(id, initval) =>
      if !Current(s, id) then Some(Goto(s, p, CreateGet(initval)))
      else DoOps(s, p, OP_LOCK, CreateCheck(id, initval), q.held)
    case CreateCheck(id, initval) =>
      if !Current(s, id) then Some(Exit(s, p))
      else Some(Goto(s, p, if s.set_.value.v[1] == 0 then CreateSet0(id, initval) else CreateEnd(id)))
    case CreateSet0(id, initval) =>
      if !Current(s, id) || initval < 0 || initval > SEMVMX then Some(Exit(s, p))
      else Some(SetVal(s, p, 0, initval, CreateSet1(id, initval)))
    case CreateSet1(id, initval) =>
      if !Current(s, id) then Some(Exit(s, p)) else Some(SetVal(s, p, 1, BIGCOUNT, CreateEnd(id)))
    case CreateEnd(id) =>
      if !Current(s, id) then Some(Exit(s, p))
      else DoOps(s, p, OP_ENDCREATE, Running, q.held + multiset{id})
    case OpenGet =>
      if s.set_.Some? then Some(Goto(s, p, OpenDec(s.set_.value.id))) else Some(Goto(s, p, Running))
    case OpenDec(id) =>
      if !Current(s, id) then Some(Exit(s, p))
      else DoOps(s, p, OP_OPEN, Running, q.held + multiset{id})
    case CloseLock(id) =>
      if !Current(s, id) then Some(Exit(s, p))
      else DoOps(s, p, OP_CLOSE, CloseCheck(id), q.held - multiset{id})
    case CloseCheck(id) =>
      if !Current(s, id) then Some(Exit(s, p))
      else
        var n := s.set_.value.v[1];
        Some(Goto(s, p, if n > BIGCOUNT then Aborted else if n == BIGCOUNT then CloseRemove(id) else CloseUnlock(id)))
    case CloseRemove(id) =>
      if !Current(s, id) then Some(Exit(s, p)) else Some(RemoveSet(s, p, Running))
    case CloseUnlock(id) =>
      if !Current(s, id) then Some(Exit(s, p)) else DoOps(s, p, OP_UNLOCK, Running, q.held)
    case Operate(id, amount) =>
      if !Current(s, id) || amount == 0 then Some(Exit(s, p))
      else DoOps(s, p, OpOp(amount), Running, q.held)
    case Remove(id) =>
      if !Current(s, id) then Some(Exit(s, p)) else Some(RemoveSet(s, p, Running))
    case _ => None
  }

  // What a running process may call: closing and operating only on a set it has open.
  predicate MayCall(c: Config, q: Proc, pc: Pc) {
    match pc
    case CreateGet(_) => true
    case OpenGet => c.usesOpen
    case CloseLock(id) => id in q.held
    case Operate(id, _) => id in q.held
    case Remove(id) => c.usesRm && id in q.held
    case _ => false
  }

  ghost predicate Step(c: Config, s: State, p: nat, s': State) {
    && p < |s.procs|
    && (|| Next(s, p) == Some(s')
        || (s.procs[p].pc == Running && exists pc :: MayCall(c, s.procs[p], pc) && s' == Goto(s, p, pc))
        || (s.procs[p].pc != Exited && s' == Exit(s, p)))
  }

  ghost predicate Init(s: State) {
    && s.set_ == None && s.next == 0
    && forall p :: 0 <= p < |s.procs| ==> s.procs[p] == Proc(Running, ZEROS, multiset{})
  }

  ghost predicate Run(c: Config, states: seq<State>, who: seq<nat>) {
    && |states| == |who| + 1
    && Init(states[0])
    && forall i :: 0 <= i < |who| ==> Step(c, states[i], who[i], states[i + 1])
  }

  // Fewer than `most` opens are outstanding at every moment of the run.
  ghost predicate OpensBelow(states: seq<State>, most: int) {
    forall i :: 0 <= i < |states| ==> Opens(states[i]) < most
  }

  // ---- Totals over all processes ----

  function Column(procs: seq<Proc>, m: nat): seq<int>
    requires m < 3
  {
    seq(|procs|, i requires 0 <= i < |procs| => procs[i].adj[m])
  }

  // Opens of the current set that have not been closed.
  function OpenColumn(s: State): seq<int> {
    seq(|s.procs|, i requires 0 <= i < |s.procs| =>
      if s.set_.Some? then s.procs[i].held[s.set_.value.id] else 0)
  }

  function Opens(s: State): int {
    Sum(OpenColumn(s))
  }

  // Value plus all adjustments of one member.
  function Account(s: State, m: nat): int
    requires m < 3
  {
    if s.set_.None? then 0 else s.set_.value.v[m] + Sum(Column(s.procs, m))
  }
}
