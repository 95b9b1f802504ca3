/** The directory walk over one shared path buffer that is edited in place and
    grows by reallocation. The walk is proved against a listing of the tree. */
module TreeWalk {
  import opened Prelude

  const NAME_MAX: nat := 255

  datatype Kind = Reg | Blk | Chr | Fifo | Lnk | Sock

  // What lstat, opendir and readdir report for a path: it cannot be stat'ed, it is
  // some file, or it is a directory with its entries in the order they are read
  // (including "." and ".." where the system reports them).
  datatype Node =
    | NoStat(name: string)
    | File(name: string, kind: Kind)
    | Dir(name: string, readable: bool, entries: seq<Node>)

  datatype Type = FTW_F(kind: Kind) | FTW_D | FTW_DNR | FTW_NS

  // One call of the user's function: the path it is given and the type.
  datatype Call = Call(path: string, ty: Type)

  predicate IsDot(name: string) { name == "." || name == ".." }

  // ---- The listing ----

  // The calls for the node at `path`: itself first, then its entries in order.
  function Preorder(path: string, n: Node): seq<Call>
    decreases n, 1
  {
    match n
    case NoStat(_) => [Call(path, FTW_NS)]
    case File(_, kind) => [Call(path, FTW_F(kind))]
    case Dir(_, readable, entries) =>
      if !readable then [Call(path, FTW_D), Call(path + "/", FTW_DNR)]
      else [Call(path, FTW_D)] + Children(path + "/", entries)
  }

  function Children(prefix: string, entries: seq<Node>): seq<Call>
    decreases entries, 0
  {
    if entries == [] then []
    else (if IsDot(entries[0].name) then [] else Preorder(prefix + entries[0].name, entries[0]))
         + Children(prefix, entries[1..])
  }

  // The entries of a directory, from the i-th on, that are walked: all but "." and "..",
  // in their order.
  ghost predicate Picked(entries: seq<Node>, i: nat, picked: seq<nat>) {
    && (forall j, k :: 0 <= j < k < |picked| ==> picked[j] < picked[k])
    && (forall j :: 0 <= j < |picked| ==> i <= picked[j] < |entries|)
    && forall k :: i <= k < |entries| ==> (k in picked <==> entries[k].name != "." && entries[k].name != "..")
  }

  // The listings of the picked entries, each at its own path.
  function Below(path: string, entries: seq<Node>, picked: seq<nat>): seq<Call>
    requires forall k :: 0 <= k < |picked| ==> picked[k] < |entries|
  {
    if picked == [] then []
    else
      var e := entries[picked[0]];
      Preorder(path + "/" + e.name, e) + Below(path, entries, picked[1..])
  }

  // A readable directory is listed as itself and then, in entry order, the listings of
  // exactly those entries whose name is neither "." nor "..", each under its path.
  lemma DirListing(path: string, n: Node) returns (picked: seq<nat>)
    requires n.Dir? && n.readable
    ensures Picked(n.entries, 0, picked)
    ensures Preorder(path, n) == [Call(path, FTW_D)] + Below(path, n.entries, picked)
  {
    picked := Pick(path, n.entries, 0);
    assert n.entries[0..] == n.entries;
  }

  lemma {:induction false} Pick(path: string, entries: seq<Node>, i: nat) returns (picked: seq<nat>)
    requires i <= |entries|
    ensures Picked(entries, i, picked)
    ensures Children(path + "/", entries[i..]) == Below(path, entries, picked)
    decreases |entries| - i
  {
    hide Picked, Below, Children, IsDot;
    if i == |entries| {
      picked := [];
      NothingToPick(path, entries);
    } else {
      var rest := Pick(path, entries, i + 1);
      PickOne(entries, i, rest);
      picked := if IsDot(entries[i].name) then rest else [i] + rest;
      ListOne(path, entries, i, rest);
    }
  }

  lemma NothingToPick(path: string, entries: seq<Node>)
    ensures Picked(entries, |entries|, [])
    ensures Children(path + "/", entries[|entries|..]) == Below(path, entries, [])
  {
  }

  lemma PickOne(entries: seq<Node>, i: nat, rest: seq<nat>)
    requires i < |entries| && Picked(entries, i + 1, rest)
    ensures forall k :: 0 <= k < |rest| ==> rest[k] < |entries|
    ensures Picked(entries, i, if IsDot(entries[i].name) then rest else [i] + rest)
  {
  }

  lemma ListOne(path: string, entries: seq<Node>, i: nat, rest: seq<nat>)
    requires i < |entries| && forall k :: 0 <= k < |rest| ==> rest[k] < |entries|
    requires Children(path + "/", entries[i + 1..]) == Below(path, entries, rest)
    ensures Children(path + "/", entries[i..]) ==
            Below(path, entries, if IsDot(entries[i].name) then rest else [i] + rest)
  {
    hide Preorder, IsDot;
    var tail, picked := entries[i..], [i] + rest;
    assert tail[0] == entries[i] && tail[1..] == entries[i + 1..];
    assert picked[0] == i && picked[1..] == rest;
  }

  lemma SelfFirst(path: string, n: Node)
    ensures Preorder(path, n) != []
  {
  }

  // Every listing begins with the node itself. There is no other call for what cannot be
  // stat'ed or is not a directory, and only the mark for a directory that cannot be read.
  lemma FirstCall(path: string, n: Node)
    ensures Preorder(path, n) != []
    ensures Preorder(path, n)[0] == Call(path, if n.NoStat? then FTW_NS else if n.File? then FTW_F(n.kind) else FTW_D)
    ensures |Preorder(path, n)| == 1 <==> n.NoStat? || n.File? || (n.readable && forall i ::
                0 <= i < |n.entries| ==> n.entries[i].name == "." || n.entries[i].name == "..")
    ensures n.Dir? && !n.readable ==> Preorder(path, n)[1..] == [Call(path + "/", FTW_DNR)]
  {
    if n.Dir? && n.readable {
      var picked := DirListing(path, n);
      if picked != [] {
        var e := n.entries[picked[0]];
        assert picked[0] in picked;
        SelfFirst(path + "/" + e.name, e);
      } else {
        assert forall i :: 0 <= i < |n.entries| ==> i !in picked;
      }
    }
  }

  // The user's function may depend on all calls made so far.
  type Func = seq<Call> -> int

  // Making the calls one by one until one returns nonzero.
  function Visit(func: Func, log: seq<Call>, calls: seq<Call>): (seq<Call>, int)
    decreases |calls|
  {
    if calls == [] then (log, 0)
    else
      var log1 := log + [calls[0]];
      if func(log1) != 0 then (log1, func(log1)) else Visit(func, log1, calls[1..])
  }

  lemma {:induction false} VisitConcat(func: Func, log: seq<Call>, a: seq<Call>, b: seq<Call>)
    ensures Visit(func, log, a + b) ==
            var (l, r) := Visit(func, log, a); if r != 0 then (l, r) else Visit(func, l, b)
    decreases |a|
  {
    if a == [] {
      assert a + b == b;
    } else {
      var log1 := log + [a[0]];
      assert (a + b)[1..] == a[1..] + b;
      if func(log1) == 0 { VisitConcat(func, log1, a[1..], b); }
    }
  }

  lemma VisitOne(func: Func, log: seq<Call>, c: Call)
    ensures var log1 := log + [c]; Visit(func, log, [c]) == (log1, func(log1))
  {
    assert [c][1..] == [];
    assert Visit(func, log + [c], []) == (log + [c], 0);
  }

  // A directory: its own call, then an unreadable mark or its entries.
  lemma VisitDir(func: Func, log: seq<Call>, path: string, n: Node)
    requires n.Dir?
    ensures var log1 := log + [Call(path, FTW_D)];
      Visit(func, log, Preorder(path, n)) ==
        if func(log1) != 0 then (log1, func(log1))
        else if !n.readable then
          var log2 := log1 + [Call(path + "/", FTW_DNR)]; (log2, func(log2))
        else Visit(func, log1, Children(path + "/", n.entries))
  {
    var d, u := Call(path, FTW_D), Call(path + "/", FTW_DNR);
    VisitOne(func, log, d);
    VisitOne(func, log + [d], u);
    if n.readable { VisitConcat(func, log, [d], Children(path + "/", n.entries)); }
    else {
      assert [d, u] == [d] + [u];
      VisitConcat(func, log, [d], [u]);
    }
  }

  // The entries from the i-th on: skip "." and "..", walk any other, go on.
  lemma VisitEntry(func: Func, log: seq<Call>, prefix: string, entries: seq<Node>, i: nat)
    requires i < |entries|
    ensures var e := entries[i]; var rest := Children(prefix, entries[i + 1..]);
      Visit(func, log, Children(prefix, entries[i..])) ==
        if IsDot(e.name) then Visit(func, log, rest)
        else
          var (l, r) := Visit(func, log, Preorder(prefix + e.name, e));
          if r != 0 then (l, r) else Visit(func, l, rest)
  {
    var rest := Children(prefix, entries[i + 1..]);
    assert entries[i..][1..] == entries[i + 1..];
    if IsDot(entries[i].name) { assert [] + rest == rest; }
    else { VisitConcat(func, log, Preorder(prefix + entries[i].name, entries[i]), rest); }
  }

  lemma VisitNothing(func: Func, log: seq<Call>, prefix: string, entries: seq<Node>)
    ensures Visit(func, log, Children(prefix, entries[|entries|..])) == (log, 0)
  {
  }

  // The calls made are a prefix of the listing, all but the last returned zero, and
  // the result is that of the last one if the walk stopped there.
  lemma {:induction false} VisitStopsAtFirst(func: Func, log: seq<Call>, calls: seq<Call>) returns (k: nat)
    ensures k <= |calls| && Visit(func, log, calls).0 == log + calls[..k]
    ensures forall i :: 1 <= i < k ==> func(log + calls[..i]) == 0
    ensures Visit(func, log, calls).1 == (if k == 0 then 0 else func(log + calls[..k]))
    ensures Visit(func, log, calls).1 == 0 ==> k == |calls|
    decreases |calls|
  {
    if calls == [] {
      k := 0;
      assert log + calls[..0] == log;
    } else {
      var log1 := log + [calls[0]];
      assert log + calls[..1] == log1;
      if func(log1) != 0 {
        k := 1;
      } else {
        var j := VisitStopsAtFirst(func, log1, calls[1..]);
        k := j + 1;
        forall i | 0 <= i <= j ensures log1 + calls[1..][..i] == log + calls[..i + 1] {
          assert calls[..i + 1] == [calls[0]] + calls[1..][..i];
        }
        forall i | 1 <= i < k ensures func(log + calls[..i]) == 0 {
          if i > 1 { assert func(log1 + calls[1..][..i - 1]) == 0; }
        }
      }
    }
  }

  // ---- The seven counters ----

  datatype Counters = Counters(nreg: nat, ndir: nat, nblk: nat, nchr: nat, nfifo: nat, nslink: nat, nsock: nat)

  const ZERO := Counters(0, 0, 0, 0, 0, 0, 0)

  function Total(c: Counters): nat {
    c.nreg + c.ndir + c.nblk + c.nchr + c.nfifo + c.nslink + c.nsock
  }

  function Bump(c: Counters, ty: Type): Counters {
    match ty
    case FTW_F(kind) =>
      (match kind
       case Reg => c.(nreg := c.nreg + 1)
       case Blk => c.(nblk := c.nblk + 1)
       case Chr => c.(nchr := c.nchr + 1)
       case Fifo => c.(nfifo := c.nfifo + 1)
       case Lnk => c.(nslink := c.nslink + 1)
       case Sock => c.(nsock := c.nsock + 1))
    case FTW_D => c.(ndir := c.ndir + 1)
    case FTW_DNR => c
    case FTW_NS => c
  }

  function Tallied(c: Counters, calls: seq<Call>): Counters
    decreases |calls|
  {
    if calls == [] then c else Tallied(Bump(c, calls[0].ty), calls[1..])
  }

  lemma {:induction false} TalliedConcat(c: Counters, a: seq<Call>, b: seq<Call>)
    ensures Tallied(c, a + b) == Tallied(Tallied(c, a), b)
    decreases |a|
  {
    if a == [] {
      assert a + b == b;
    } else {
      assert (a + b)[1..] == a[1..] + b;
      TalliedConcat(Bump(c, a[0].ty), a[1..], b);
    }
  }

  function Types(calls: seq<Call>): multiset<Type> {
    multiset(seq(|calls|, i requires 0 <= i < |calls| => calls[i].ty))
  }

  // Each counter is raised by the calls of its own type, once for each of them.
  lemma {:induction false} TalliedByType(c: Counters, calls: seq<Call>)
    ensures var m := Types(calls);
      Tallied(c, calls) ==
        Counters(c.nreg + m[FTW_F(Reg)], c.ndir + m[FTW_D], c.nblk + m[FTW_F(Blk)], c.nchr + m[FTW_F(Chr)],
                 c.nfifo + m[FTW_F(Fifo)], c.nslink + m[FTW_F(Lnk)], c.nsock + m[FTW_F(Sock)])
    decreases |calls|
  {
    hide Bump, Types;
    if calls == [] {
      NoTypes();
    } else {
      TypesOf(calls);
      BumpByType(c, calls[0].ty);
      TalliedByType(Bump(c, calls[0].ty), calls[1..]);
    }
  }

  lemma NoTypes()
    ensures Types([]) == multiset{}
  {
  }

  lemma BumpByType(c: Counters, ty: Type)
    ensures var m := multiset{ty};
      Bump(c, ty) ==
        Counters(c.nreg + m[FTW_F(Reg)], c.ndir + m[FTW_D], c.nblk + m[FTW_F(Blk)], c.nchr + m[FTW_F(Chr)],
                 c.nfifo + m[FTW_F(Fifo)], c.nslink + m[FTW_F(Lnk)], c.nsock + m[FTW_F(Sock)])
  {
  }

  lemma TypesOf(calls: seq<Call>)
    requires calls != []
    ensures Types(calls) == multiset{calls[0].ty} + Types(calls[1..])
  {
    var tys := seq(|calls|, i requires 0 <= i < |calls| => calls[i].ty);
    var tail := calls[1..];
    assert tys == [calls[0].ty] + seq(|tail|, i requires 0 <= i < |tail| => tail[i].ty);
  }

  // Nodes of the tree that can be stat'ed and are reached: not below a directory
  // that cannot be read, and not the entries "." and "..".
  function Statable(n: Node): nat
    decreases n, 1
  {
    match n
    case NoStat(_) => 0
    case File(_, _) => 1
    case Dir(_, readable, entries) => 1 + if readable then StatableIn(entries) else 0
  }

  function StatableIn(entries: seq<Node>): nat
    decreases entries, 0
  {
    if entries == [] then 0
    else (if IsDot(entries[0].name) then 0 else Statable(entries[0])) + StatableIn(entries[1..])
  }

  // Counting in two stretches is counting in one.
  lemma TalliedOn(c: Counters, l0: seq<Call>, l1: seq<Call>, l2: seq<Call>)
    requires l0 <= l1 <= l2
    ensures Tallied(Tallied(c, l1[|l0|..]), l2[|l1|..]) == Tallied(c, l2[|l0|..])
  {
    TalliedConcat(c, l1[|l0|..], l2[|l1|..]);
    assert l2[|l0|..] == l1[|l0|..] + l2[|l1|..];
  }

  lemma TalliedNone(c: Counters, l: seq<Call>)
    ensures Tallied(c, l[|l|..]) == c
  {
  }

  lemma TalliedOne(c: Counters, l0: seq<Call>, call: Call)
    ensures Tallied(c, (l0 + [call])[|l0|..]) == Bump(c, call.ty)
  {
    assert (l0 + [call])[|l0|..] == [call] && [call][1..] == [];
    assert Tallied(Bump(c, call.ty), [call][1..]) == Bump(c, call.ty);
  }

  // A complete walk counts every node that could be stat'ed exactly once.
  lemma {:induction false} CountsStatable(c: Counters, path: string, n: Node)
    ensures Total(Tallied(c, Preorder(path, n))) == Total(c) + Statable(n)
    decreases n, 1
  {
    match n
    case NoStat(_) =>
    case File(_, _) =>
    case Dir(_, readable, entries) =>
      var d := Bump(c, FTW_D);
      if readable {
        TalliedConcat(c, [Call(path, FTW_D)], Children(path + "/", entries));
        CountsStatableIn(d, path + "/", entries);
      } else {
        var calls := Preorder(path, n);
        assert calls[1..] == [Call(path + "/", FTW_DNR)] && calls[1..][1..] == [];
        assert Tallied(c, calls) == Tallied(d, calls[1..]) == Tallied(d, []);
      }
  }

  lemma {:induction false} CountsStatableIn(c: Counters, prefix: string, entries: seq<Node>)
    ensures Total(Tallied(c, Children(prefix, entries))) == Total(c) + StatableIn(entries)
    decreases entries, 0
  {
    if entries != [] {
      var first := if IsDot(entries[0].name) then [] else Preorder(prefix + entries[0].name, entries[0]);
      TalliedConcat(c, first, Children(prefix, entries[1..]));
      if !IsDot(entries[0].name) { CountsStatable(c, prefix + entries[0].name, entries[0]); }
      CountsStatableIn(Tallied(c, first), prefix, entries[1..]);
    }
  }

  // ---- The buffer ----

  // Names as file systems give them: no NUL, at most NAME_MAX long.
  predicate NamesOk(n: Node)
    decreases n, 1
  {
    && '\0' !in n.name && |n.name| <= NAME_MAX
    && (n.Dir? ==> EntriesOk(n.entries))
  }

  predicate EntriesOk(entries: seq<Node>)
    decreases entries, 0
  {
    entries != [] ==> NamesOk(entries[0]) && EntriesOk(entries[1..])
  }

  lemma {:induction false} EntryOk(entries: seq<Node>, i: nat)
    requires EntriesOk(entries) && i < |entries|
    ensures NamesOk(entries[i]) && EntriesOk(entries[i..])
    decreases i
  {
    if i > 0 {
      EntryOk(entries[1..], i - 1);
      assert entries[1..][i - 1..] == entries[i..];
    }
  }

  // The buffer size after the check that precedes appending a slash and a name to
  // a path of length n.
  function Grown(n: nat, len: nat): nat {
    if n + NAME_MAX + 2 > len then 2 * len else len
  }

  ghost predicate Fits(n: nat, len: nat) {
    n + NAME_MAX + 2 <= Grown(n, len)
  }

  // That one doubling makes room for every path that fits, exactly when the buffer
  // has more than NAME_MAX bytes.
  lemma DoublingSuffices(len: nat)
    requires len > 0
    ensures (forall n: nat :: n < len ==> Fits(n, len)) <==> len > NAME_MAX
  {
    if len <= NAME_MAX { assert !Fits(len - 1, len); }
  }

  // ---- path_alloc ----

  const PATH_MAX_GUESS: int := 1024

  datatype Pathconf = Limit(n: nat) | Indeterminate | Failed

  // The static variables of path_alloc; 0 means not asked yet.
  class PathLimits {
    var pathmax: int
    var posixVersion: int
    var xsiVersion: int

    // `pathMax` is PATH_MAX where the system defines it, else 0.
    constructor (pathMax: nat)
      ensures pathmax == pathMax && posixVersion == 0 && xsiVersion == 0
    {
      pathmax := pathMax;
      posixVersion := 0;
      xsiVersion := 0;
    }

    // The arguments are what sysconf and pathconf report; None is the exit on error. The
    // terminating null is extra space only before POSIX.1-2001 and XPG4.
    // On systems whose limits meet the POSIX minimum the buffer has more than
    // NAME_MAX bytes, and once the answers are kept later calls give the same size.
    method PathAlloc(posix: int, xsi: int, conf: Pathconf) returns (size: Option<int>)
      modifies this
      ensures size.None? <==> old(pathmax) == 0 && conf.Failed?
      ensures size.Some? ==>
                && (size.value == pathmax + 1 <==> posixVersion < 200112 && xsiVersion < 4)
                && (size.value == pathmax <==> posixVersion >= 200112 || xsiVersion >= 4)
      ensures size.Some? && (old(pathmax) > NAME_MAX || (old(pathmax) == 0 && (conf.Limit? ==> conf.n >= NAME_MAX))) ==>
                size.value > NAME_MAX
      ensures size.Some? ==>
                pathmax == if old(pathmax) != 0 then old(pathmax)
                           else if conf.Limit? then conf.n + 1 else PATH_MAX_GUESS
      ensures posixVersion == if old(posixVersion) != 0 then old(posixVersion) else posix
      ensures xsiVersion == if old(xsiVersion) != 0 then old(xsiVersion) else xsi
    {
      if posixVersion == 0 { posixVersion := posix; }
      if xsiVersion == 0 { xsiVersion := xsi; }
      if pathmax == 0 {
        match conf {
          case Limit(n) => pathmax := n + 1;
          case Indeterminate => pathmax := PATH_MAX_GUESS;
          case Failed => return None;
        }
      }
      size := Some(if posixVersion < 200112 && xsiVersion < 4 then pathmax + 1 else pathmax);
    }
  }

  class Walker {
    var fullpath: array<char>
    var pathlen: nat
    const func: Func
    var log: seq<Call>        // every call of func, in order
    var counts: Counters      // nreg, ndir, ...

    ghost predicate Valid()
      reads this
    {
      pathlen == fullpath.Length > NAME_MAX
    }

    // The buffer holds the C string p.
    ghost predicate Holds(p: string)
      reads this, fullpath
    {
      '\0' !in p && |p| < fullpath.Length && fullpath[..|p|] == p && fullpath[|p|] == '\0'
    }

    // `size` is what path_alloc gives.
    constructor (size: nat, func: Func)
      requires size > NAME_MAX
      ensures Valid() && fresh(fullpath) && pathlen == size && this.func == func
      ensures log == [] && counts == ZERO
    {
      fullpath := new char[size];
      pathlen := size;
      this.func := func;
      log := [];
      counts := ZERO;
    }

    method Strlen(ghost p: string) returns (n: nat)
      requires Holds(p)
      ensures n == |p|
    {
      n := 0;
      while fullpath[n] != '\0'
        invariant n <= |p|
        decreases |p| - n
      {
        assert fullpath[..|p|][n] == fullpath[n];
        n := n + 1;
      }
    }

    // strcpy(&fullpath[at], name): every byte written lies inside the buffer.
    method Strcpy(at: nat, name: string)
      requires Valid() && '\0' !in name && at + |name| < fullpath.Length
      modifies fullpath
      ensures fullpath[..at] == old(fullpath[..at])
      ensures fullpath[..at + |name|] == old(fullpath[..at]) + name && fullpath[at + |name|] == '\0'
    {
      var i := 0;
      while i < |name|
        invariant 0 <= i <= |name|
        invariant fullpath[..at] == old(fullpath[..at])
        invariant fullpath[at..at + i] == name[..i]
      {
        fullpath[at + i] := name[i];
        assert fullpath[at..at + i + 1] == fullpath[at..at + i] + [name[i]];
        i := i + 1;
      }
      fullpath[at + |name|] := '\0';
      assert fullpath[..at + |name|] == fullpath[..at] + fullpath[at..at + |name|];
    }

    // realloc(fullpath, size): a new buffer that begins with the old contents.
    method Realloc(size: nat)
      requires size >= fullpath.Length
      modifies this`fullpath
      ensures fresh(fullpath) && fullpath.Length == size
      ensures fullpath[..old(fullpath.Length)] == old(fullpath[..])
    {
      var a := new char[size];
      var i := 0;
      while i < fullpath.Length
        modifies a
        invariant 0 <= i <= fullpath.Length
        invariant a[..i] == fullpath[..i]
      {
        a[i] := fullpath[i];
        i := i + 1;
      }
      assert fullpath[..fullpath.Length] == fullpath[..];
      fullpath := a;
    }

    // A call of the user's function with the path in the buffer; the counting is
    // what myfunc does.
    method CallFunc(ty: Type, ghost p: string) returns (ret: int)
      requires Holds(p)
      modifies this`log, this`counts
      ensures log == old(log) + [Call(p, ty)] && ret == func(log)
      ensures counts == Bump(old(counts), ty)
    {
      var n := Strlen(p);
      log := log + [Call(fullpath[..n], ty)];
      match ty {
        case FTW_F(kind) =>
          match kind {
            case Reg => counts := counts.(nreg := counts.nreg + 1);
            case Blk => counts := counts.(nblk := counts.nblk + 1);
            case Chr => counts := counts.(nchr := counts.nchr + 1);
            case Fifo => counts := counts.(nfifo := counts.nfifo + 1);
            case Lnk => counts := counts.(nslink := counts.nslink + 1);
            case Sock => counts := counts.(nsock := counts.nsock + 1);
          }
        case FTW_D => counts := counts.(ndir := counts.ndir + 1);
        case FTW_DNR =>
        case FTW_NS =>
      }
      ret := func(log);
    }

    // Grows the buffer if a name might not fit, and appends the slash.
    method AppendSlash(ghost p: string) returns (len: nat)
      requires Valid() && Holds(p)
      modifies this`fullpath, this`pathlen, fullpath
      ensures Valid() && pathlen == Grown(|p|, old(pathlen))
      ensures fullpath == old(fullpath) || fresh(fullpath)
      ensures len == |p| + 1 && Holds(p + "/") && len + NAME_MAX + 1 <= pathlen
    {
      len := Strlen(p);
      assert Fits(len, pathlen);
      if len + NAME_MAX + 2 > pathlen {
        pathlen := pathlen * 2;
        Realloc(pathlen);
      }
      fullpath[len] := '/';
      len := len + 1;
      fullpath[len] := '\0';
      assert fullpath[..len] == p + "/";
    }

    // Walks the node that the path in the buffer names.
    method Dopath(n: Node, ghost p: string) returns (ret: int)
      requires Valid() && Holds(p) && NamesOk(n)
      modifies this, fullpath
      ensures Valid() && pathlen >= old(pathlen) && (fullpath == old(fullpath) || fresh(fullpath))
      ensures (log, ret) == Visit(func, old(log), Preorder(p, n))
      ensures old(log) <= log && counts == Tallied(old(counts), log[|old(log)|..])
      ensures |p| < fullpath.Length && fullpath[..|p|] == p
      ensures if n.Dir? && !n.readable && func(old(log) + [Call(p, FTW_D)]) == 0 then Holds(p + "/") else Holds(p)
      decreases n, 1
    {
      hide Visit, Tallied, Children, Bump;
      ghost var log0, counts0 := log, counts;
      if n.NoStat? {
        ret := CallFunc(FTW_NS, p);
        VisitOne(func, log0, Call(p, FTW_NS));
        TalliedOne(counts0, log0, Call(p, FTW_NS));
        return;
      }
      if n.File? {
        ret := CallFunc(FTW_F(n.kind), p);
        VisitOne(func, log0, Call(p, FTW_F(n.kind)));
        TalliedOne(counts0, log0, Call(p, FTW_F(n.kind)));
        return;
      }
      ret := CallFunc(FTW_D, p);
      VisitDir(func, log0, p, n);
      TalliedOne(counts0, log0, Call(p, FTW_D));
      if ret != 0 { return; }
      ret := DopathDir(n, p, log0, counts0);
    }

    // The rest of dopath, after the directory itself has been reported.
    method DopathDir(n: Node, ghost p: string, ghost log0: seq<Call>, ghost counts0: Counters) returns (ret: int)
      requires Valid() && Holds(p) && NamesOk(n) && n.Dir?
      requires log0 <= log && counts == Tallied(counts0, log[|log0|..])
      modifies this, fullpath
      ensures Valid() && pathlen >= old(pathlen) && (fullpath == old(fullpath) || fresh(fullpath))
      ensures if n.readable then (log, ret) == Visit(func, old(log), Children(p + "/", n.entries))
              else log == old(log) + [Call(p + "/", FTW_DNR)] && ret == func(log)
      ensures log0 <= log && counts == Tallied(counts0, log[|log0|..])
      ensures |p| < fullpath.Length && fullpath[..|p|] == p
      ensures if n.readable then Holds(p) else Holds(p + "/")
      decreases n, 1, 0
    {
      hide Visit, Tallied, Children, Bump;
      ghost var log1 := log;
      var len := AppendSlash(p);
      if !n.readable {
        ret := CallFunc(FTW_DNR, p + "/");
        TalliedOne(Tallied(counts0, log1[|log0|..]), log1, Call(p + "/", FTW_DNR));
        TalliedOn(counts0, log0, log1, log);
        assert (p + "/")[..|p|] == p;
        return;
      }
      ret := WalkEntries(n, p + "/", len);
      fullpath[len - 1] := '\0';
      assert (p + "/")[..len - 1] == p;
      TalliedOn(counts0, log0, log1, log);
    }

    // The loop of dopath over the entries of a readable directory.
    method WalkEntries(n: Node, ghost prefix: string, len: nat) returns (ret: int)
      requires Valid() && Holds(prefix) && len == |prefix| && len + NAME_MAX + 1 <= pathlen
      requires n.Dir? && EntriesOk(n.entries)
      modifies this, fullpath
      ensures Valid() && pathlen >= old(pathlen) && (fullpath == old(fullpath) || fresh(fullpath))
      ensures (log, ret) == Visit(func, old(log), Children(prefix, n.entries))
      ensures old(log) <= log && counts == Tallied(old(counts), log[|old(log)|..])
      ensures fullpath[..len] == prefix
      decreases n, 0
    {
      hide Tallied, Preorder, IsDot, Visit, Children;
      ghost var log0, counts0 := log, counts;
      ghost var whole := Visit(func, log, Children(prefix, n.entries));
      assert n.entries[0..] == n.entries;
      assert Tallied(counts0, log0[|log0|..]) == counts0 by { TalliedNone(counts0, log0); }
      var i := 0;
      ret := 0;
      while i < |n.entries|
        invariant 0 <= i <= |n.entries| && ret == 0
        invariant Valid() && pathlen >= old(pathlen) && (fullpath == old(fullpath) || fresh(fullpath))
        invariant fullpath[..len] == prefix
        invariant log0 <= log && counts == Tallied(counts0, log[|log0|..])
        invariant whole == Visit(func, log, Children(prefix, n.entries[i..]))
      {
        var e := n.entries[i];
        EntryOk(n.entries, i);
        VisitEntry(func, log, prefix, n.entries, i);
        if IsDot(e.name) {
          i := i + 1;
          continue;
        }
        Strcpy(len, e.name);
        ghost var log1, path := log, prefix + e.name;
        assert Holds(path);
        ret := Dopath(e, path);
        assert path[..len] == prefix;
        TalliedOn(counts0, log0, log1, log);
        if ret != 0 { return; }
        i := i + 1;
      }
      VisitNothing(func, log, prefix, n.entries);
    }

    // myftw: copies the starting pathname into the buffer and walks.
    method Myftw(pathname: string, n: Node) returns (ret: int)
      requires Valid() && '\0' !in pathname && NamesOk(n) && log == [] && counts == ZERO
      modifies this, fullpath
      ensures (log, ret) == Visit(func, [], Preorder(pathname, n))
      ensures counts == Tallied(ZERO, log)
    {
      if pathlen <= |pathname| {
        pathlen := |pathname| * 2;
        Realloc(pathlen);
      }
      Strcpy(0, pathname);
      assert fullpath[..0] + pathname == pathname;
      ret := Dopath(n, pathname);
      assert log[0..] == log;
    }
  }

  lemma {:induction false} VisitAll(func: Func, log: seq<Call>, calls: seq<Call>)
    requires forall l :: func(l) == 0
    ensures Visit(func, log, calls) == (log + calls, 0)
    decreases |calls|
  {
    if calls != [] {
      VisitAll(func, log + [calls[0]], calls[1..]);
      assert log + [calls[0]] + calls[1..] == log + calls;
    } else {
      assert log + calls == log;
    }
  }

  // With a function that never stops the walk (myfunc), the calls made are the
  // whole listing; each counter is the number of its calls in it, and the seven add
  // up to the nodes that could be stat'ed.
  lemma FullWalkCounts(func: Func, pathname: string, n: Node)
    requires forall l :: func(l) == 0
    ensures Visit(func, [], Preorder(pathname, n)) == (Preorder(pathname, n), 0)
    ensures var m := Types(Preorder(pathname, n));
      Tallied(ZERO, Preorder(pathname, n)) ==
        Counters(m[FTW_F(Reg)], m[FTW_D], m[FTW_F(Blk)], m[FTW_F(Chr)], m[FTW_F(Fifo)], m[FTW_F(Lnk)], m[FTW_F(Sock)])
    ensures Total(Tallied(ZERO, Preorder(pathname, n))) == Statable(n)
  {
    hide Types, Statable, Preorder, Tallied, Visit;
    TalliedByType(ZERO, Preorder(pathname, n));
    VisitAll(func, [], Preorder(pathname, n));
    assert [] + Preorder(pathname, n) == Preorder(pathname, n);
    CountsStatable(ZERO, pathname, n);
  }
}
