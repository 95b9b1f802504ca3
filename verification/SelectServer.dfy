/** The bookkeeping of the select server: the client table, the set of watched
    descriptors, the largest index and descriptor in use, and the countdown of
    ready descriptors within one pass of the event loop. */
module SelectServer {

  const FD_SETSIZE: nat := 1024

  // What the system calls of one pass give: the descriptors select marks ready, the
  // descriptor a connection is accepted on, and the clients whose read finds the end.
  datatype Input = Input(ready: set<int>, connfd: int, eof: set<int>)

  // select watches `watched` up to `maxfd` and marks at least one; accept returns a
  // descriptor that is not open.
  predicate Possible(watched: set<int>, maxfd: int, inp: Input) {
    && inp.ready <= watched && inp.ready != {} && (forall fd :: fd in inp.ready ==> fd <= maxfd)
    && inp.connfd >= 0 && inp.connfd !in watched
  }

  // ---- The client table as a sequence ----

  function Fds(c: seq<int>): set<int> {
    set i | 0 <= i < |c| && c[i] >= 0 :: c[i]
  }

  ghost predicate Distinct(c: seq<int>) {
    forall i, j :: 0 <= i < j < |c| && c[i] >= 0 ==> c[i] != c[j]
  }

  // The index of the first free slot, or the length if there is none.
  function FirstFree(c: seq<int>): (i: nat)
    ensures i <= |c|
    ensures forall j :: 0 <= j < i ==> c[j] >= 0
    ensures i < |c| ==> c[i] < 0
  {
    if c == [] then 0 else if c[0] < 0 then 0 else 1 + FirstFree(c[1..])
  }

  lemma FirstFreeIs(c: seq<int>, i: nat)
    requires i <= |c| && (forall j :: 0 <= j < i ==> c[j] >= 0) && (i < |c| ==> c[i] < 0)
    ensures FirstFree(c) == i
  {
  }

  function Insert(c: seq<int>, fd: int): seq<int> {
    if FirstFree(c) < |c| then c[FirstFree(c) := fd] else c
  }

  // The ready clients in table order.
  function ReadyIn(c: seq<int>, ready: set<int>): seq<int> {
    if c == [] then []
    else (if c[0] >= 0 && c[0] in ready then [c[0]] else []) + ReadyIn(c[1..], ready)
  }

  // The table after every ready client at end of file has been dropped.
  function DropEof(c: seq<int>, inp: Input): (d: seq<int>)
    ensures |d| == |c|
  {
    seq(|c|, i requires 0 <= i < |c| => if c[i] >= 0 && c[i] in inp.ready && c[i] in inp.eof then -1 else c[i])
  }

  // The table that a pass serves: with the new connection in the first free slot.
  function Served(c: seq<int>, listenfd: int, inp: Input): seq<int> {
    if listenfd in inp.ready then Insert(c, inp.connfd) else c
  }

  // What a pass leaves of the set, in terms of what was ready: the new connection is in
  // it, the clients that were ready and at end of file are not.
  ghost predicate SetAfter(watched: set<int>, maxfd: int, listenfd: int, inp: Input, watched': set<int>, maxfd': int) {
    && watched' == watched + (if listenfd in inp.ready then {inp.connfd} else {}) - (inp.ready * inp.eof - {listenfd})
    && maxfd' == if listenfd in inp.ready && inp.connfd > maxfd then inp.connfd else maxfd
  }

  // What it leaves of the table: a client keeps its slot unless it was ready and at end of
  // file; the first free slot has the new connection; any other free slot is as it was.
  ghost predicate TableAfter(c: seq<int>, maxi: int, listenfd: int, inp: Input, c': seq<int>, maxi': int) {
    && |c'| == |c|
    && (forall i :: 0 <= i < |c| ==>
          c'[i] == if c[i] >= 0 then (if c[i] in inp.ready && c[i] in inp.eof then -1 else c[i])
                   else if listenfd in inp.ready && (forall j :: 0 <= j < i ==> c[j] >= 0) then inp.connfd
                   else c[i])
    && (listenfd !in inp.ready ==> maxi' == maxi)
    && (forall i :: 0 <= i < |c| && listenfd in inp.ready && c[i] < 0 && (forall j :: 0 <= j < i ==> c[j] >= 0) ==>
          maxi' == if i > maxi then i else maxi)
  }

  // What holds at the head of the event loop. An fd_set has room for FD_SETSIZE
  // descriptors only.
  ghost predicate Consistent(c: seq<int>, listenfd: int, watched: set<int>, maxi: int, maxfd: int) {
    && |c| == FD_SETSIZE && listenfd >= 0 && -1 <= maxi < FD_SETSIZE
    && watched == {listenfd} + Fds(c)
    && Distinct(c) && listenfd !in Fds(c)
    && (forall i :: 0 <= i < |c| && c[i] >= 0 ==> i <= maxi && c[i] <= maxfd)
    && listenfd <= maxfd < FD_SETSIZE
  }

  // ---- Facts about the table ----

  lemma {:induction false} ReadyInSnoc(c: seq<int>, ready: set<int>, i: nat)
    requires i < |c|
    ensures ReadyIn(c[..i + 1], ready) ==
            ReadyIn(c[..i], ready) + (if c[i] >= 0 && c[i] in ready then [c[i]] else [])
  {
    if i == 0 {
      assert c[..1] == [c[0]] && [c[0]][1..] == [];
    } else {
      ReadyInSnoc(c[1..], ready, i - 1);
      assert c[..i + 1][1..] == c[1..][..i] && c[..i][1..] == c[1..][..i - 1];
    }
  }

  lemma FdsHead(c: seq<int>)
    requires c != []
    ensures Fds(c) == Fds(c[1..]) + (if c[0] >= 0 then {c[0]} else {})
  {
    forall x | x in Fds(c[1..]) ensures x in Fds(c) {
      var i :| 0 <= i < |c[1..]| && c[1..][i] == x && x >= 0;
      assert c[i + 1] == x;
    }
    forall x | x in Fds(c) && x != c[0] ensures x in Fds(c[1..]) {
      var i :| 0 <= i < |c| && c[i] == x && x >= 0;
      assert c[1..][i - 1] == x;
    }
  }

  lemma {:induction false} ReadyInMembers(c: seq<int>, ready: set<int>)
    ensures forall fd :: fd in ReadyIn(c, ready) <==> fd in Fds(c) && fd in ready
  {
    if c != [] {
      FdsHead(c);
      ReadyInMembers(c[1..], ready);
      hide Fds;
    }
  }

  lemma ReadyInEmpty(c: seq<int>, ready: set<int>)
    ensures ReadyIn(c, ready) == [] <==> Fds(c) * ready == {}
  {
    ReadyInMembers(c, ready);
    hide Fds;
    var r := ReadyIn(c, ready);
    if r != [] {
      var fd := r[0];
      assert fd in r;
      assert fd in ReadyIn(c, ready) <==> fd in Fds(c) && fd in ready;
      assert fd in Fds(c) * ready;
    }
    forall fd | fd in Fds(c) * ready ensures r != [] { assert fd in r; }
  }

  // With distinct entries, every ready client occurs exactly once.
  lemma {:induction false} ReadyInOnce(c: seq<int>, ready: set<int>)
    requires Distinct(c)
    ensures multiset(ReadyIn(c, ready)) == multiset(Fds(c) * ready)
    ensures |ReadyIn(c, ready)| == |Fds(c) * ready|
  {
    if c != [] {
      var tail := c[1..];
      DistinctTail(c);
      ReadyInOnce(tail, ready);
      FdsHead(c);
      OneMore(c, ready, Fds(tail), Fds(c), ReadyIn(tail, ready));
    }
  }

  lemma OneMore(c: seq<int>, ready: set<int>, rest: set<int>, all: set<int>, served: seq<int>)
    requires c != [] && (c[0] >= 0 ==> c[0] !in rest)
    requires all == rest + (if c[0] >= 0 then {c[0]} else {})
    requires multiset(served) == multiset(rest * ready) && |served| == |rest * ready|
    ensures var head := if c[0] >= 0 && c[0] in ready then [c[0]] else [];
      multiset(head + served) == multiset(all * ready) && |head + served| == |all * ready|
  {
    if c[0] >= 0 && c[0] in ready {
      assert all * ready == rest * ready + {c[0]};
    } else {
      assert all * ready == rest * ready;
      assert [] + served == served;
    }
  }

  lemma DistinctTail(c: seq<int>)
    requires c != [] && Distinct(c)
    ensures Distinct(c[1..]) && (c[0] >= 0 ==> c[0] !in Fds(c[1..]))
  {
    assert forall i :: 0 <= i < |c[1..]| ==> c[1..][i] == c[i + 1];
  }

  lemma {:induction false} ReadyInConcat(a: seq<int>, b: seq<int>, ready: set<int>)
    ensures ReadyIn(a + b, ready) == ReadyIn(a, ready) + ReadyIn(b, ready)
  {
    if a == [] {
      assert a + b == b;
    } else {
      assert (a + b)[1..] == a[1..] + b;
      ReadyInConcat(a[1..], b, ready);
    }
  }

  // No entry is ready when the list of ready ones is empty.
  lemma NotReady(c: seq<int>, ready: set<int>)
    requires ReadyIn(c, ready) == []
    ensures forall j :: 0 <= j < |c| && c[j] >= 0 ==> c[j] !in ready
  {
    ReadyInMembers(c, ready);
    forall j | 0 <= j < |c| && c[j] >= 0 ensures c[j] !in ready { assert c[j] in Fds(c) && c[j] !in ReadyIn(c, ready); }
  }

  lemma {:induction false} NegativeNotReady(c: seq<int>, ready: set<int>)
    requires forall j :: 0 <= j < |c| ==> c[j] < 0
    ensures ReadyIn(c, ready) == []
  {
    if c != [] { NegativeNotReady(c[1..], ready); }
  }

  // The countdown never cuts a pass short: once as many clients have been served as
  // were ready, or the largest used index is passed, no ready client is left.
  lemma NoneLeft(c: seq<int>, inp: Input, i: nat)
    requires Distinct(c) && i <= |c|
    requires |ReadyIn(c[..i], inp.ready)| == |Fds(c) * inp.ready| || forall j :: i <= j < |c| ==> c[j] < 0
    ensures ReadyIn(c, inp.ready) == ReadyIn(c[..i], inp.ready)
    ensures DropEof(c, inp)[i..] == c[i..]
    ensures Fds(c) * inp.ready == Fds(c[..i]) * inp.ready
  {
    hide ReadyIn, Fds, Distinct;
    assert c == c[..i] + c[i..];
    ReadyInConcat(c[..i], c[i..], inp.ready);
    ReadyInOnce(c, inp.ready);
    ReadyInMembers(c[..i], inp.ready);
    ReadyInMembers(c, inp.ready);
    if ReadyIn(c[i..], inp.ready) != [] { NegativeNotReady(c[i..], inp.ready); }
    NotReady(c[i..], inp.ready);
    forall fd ensures fd in Fds(c) * inp.ready <==> fd in Fds(c[..i]) * inp.ready {
      assert fd in ReadyIn(c, inp.ready) <==> fd in Fds(c) && fd in inp.ready;
      assert fd in ReadyIn(c[..i], inp.ready) <==> fd in Fds(c[..i]) && fd in inp.ready;
    }
    forall j | i <= j < |c| ensures DropEof(c, inp)[j] == c[j] { assert c[i..][j - i] == c[j]; }
  }

  // Accepting a connection keeps the table consistent.
  lemma InsertConsistent(c: seq<int>, listenfd: int, watched: set<int>, maxi: int, maxfd: int, fd: int)
    requires Consistent(c, listenfd, watched, maxi, maxfd) && 0 <= fd < FD_SETSIZE && fd !in watched
    requires FirstFree(c) < |c|
    ensures var i := FirstFree(c);
      Consistent(Insert(c, fd), listenfd, watched + {fd},
                 if i > maxi then i else maxi, if fd > maxfd then fd else maxfd)
  {
    var i := FirstFree(c);
    var d := Insert(c, fd);
    forall x | x in Fds(c) + {fd} ensures x in Fds(d) {
      if x == fd { assert d[i] == fd; }
      else { var j :| 0 <= j < |c| && c[j] == x && c[j] >= 0; assert d[j] == x; }
    }
    assert Fds(d) == Fds(c) + {fd};
  }

  // Dropping clients at end of file removes exactly them from the watched set.
  lemma DropConsistent(c: seq<int>, listenfd: int, watched: set<int>, maxi: int, maxfd: int, inp: Input)
    requires Consistent(c, listenfd, watched, maxi, maxfd)
    ensures Consistent(DropEof(c, inp), listenfd, watched - (Fds(c) * inp.ready * inp.eof), maxi, maxfd)
  {
    var d := DropEof(c, inp);
    forall x | x in Fds(c) - (Fds(c) * inp.ready * inp.eof) ensures x in Fds(d) {
      var j :| 0 <= j < |c| && c[j] == x && c[j] >= 0;
      assert d[j] == x;
    }
    assert Fds(d) == Fds(c) - (Fds(c) * inp.ready * inp.eof);
  }

  // What the loop over the table has done when it is about to look at entry `i`:
  // `c` and `watched` are as the loop found them, `t` and `left` as they are now.
  ghost predicate Upto(c: seq<int>, watched: set<int>, inp: Input, i: nat, t: seq<int>, left: set<int>,
                       served: seq<int>)
  {
    && i <= |c| == |t|
    && (forall j :: 0 <= j < i ==> t[j] == DropEof(c, inp)[j])
    && t[i..] == c[i..]
    && served == ReadyIn(c[..i], inp.ready)
    && left == watched - (Fds(c[..i]) * inp.ready * inp.eof)
  }

  lemma BeforeLoop(c: seq<int>, listenfd: int, watched: set<int>, maxi: int, maxfd: int, inp: Input)
    requires Consistent(c, listenfd, watched, maxi, maxfd)
    ensures |c| == FD_SETSIZE && maxi < FD_SETSIZE
    ensures Upto(c, watched, inp, 0, c, watched, [])
  {
  }

  // What looking at one more entry adds.
  lemma UptoNext(c: seq<int>, watched: set<int>, inp: Input, i: nat, t: seq<int>, left: set<int>, served: seq<int>)
    requires Upto(c, watched, inp, i, t, left, served) && i < |c|
    ensures var fd := t[i];
      if fd >= 0 && fd in inp.ready then
        var gone := fd in inp.eof;
        Upto(c, watched, inp, i + 1, if gone then t[i := -1] else t, if gone then left - {fd} else left, served + [fd])
      else
        Upto(c, watched, inp, i + 1, t, left, served)
  {
    var fd := t[i];
    assert fd == t[i..][0] == c[i];
    ReadyInSnoc(c, inp.ready, i);
    FdsSnoc(c, i);
    assert t[i..][1..] == t[i + 1..] && c[i..][1..] == c[i + 1..] && t[i := -1][i + 1..] == t[i + 1..];
    hide Fds, ReadyIn;
  }

  // The loop may stop at `i` when it has served as many clients as were ready, or is
  // past the last entry in use.
  lemma UptoEnd(c: seq<int>, listenfd: int, watched: set<int>, maxi: int, maxfd: int, inp: Input,
                i: nat, t: seq<int>, left: set<int>, served: seq<int>)
    requires Consistent(c, listenfd, watched, maxi, maxfd)
    requires Upto(c, watched, inp, i, t, left, served)
    requires |served| == |Fds(c) * inp.ready| || maxi < i
    ensures t == DropEof(c, inp) && served == ReadyIn(c, inp.ready)
    ensures left == watched - (Fds(c) * inp.ready * inp.eof)
    ensures Consistent(t, listenfd, left, maxi, maxfd)
  {
    hide Fds, DropEof, ReadyIn, Distinct;
    ReadyInOnce(c, inp.ready);
    NoneLeft(c, inp, i);
    DropConsistent(c, listenfd, watched, maxi, maxfd, inp);
    hide Consistent;
    TableDone(DropEof(c, inp), c, i, t);
    assert Fds(c[..i]) * inp.ready * inp.eof == Fds(c) * inp.ready * inp.eof;
  }

  lemma TableDone(d: seq<int>, c: seq<int>, i: nat, t: seq<int>)
    requires |d| == |c| == |t| && i <= |c| && t[i..] == c[i..] == d[i..]
    requires forall j :: 0 <= j < i ==> t[j] == d[j]
    ensures t == d
  {
    forall j | i <= j < |c| ensures t[j] == d[j] { assert t[i..][j - i] == d[i..][j - i]; }
  }

  // ---- The server ----

  // How taking in a connection may end: the descriptor is watched; there is no slot and
  // the server gives up; or FD_SET is called for a descriptor an fd_set has no room for,
  // which is undefined.
  datatype Outcome = Watched | TooMany | OutOfRange

  // What makes a pass end that way.
  predicate Overruns(listenfd: int, inp: Input) {
    listenfd in inp.ready && inp.connfd >= FD_SETSIZE
  }

  class Server {
    const listenfd: int
    const client: array<int>
    var allset: set<int>
    var maxi: int
    var maxfd: int

    ghost predicate Valid()
      reads this, client
    {
      Consistent(client[..], listenfd, allset, maxi, maxfd)
    }

    constructor (listenfd: int)
      requires 0 <= listenfd < FD_SETSIZE
      ensures Valid() && this.listenfd == listenfd && fresh(client)
      ensures allset == {listenfd}
    {
      this.listenfd := listenfd;
      client := new int[FD_SETSIZE];
      allset := {listenfd};
      maxfd := listenfd;
      maxi := -1;
      new;
      var i := 0;
      while i < FD_SETSIZE
        modifies client
        invariant 0 <= i <= FD_SETSIZE
        invariant forall j :: 0 <= j < i ==> client[j] == -1
      {
        client[i] := -1;
        i := i + 1;
      }
      assert Fds(client[..]) == {};
    }

    // The loop that looks for a free slot for a new connection.
    method FindSlot() returns (i: nat)
      requires client.Length == FD_SETSIZE
      ensures i == FirstFree(client[..])
    {
      i := 0;
      while i < FD_SETSIZE
        invariant i <= FD_SETSIZE
        invariant forall j :: 0 <= j < i ==> client[j] >= 0
      {
        if client[i] < 0 { break; }
        i := i + 1;
      }
      FirstFreeIs(client[..], i);
    }

    // Takes in a new connection. There is always a slot, so giving up for want of one
    // never comes first.
    method AcceptClient(connfd: int) returns (out: Outcome)
      requires Valid() && connfd >= 0 && connfd !in allset
      modifies this`allset, this`maxi, this`maxfd, client
      ensures out != TooMany && (out == OutOfRange <==> connfd >= FD_SETSIZE)
      ensures client[..] == Insert(old(client[..]), connfd)
      ensures out == Watched ==>
                && Valid() && allset == old(allset) + {connfd}
                && maxi == (if FirstFree(old(client[..])) > old(maxi) then FirstFree(old(client[..])) else old(maxi))
                && maxfd == (if connfd > old(maxfd) then connfd else old(maxfd))
    {
      ghost var c := client[..];
      FreeSlot(c, listenfd, allset, maxi, maxfd);
      if connfd < FD_SETSIZE { InsertConsistent(c, listenfd, allset, maxi, maxfd, connfd); }
      var i := FindSlot();
      if i < FD_SETSIZE { client[i] := connfd; }
      if i == FD_SETSIZE { return TooMany; }
      if connfd >= FD_SETSIZE { return OutOfRange; }
      allset := allset + {connfd};
      if connfd > maxfd { maxfd := connfd; }
      if i > maxi { maxi := i; }
      out := Watched;
    }

    // The loop over the table: serves ready clients until `nready` of them are done.
    method ServeClients(inp: Input, nready: nat) returns (served: seq<int>)
      requires Valid() && nready == |Fds(client[..]) * inp.ready| && nready > 0
      modifies this`allset, client
      ensures Valid()
      ensures client[..] == DropEof(old(client[..]), inp)
      ensures served == ReadyIn(old(client[..]), inp.ready)
      ensures allset == old(allset) - (Fds(old(client[..])) * inp.ready * inp.eof)
    {
      ghost var c, w := client[..], allset;
      hide Fds, ReadyIn, DropEof, Distinct, Consistent, Upto;
      BeforeLoop(c, listenfd, w, maxi, maxfd, inp);
      var i, left: int := 0, nready;
      served := [];
      while i <= maxi
        modifies this`allset, client
        invariant 0 <= i <= maxi + 1
        invariant Upto(c, w, inp, i, client[..], allset, served)
        invariant left == nready - |served| && left > 0
      {
        var sockfd := client[i];
        ghost var t := client[..];
        UptoNext(c, w, inp, i, t, allset, served);
        i := i + 1;
        if sockfd >= 0 && sockfd in inp.ready {
          if sockfd in inp.eof {
            allset := allset - {sockfd};
            client[i - 1] := -1;
            assert client[..] == t[i - 1 := -1];
          }
          served := served + [sockfd];
          left := left - 1;
          if left == 0 { break; }
        }
      }
      UptoEnd(c, listenfd, w, maxi, maxfd, inp, i, client[..], allset, served);
    }

    // One pass of the event loop: the new connection first, unless it was the only
    // thing ready, then the ready clients.
    method Pass(inp: Input) returns (out: Outcome, served: seq<int>)
      requires Valid() && Possible(allset, maxfd, inp)
      modifies this`allset, this`maxi, this`maxfd, client
      ensures out != TooMany && (out == OutOfRange <==> Overruns(listenfd, inp))
      ensures out == Watched ==>
                && Valid()
                && served == ReadyIn(old(client[..]), inp.ready)
                && multiset(served) == multiset(inp.ready - {listenfd})
                && SetAfter(old(allset), old(maxfd), listenfd, inp, allset, maxfd)
                && TableAfter(old(client[..]), old(maxi), listenfd, inp, client[..], maxi)
    {
      hide Fds, ReadyIn, DropEof, Distinct, Consistent, TableAfter, FirstFree, Possible;
      PassStarts(client[..], listenfd, allset, maxi, maxfd, inp);
      var nready: int := |inp.ready|;
      served := [];
      out := Watched;
      if listenfd in inp.ready {
        out := AcceptClient(inp.connfd);
        if out != Watched { return; }
        nready := nready - 1;
        if nready == 0 {
          NothingReady(client[..], inp);
          return;
        }
      }
      served := ServeClients(inp, nready);
    }

    // The event loop, for any number of passes; `env` is what the system calls give
    // at each pass for the descriptors watched then. `log` holds every pass begun; only
    // the last one may overrun the set, and that ends the loop.
    method Run(env: (nat, set<int>, int) -> Input, passes: nat) returns (out: Outcome, log: seq<Record>)
      requires Valid()
      requires forall k, w, m :: w != {} && (forall fd :: fd in w ==> fd <= m) ==> Possible(w, m, env(k, w, m))
      modifies this`allset, this`maxi, this`maxfd, client
      ensures out != TooMany && |log| <= passes && (out == OutOfRange ==> log != [])
      ensures out == Watched ==> Valid() && |log| == passes
      ensures Follows(env, listenfd, old(allset), old(maxfd), log)
      ensures forall k :: 0 <= k < |log| ==>
                (Overruns(listenfd, log[k].inp) <==> out == OutOfRange && k == |log| - 1)
      ensures forall k :: 0 <= k < |log| && !Overruns(listenfd, log[k].inp) ==> ServedOnce(listenfd, log[k])
    {
      hide Possible, Overruns, ServedOnce, SetAfter, TableAfter;
      out, log := Watched, [];
      ghost var w0, m0 := allset, maxfd;
      while |log| < passes
        invariant out == Watched && Valid() && |log| <= passes
        invariant Follows(env, listenfd, w0, m0, log) && Watching(listenfd, w0, m0, log, allset, maxfd)
        invariant forall j :: 0 <= j < |log| ==> !Overruns(listenfd, log[j].inp) && ServedOnce(listenfd, log[j])
        decreases passes - |log|
      {
        ghost var w, m, before := allset, maxfd, log;
        var inp := env(|log|, allset, maxfd);
        assert Possible(allset, maxfd, inp) by { assert listenfd in allset; }
        var here := Record(allset, maxfd, inp, []);
        var served;
        out, served := Pass(inp);
        here := here.(served := served);
        FollowsOn(env, listenfd, w0, m0, log, here, allset, maxfd);
        log := log + [here];
        if out != Watched { return; }
        OnceIs(listenfd, here);
      }
    }
  }

  // One pass: what was watched, what the system calls gave, and the clients served.
  datatype Record = Record(watched: set<int>, maxfd: int, inp: Input, served: seq<int>)

  // What is watched after the passes of `log`.
  ghost predicate Watching(listenfd: int, watched: set<int>, maxfd: int, log: seq<Record>, w: set<int>, m: int) {
    if log == [] then w == watched && m == maxfd
    else var r := log[|log| - 1]; SetAfter(r.watched, r.maxfd, listenfd, r.inp, w, m)
  }

  // Every pass had what `env` gives for the descriptors watched then, and watched what the
  // passes before it had left.
  ghost predicate Follows(env: (nat, set<int>, int) -> Input, listenfd: int, watched: set<int>, maxfd: int,
                          log: seq<Record>)
  {
    forall k :: 0 <= k < |log| ==>
      && log[k].inp == env(k, log[k].watched, log[k].maxfd)
      && Watching(listenfd, watched, maxfd, log[..k], log[k].watched, log[k].maxfd)
  }

  lemma FollowsOn(env: (nat, set<int>, int) -> Input, listenfd: int, watched: set<int>, maxfd: int,
                  log: seq<Record>, r: Record, w: set<int>, m: int)
    requires Follows(env, listenfd, watched, maxfd, log) && r.inp == env(|log|, r.watched, r.maxfd)
    requires Watching(listenfd, watched, maxfd, log, r.watched, r.maxfd)
    ensures Follows(env, listenfd, watched, maxfd, log + [r])
    ensures SetAfter(r.watched, r.maxfd, listenfd, r.inp, w, m) ==>
              Watching(listenfd, watched, maxfd, log + [r], w, m)
  {
    hide Watching;
    var xs := log + [r];
    forall k | 0 <= k < |xs|
      ensures xs[k].inp == env(k, xs[k].watched, xs[k].maxfd)
      ensures Watching(listenfd, watched, maxfd, xs[..k], xs[k].watched, xs[k].maxfd)
    {
      assert xs[..k] == log[..k];
      if k == |log| { assert log[..k] == log; }
    }
    if SetAfter(r.watched, r.maxfd, listenfd, r.inp, w, m) { WatchingLast(listenfd, watched, maxfd, log, r, w, m); }
  }

  lemma WatchingLast(listenfd: int, watched: set<int>, maxfd: int, log: seq<Record>, r: Record, w: set<int>, m: int)
    requires SetAfter(r.watched, r.maxfd, listenfd, r.inp, w, m)
    ensures Watching(listenfd, watched, maxfd, log + [r], w, m)
  {
  }

  // Every descriptor marked ready but the listener was served exactly once.
  ghost predicate ServedOnce(listenfd: int, r: Record) {
    multiset(r.served) == multiset(r.inp.ready - {listenfd})
  }

  lemma OnceIs(listenfd: int, r: Record)
    requires multiset(r.served) == multiset(r.inp.ready - {listenfd})
    ensures ServedOnce(listenfd, r)
  {
  }

  // There are never as many clients as slots: a client and the listener for every
  // descriptor an fd_set has room for would be one too many.
  lemma FreeSlot(c: seq<int>, listenfd: int, watched: set<int>, maxi: int, maxfd: int)
    requires Consistent(c, listenfd, watched, maxi, maxfd)
    ensures FirstFree(c) < FD_SETSIZE
  {
    if FirstFree(c) == FD_SETSIZE {
      AllDistinct(c);
      assert watched == Fds(c) + {listenfd};
      Below(watched, FD_SETSIZE);
    }
  }

  // A pass that overruns the set although all slots are free and one descriptor is watched.
  lemma OverrunExample()
    ensures var c, inp := seq(FD_SETSIZE, _ => -1), Input({3}, FD_SETSIZE, {});
      Consistent(c, 3, {3}, -1, 3) && Possible({3}, 3, inp) && FirstFree(c) == 0 && Overruns(3, inp)
  {
    var c := seq(FD_SETSIZE, _ => -1);
    assert Fds(c) == {};
  }

  lemma {:induction false} AllDistinct(c: seq<int>)
    requires Distinct(c) && forall j :: 0 <= j < |c| ==> c[j] >= 0
    ensures |Fds(c)| == |c|
  {
    if c == [] {
      assert Fds(c) == {};
    } else {
      DistinctTail(c);
      FdsHead(c);
      AllDistinct(c[1..]);
    }
  }

  lemma {:induction false} Below(s: set<int>, n: nat)
    requires forall x :: x in s ==> 0 <= x < n
    ensures |s| <= n
  {
    if n == 0 {
      forall x ensures x !in s {}
      assert s == {};
    } else {
      Below(s - {n - 1}, n - 1);
      assert s <= (s - {n - 1}) + {n - 1};
    }
  }

  // The ready descriptors other than the listener are the ready clients of the
  // table served; a client accepted in this pass is not among them.
  lemma ReadyAfter(c: seq<int>, listenfd: int, watched: set<int>, inp: Input)
    requires |c| == FD_SETSIZE && watched == {listenfd} + Fds(c) && listenfd !in Fds(c)
    requires inp.ready <= watched && inp.connfd >= 0 && inp.connfd !in watched
    ensures Fds(Served(c, listenfd, inp)) * inp.ready == inp.ready - {listenfd}
    ensures |inp.ready - {listenfd}| == |inp.ready| - (if listenfd in inp.ready then 1 else 0)
  {
    var d := Served(c, listenfd, inp);
    var i := FirstFree(c);
    forall x | x in inp.ready - {listenfd} ensures x in Fds(d) {
      var j :| 0 <= j < |c| && c[j] == x && c[j] >= 0;
      assert d[j] == x;
    }
    forall x | x in Fds(d) * inp.ready ensures x != listenfd {
      var j :| 0 <= j < |d| && d[j] == x && d[j] >= 0;
      assert c[j] == x || x == inp.connfd;
    }
  }

  // What serving the table, with the new connection in it, comes to.
  lemma PassStarts(c: seq<int>, listenfd: int, watched: set<int>, maxi: int, maxfd: int, inp: Input)
    requires Consistent(c, listenfd, watched, maxi, maxfd) && Possible(watched, maxfd, inp)
    ensures |c| == FD_SETSIZE && inp.connfd >= 0 && inp.connfd !in watched && inp.ready != {}
    ensures var d, rest, i := Served(c, listenfd, inp), inp.ready - {listenfd}, FirstFree(c);
      && Fds(d) * inp.ready == rest && Fds(d) * inp.ready * inp.eof == inp.ready * inp.eof - {listenfd}
      && |rest| == |inp.ready| - (if listenfd in inp.ready then 1 else 0)
      && ReadyIn(d, inp.ready) == ReadyIn(c, inp.ready) && multiset(ReadyIn(c, inp.ready)) == multiset(rest)
      && TableAfter(c, maxi, listenfd, inp, DropEof(d, inp), if listenfd in inp.ready && i > maxi then i else maxi)
  {
    hide ReadyIn, Fds, DropEof, Distinct, TableAfter;
    FreeSlot(c, listenfd, watched, maxi, maxfd);
    ReadyAfter(c, listenfd, watched, inp);
    if listenfd in inp.ready { ReadyInInsert(c, FirstFree(c), inp); }
    ReadyInOnce(c, inp.ready);
    assert Fds(c) * inp.ready == inp.ready - {listenfd};
    PassTable(c, maxi, listenfd, inp);
  }

  lemma PassTable(c: seq<int>, maxi: int, listenfd: int, inp: Input)
    requires FirstFree(c) < |c| && inp.connfd !in inp.ready
    ensures TableAfter(c, maxi, listenfd, inp, DropEof(Served(c, listenfd, inp), inp),
                       if listenfd in inp.ready && FirstFree(c) > maxi then FirstFree(c) else maxi)
  {
  }

  lemma {:induction false} ReadyInInsert(c: seq<int>, i: nat, inp: Input)
    requires i < |c| && c[i] < 0 && inp.connfd !in inp.ready
    ensures ReadyIn(c[i := inp.connfd], inp.ready) == ReadyIn(c, inp.ready)
  {
    if i == 0 {
      assert c[i := inp.connfd][1..] == c[1..];
    } else {
      assert c[i := inp.connfd][1..] == c[1..][i - 1 := inp.connfd];
      ReadyInInsert(c[1..], i - 1, inp);
    }
  }

  lemma NothingReady(c: seq<int>, inp: Input)
    requires Fds(c) * inp.ready == {}
    ensures ReadyIn(c, inp.ready) == [] && DropEof(c, inp) == c
  {
    ReadyInEmpty(c, inp.ready);
    NotReady(c, inp.ready);
  }

  lemma FdsSnoc(c: seq<int>, i: nat)
    requires i < |c|
    ensures Fds(c[..i + 1]) == Fds(c[..i]) + (if c[i] >= 0 then {c[i]} else {})
  {
    var a, b := c[..i], c[..i + 1];
    forall x | x in Fds(a) ensures x in Fds(b) {
      var j :| 0 <= j < i && a[j] == x && x >= 0;
      assert b[j] == x;
    }
    forall x | x in Fds(b) && x != c[i] ensures x in Fds(a) {
      var j :| 0 <= j < i + 1 && b[j] == x && x >= 0;
      assert a[j] == x;
    }
    assert b[i] == c[i];
  }
}
