/** Passing an open descriptor, or an error text and code, over a stream socket: any
    text, then a null byte and a status byte that carries the descriptor beside it. */
module FdProtocol {
  import opened Prelude

  newtype byte = x: int | 0 <= x < 256

  const MAXLINE: nat := 4096

  // ---- The sender ----

  // What a call that sends meets: an error, or room for `n` bytes. After the last
  // event there is always room.
  datatype Event = Fail | Takes(n: nat)

  // The sending end: the bytes sent, and each file passed with the offset of the byte
  // it travels with.
  class Wire {
    var sent: seq<byte>
    var passed: seq<(nat, int)>
    var script: seq<Event>

    constructor (script: seq<Event>)
      ensures sent == [] && passed == [] && this.script == script
    {
      sent, passed, this.script := [], [], script;
    }

    // write(2), and sendmsg(2) when there is a file to pass; -1 on an error.
    method Send(data: seq<byte>, file: Option<int>) returns (k: int)
      requires data != []
      modifies this
      ensures -1 <= k <= |data|
      ensures sent == old(sent) + data[..if k < 0 then 0 else k]
      ensures passed == old(passed) + (if file.Some? && k > 0 then [(|old(sent)|, file.value)] else [])
      ensures k == (if old(script) == [] then |data| else if old(script)[0] == Fail then -1
                    else if old(script)[0].n < |data| then old(script)[0].n else |data|)
      ensures script == (if old(script) == [] then [] else old(script)[1..])
    {
      k := |data|;
      if script != [] {
        if script[0] == Fail { k := -1; } else if script[0].n < |data| { k := script[0].n; }
        script := script[1..];
      }
      if k > 0 {
        if file.Some? { passed := passed + [(|sent|, file.value)]; }
        sent := sent + data[..k];
      }
    }
  }

  // The number of bytes a full write puts out under a script.
  function Written(script: seq<Event>, n: nat): (k: nat)
    ensures k <= n
    decreases |script|
  {
    if n == 0 || script == [] then n
    else if script[0] == Fail || script[0].n == 0 then 0
    else if script[0].n >= n then n
    else script[0].n + Written(script[1..], n - script[0].n)
  }

  // The events such a write leaves.
  function LeftOver(script: seq<Event>, n: nat): seq<Event>
    decreases |script|
  {
    if n == 0 || script == [] then script
    else if script[0] == Fail || script[0].n == 0 || script[0].n >= n then script[1..]
    else LeftOver(script[1..], n - script[0].n)
  }

  // ---- What a full write does, call by call ----

  // A call that ends the writing early.
  predicate Stops(e: Event) {
    e == Fail || e == Takes(0)
  }

  function Total(events: seq<Event>): nat {
    if events == [] then 0
    else Total(events[..|events| - 1]) + match events[|events| - 1] case Fail => 0 case Takes(n) => n
  }

  // `m` calls meet events, of which only the last may stop the writing; before the last
  // something is left of the `n` bytes. The bytes out are those that the earlier calls
  // took, when it stops, and otherwise all.
  ghost predicate TookIn(events: seq<Event>, m: nat, n: nat, k: nat) {
    && m <= |events|
    && (forall i :: 0 <= i < m - 1 ==> !Stops(events[i]))
    && (m > 0 ==> Total(events[..m - 1]) < n)
    && (m > 0 && Stops(events[m - 1]) ==> k == Total(events[..m - 1]))
    && (m == 0 || !Stops(events[m - 1]) ==> k == n && (m < |events| ==> Total(events[..m]) >= n))
  }

  ghost predicate Took(before: seq<Event>, after: seq<Event>, n: nat, k: nat) {
    exists m :: 0 <= m <= |before| && after == before[m..] && TookIn(before, m, n, k)
  }

  lemma {:induction false} WrittenTook(script: seq<Event>, n: nat) returns (m: nat)
    ensures m <= |script| && LeftOver(script, n) == script[m..] && TookIn(script, m, n, Written(script, n))
    decreases |script|
  {
    if n == 0 || script == [] {
      m := 0;
    } else if Stops(script[0]) || script[0].n >= n {
      m := 1;
      assert script[..0] == [] && script[..1][..0] == [] && script[..1][0] == script[0];
    } else {
      var x, rest := script[0].n, script[1..];
      var j := WrittenTook(rest, n - x);
      m := j + 1;
      assert script[m..] == rest[j..];
      if j > 0 {
        TotalOneMore(script, j - 1);
        assert rest[j - 1] == script[m - 1];
      } else {
        assert script[..0] == [];
      }
      TotalOneMore(script, j);
      forall i | 0 <= i < m - 1 ensures !Stops(script[i]) { assert i > 0 ==> script[i] == rest[i - 1]; }
    }
  }

  // Nothing else fits that description.
  lemma {:induction false} TookOnce(script: seq<Event>, m: nat, n: nat, k: nat)
    requires TookIn(script, m, n, k)
    ensures k == Written(script, n) && script[m..] == LeftOver(script, n)
    decreases |script|
  {
    if n > 0 && script != [] {
      assert m > 0 by { assert script[..0] == []; }
      assert script[..1][..0] == [] && script[..1][0] == script[0] && script[..0] == [];
      if !Stops(script[0]) {
        if m > 1 { TotalOneMore(script, m - 2); }
        if script[0].n < n {
          var rest, j := script[1..], m - 1;
          if j > 0 {
            TotalOneMore(script, j);
            assert rest[j - 1] == script[m - 1];
          } else {
            TotalOneMore(script, 0);
            assert rest == [];
          }
          forall i | 0 <= i < j - 1 ensures !Stops(rest[i]) { assert rest[i] == script[i + 1]; }
          TookOnce(rest, j, n - script[0].n, k - script[0].n);
          assert script[m..] == rest[j..];
        }
      }
    }
  }

  lemma {:induction false} TotalOneMore(script: seq<Event>, j: nat)
    requires script != [] && script[0].Takes? && j < |script|
    ensures Total(script[..j + 1]) == script[0].n + Total(script[1..][..j])
  {
    var a, b := script[..j + 1], script[1..][..j];
    assert a[..|a| - 1] == script[..j];
    if j == 0 {
      assert Total([]) == 0 && a[..0] == [];
    } else {
      TotalOneMore(script, j - 1);
      assert b[..|b| - 1] == script[1..][..j - 1] && a[|a| - 1] == b[|b| - 1];
    }
  }

  // When no call stops, everything goes out; and only then when something is short.
  lemma AllTaken(before: seq<Event>, after: seq<Event>, n: nat, k: nat)
    requires Took(before, after, n, k)
    ensures k <= n
    ensures (forall i :: 0 <= i < |before| ==> !Stops(before[i])) ==> k == n
    ensures k < n ==> exists m :: 0 < m <= |before| && after == before[m..] && Stops(before[m - 1])
                                    && k == Total(before[..m - 1])
  {
    var m :| 0 <= m <= |before| && after == before[m..] && TookIn(before, m, n, k);
    assert k < n ==> m > 0 && Stops(before[m - 1]);
  }

  lemma WrittenIsTook(script: seq<Event>, n: nat)
    ensures Took(script, LeftOver(script, n), n, Written(script, n))
  {
    var m := WrittenTook(script, n);
  }

  lemma OnlyFull(script: seq<Event>, n: nat)
    ensures forall after :: Took(script, after, n, n) <==> Written(script, n) == n && after == LeftOver(script, n)
  {
    var m0 := WrittenTook(script, n);
    forall after ensures Took(script, after, n, n) <==> Written(script, n) == n && after == LeftOver(script, n) {
      if Took(script, after, n, n) {
        var m :| 0 <= m <= |script| && after == script[m..] && TookIn(script, m, n, n);
        TookOnce(script, m, n, n);
      }
    }
  }

  method Writen(wire: Wire, data: seq<byte>) returns (r: int)
    modifies wire
    ensures Took(old(wire.script), wire.script, |data|, Written(old(wire.script), |data|))
    ensures wire.sent == old(wire.sent) + data[..Written(old(wire.script), |data|)]
    ensures wire.passed == old(wire.passed)
    ensures wire.script == LeftOver(old(wire.script), |data|)
    ensures r == (if data != [] && old(wire.script) != [] && old(wire.script)[0] == Fail then -1
                  else Written(old(wire.script), |data|))
  {
    hide Took;
    WrittenIsTook(wire.script, |data|);
    var nleft := |data|;
    while nleft > 0
      invariant 0 <= nleft <= |data|
      invariant wire.sent == old(wire.sent) + data[..|data| - nleft] && wire.passed == old(wire.passed)
      invariant Written(old(wire.script), |data|) == |data| - nleft + Written(wire.script, nleft)
      invariant nleft == |data| ==> wire.script == old(wire.script)
      invariant LeftOver(wire.script, nleft) == LeftOver(old(wire.script), |data|)
      invariant nleft < |data| ==> old(wire.script) != [] ==> old(wire.script)[0] != Fail
      decreases nleft
    {
      ghost var done, rest := data[..|data| - nleft], data[|data| - nleft..];
      var nwritten := wire.Send(data[|data| - nleft..], None);
      if nwritten < 0 {
        if nleft == |data| { return -1; } else { break; }
      } else if nwritten == 0 {
        break;
      }
      assert done + rest[..nwritten] == data[..|data| - nleft + nwritten];
      nleft := nleft - nwritten;
    }
    r := |data| - nleft;
  }

  // The status byte for a descriptor, or for an error given as a negative number.
  function Status(fd: int): (b: byte)
    ensures b == 0 <==> fd >= 0
  {
    if fd >= 0 then 0 else if -fd % 256 == 0 then 1 else (-fd % 256) as byte
  }

  function Trailer(fd: int): seq<byte> {
    [0, Status(fd)]
  }

  // What the receiver is to return.
  function Answer(fd: int): int {
    if fd >= 0 then fd else -(Status(fd) as int)
  }

  // The control buffer, allocated once and kept; `mem` is whether malloc would succeed.
  class Control {
    var ready: bool

    constructor ()
      ensures !ready
    {
      ready := false;
    }

    method Ensure(mem: bool) returns (ok: bool)
      modifies this
      ensures ok == ready == (old(ready) || mem)
    {
      if !ready { ready := mem; }
      ok := ready;
    }
  }

  // A descriptor needs the control buffer, an error does not.
  method SendFd(wire: Wire, ctl: Control, fd: int, mem: bool) returns (r: int)
    modifies wire, ctl
    ensures r == 0 || r == -1
    ensures ctl.ready == (old(ctl.ready) || (fd >= 0 && mem))
    ensures r == 0 <==> (fd >= 0 ==> ctl.ready) && Room(old(wire.script))
    ensures fd >= 0 && !ctl.ready ==> wire.sent == old(wire.sent) && wire.passed == old(wire.passed)
    ensures r == 0 ==> wire.sent == old(wire.sent) + Trailer(fd)
    ensures r == 0 ==> wire.passed == old(wire.passed) + (if fd >= 0 then [(|old(wire.sent)|, fd)] else [])
    ensures r == -1 ==> wire.sent == old(wire.sent) || wire.sent == old(wire.sent) + [0]
    ensures fd < 0 ==> wire.passed == old(wire.passed)
  {
    var buf := new byte[2];
    var control := None;
    if fd < 0 {
      buf[1] := (-fd % 256) as byte;
      if buf[1] == 0 { buf[1] := 1; }
    } else {
      var ok := ctl.Ensure(mem);
      if !ok { return -1; }
      control := Some(fd);
      buf[1] := 0;
    }
    buf[0] := 0;
    assert buf[..] == Trailer(fd);
    var n := wire.Send(buf[..], control);
    r := if n != 2 then -1 else 0;
  }

  // The next message of two bytes goes out whole.
  predicate Room(script: seq<Event>) {
    script != [] ==> script[0] != Fail && script[0].n >= 2
  }

  // The text of an error, then its code, which is made negative.
  method SendErr(wire: Wire, ctl: Control, errcode: int, msg: seq<byte>) returns (r: int)
    modifies wire, ctl
    ensures r == 0 || r == -1
    ensures r == 0 ==> wire.sent == old(wire.sent) + msg + Trailer(if errcode >= 0 then -1 else errcode)
    ensures wire.passed == old(wire.passed)
    ensures r == 0 <==> exists after :: Took(old(wire.script), after, |msg|, |msg|) && Room(after)
    ensures r == -1 ==>
              old(wire.sent) <= wire.sent < old(wire.sent) + msg + Trailer(if errcode >= 0 then -1 else errcode)
  {
    OnlyFull(wire.script, |msg|);
    hide Took;
    var n := |msg|;
    if n > 0 {
      var w := Writen(wire, msg);
      if w != n { return -1; }
    }
    assert wire.sent == old(wire.sent) + msg;
    var code := if errcode >= 0 then -1 else errcode;
    r := SendFd(wire, ctl, code, false);
    if r < 0 { return -1; }
    r := 0;
  }

  // ---- The receiver ----

  // What one call of recvmsg gives: an error, or at least one byte, and a file when
  // one travels with these bytes. After the last arrival the connection is closed.
  datatype Arrival = Error | Data(bytes: seq<byte>, file: Option<int>)

  ghost predicate Proper(arrivals: seq<Arrival>) {
    forall i :: 0 <= i < |arrivals| && arrivals[i].Data? ==> 0 < |arrivals[i].bytes| <= MAXLINE
  }

  // Returned: recv_fd's value; Dumped: the process ends on a message it cannot accept.
  datatype Result = Returned(value: int) | Dumped

  // What the bytes of one arrival say: text only, a final null and status, or neither.
  datatype Kind = Text | Final(status: byte) | Malformed

  function FirstNull(s: seq<byte>): (i: nat)
    ensures i <= |s| && (i < |s| ==> s[i] == 0) && forall j :: 0 <= j < i ==> s[j] != 0
  {
    if s == [] || s[0] == 0 then 0 else 1 + FirstNull(s[1..])
  }

  function Classify(s: seq<byte>): Kind {
    var i := FirstNull(s);
    if i == |s| then Text else if i + 2 == |s| then Final(s[i + 1]) else Malformed
  }

  // The text sent, the result, and what userfunc was given, when it accepts its k-th
  // call as `accepts` says (and every call after the last).
  function Receive(arrivals: seq<Arrival>, accepts: seq<bool>): (Result, seq<byte>) {
    if arrivals == [] || arrivals[0] == Error then (Returned(-1), [])
    else
      var s, file, ok := arrivals[0].bytes, arrivals[0].file, accepts == [] || accepts[0];
      match Classify(s)
      case Malformed => (Dumped, [])
      case Text =>
        if !ok then (Returned(-1), [])
        else
          var (r, heard) := Receive(arrivals[1..], if accepts == [] then [] else accepts[1..]);
          (r, s + heard)
      case Final(status) =>
        var text := s[..|s| - 2];
        if status == 0 && file.None? then (Dumped, [])
        else if text != [] && !ok then (Returned(-1), [])
        else (Returned(if status == 0 then file.value else -(status as int)), text)
  }

  // An arrival is final exactly when its first null is its next to last byte, and is text
  // exactly when it has none.
  lemma KindIs(s: seq<byte>)
    ensures Classify(s) == Text <==> 0 !in s
    ensures Classify(s).Final? <==> |s| >= 2 && s[|s| - 2] == 0 && 0 !in s[..|s| - 2]
    ensures Classify(s).Final? ==> Classify(s).status == s[|s| - 1]
  {
    var i := FirstNull(s);
    if i < |s| { assert s[i] in s; }
    if |s| >= 2 {
      var t := s[..|s| - 2];
      if i < |t| { assert t[i] == 0 && t[i] in t; }
      if s[|s| - 2] == 0 && 0 !in t { forall j | 0 <= j < |t| ensures s[j] != 0 { assert t[j] in t; } }
    }
  }

  lemma ReceiveFirst(arrivals: seq<Arrival>, accepts: seq<bool>)
    ensures arrivals == [] || arrivals[0] == Error ==> Receive(arrivals, accepts) == (Returned(-1), [])
    ensures arrivals != [] && arrivals[0].Data? ==>
              var s, file, refused := arrivals[0].bytes, arrivals[0].file, accepts != [] && !accepts[0];
              if 0 !in s then
                refused ==> Receive(arrivals, accepts) == (Returned(-1), [])
              else if |s| < 2 || s[|s| - 2] != 0 || 0 in s[..|s| - 2] || (s[|s| - 1] == 0 && file.None?) then
                Receive(arrivals, accepts) == (Dumped, [])
              else if |s| > 2 && refused then
                Receive(arrivals, accepts) == (Returned(-1), [])
              else
                Receive(arrivals, accepts) ==
                  (Returned(if s[|s| - 1] == 0 then file.value else -(s[|s| - 1] as int)), s[..|s| - 2])
  {
    if arrivals != [] && arrivals[0].Data? { KindIs(arrivals[0].bytes); }
    hide Classify;
  }

  // What comes of any arrivals. The first `n` of them are text that userfunc accepts.
  lemma {:induction false} ReceiveMeans(arrivals: seq<Arrival>, accepts: seq<bool>, n: nat)
    requires n <= |arrivals|
    requires forall i :: 0 <= i < n ==> arrivals[i].Data? && 0 !in arrivals[i].bytes && (i < |accepts| ==> accepts[i])
    ensures var text, refused := Joined(arrivals[..n]), n < |accepts| && !accepts[n];
      && (n == |arrivals| || arrivals[n] == Error ==> Receive(arrivals, accepts) == (Returned(-1), text))
      && (n < |arrivals| && arrivals[n].Data? ==>
            var s, file := arrivals[n].bytes, arrivals[n].file;
            if 0 !in s then
              refused ==> Receive(arrivals, accepts) == (Returned(-1), text)
            else if |s| < 2 || s[|s| - 2] != 0 || 0 in s[..|s| - 2] || (s[|s| - 1] == 0 && file.None?) then
              Receive(arrivals, accepts) == (Dumped, text)
            else if |s| > 2 && refused then
              Receive(arrivals, accepts) == (Returned(-1), text)
            else
              Receive(arrivals, accepts) ==
                (Returned(if s[|s| - 1] == 0 then file.value else -(s[|s| - 1] as int)), text + s[..|s| - 2]))
  {
    if n == 0 {
      assert arrivals[..0] == [];
      ReceiveFirst(arrivals, accepts);
      hide Receive;
      if arrivals != [] && arrivals[0].Data? && |arrivals[0].bytes| >= 2 {
        var t := arrivals[0].bytes[..|arrivals[0].bytes| - 2];
        assert [] + t == t;
      }
    } else {
      var s, rest, later := arrivals[0].bytes, arrivals[1..], if accepts == [] then [] else accepts[1..];
      KindIs(s);
      ReceiveMeans(rest, later, n - 1);
      assert arrivals[..n][1..] == rest[..n - 1];
      hide Classify;
      var text := Joined(rest[..n - 1]);
      if n < |arrivals| && arrivals[n].Data? && |arrivals[n].bytes| >= 2 {
        var t := arrivals[n].bytes[..|arrivals[n].bytes| - 2];
        assert (s + text) + t == s + (text + t);
      }
    }
  }

  ghost function Joined(arrivals: seq<Arrival>): seq<byte> {
    if arrivals == [] then []
    else (if arrivals[0].Data? then arrivals[0].bytes else []) + Joined(arrivals[1..])
  }

  // The caller's userfunc: it takes all of the bytes or refuses them.
  class User {
    var heard: seq<byte>
    var accepts: seq<bool>

    constructor (accepts: seq<bool>)
      ensures heard == [] && this.accepts == accepts
    {
      heard, this.accepts := [], accepts;
    }

    method Func(data: seq<byte>) returns (k: int)
      modifies this
      ensures accepts == (if old(accepts) == [] then [] else old(accepts)[1..])
      ensures k == |data| <==> old(accepts) == [] || old(accepts)[0]
      ensures heard == (if k == |data| then old(heard) + data else old(heard))
    {
      k := |data|;
      if accepts != [] {
        if !accepts[0] { k := -1; }
        accepts := accepts[1..];
      }
      if k >= 0 { heard := heard + data; }
    }
  }

  // Without a control buffer nothing is received.
  method RecvFd(arrivals: seq<Arrival>, user: User, ctl: Control, mem: bool) returns (r: Result)
    requires Proper(arrivals)
    modifies user, ctl
    ensures ctl.ready == (old(ctl.ready) || mem)
    ensures !ctl.ready ==> r == Returned(-1) && user.heard == old(user.heard)
    ensures ctl.ready ==>
              && r == Receive(arrivals, old(user.accepts)).0
              && user.heard == old(user.heard) + Receive(arrivals, old(user.accepts)).1
  {
    hide Receive, Classify, FirstNull, Proper;
    var buf := new byte[MAXLINE];
    var status, newfd, next: nat := -1, -1, 0;
    ghost var all := Receive(arrivals, user.accepts);
    assert arrivals[0..] == arrivals;
    while true
      invariant next <= |arrivals| && status == -1 && fresh(buf)
      invariant var rest := Receive(arrivals[next..], user.accepts);
        rest.0 == all.0 && user.heard + rest.1 == old(user.heard) + all.1
      invariant (next > 0 ==> ctl.ready) && (next == 0 ==> user.heard == old(user.heard))
      invariant ctl.ready == (old(ctl.ready) || (next > 0 && mem))
      decreases |arrivals| - next
    {
      var ok := ctl.Ensure(mem);
      if !ok { return Returned(-1); }
      ReceiveNext(arrivals, next, user.accepts);
      AtMostMaxline(arrivals, next);
      if next == |arrivals| || arrivals[next] == Error { return Returned(-1); }
      var s, file := arrivals[next].bytes, arrivals[next].file;
      next := next + 1;
      var nr := |s|;
      forall i | 0 <= i < nr { buf[i] := s[i]; }
      assert buf[..nr] == s;
      var dumped;
      dumped, status, newfd, nr := Scan(buf, nr, file);
      if dumped { return Dumped; }
      if nr > 0 {
        assert buf[..nr] == s[..nr];
        ghost var later := Receive(arrivals[next..], if user.accepts == [] then [] else user.accepts[1..]).1;
        assert user.heard + (s + later) == (user.heard + s) + later;
        var k := user.Func(buf[..nr]);
        if k != nr { return Returned(-1); }
      }
      if status >= 0 { return Returned(newfd); }
    }
  }

  lemma AtMostMaxline(arrivals: seq<Arrival>, next: nat)
    requires Proper(arrivals) && next <= |arrivals|
    ensures next < |arrivals| && arrivals[next].Data? ==> 0 < |arrivals[next].bytes| <= MAXLINE
  {
  }

  // One arrival more, by what its bytes say.
  lemma ReceiveNext(arrivals: seq<Arrival>, next: nat, accepts: seq<bool>)
    requires next <= |arrivals| && Proper(arrivals)
    ensures next == |arrivals| || arrivals[next] == Error ==> Receive(arrivals[next..], accepts) == (Returned(-1), [])
    ensures next < |arrivals| && arrivals[next].Data? ==>
      var s, file, ok := arrivals[next].bytes, arrivals[next].file, accepts == [] || accepts[0];
      var rest := Receive(arrivals[next + 1..], if accepts == [] then [] else accepts[1..]);
      Receive(arrivals[next..], accepts) ==
        match Classify(s)
        case Malformed => (Dumped, [])
        case Text => if ok then (rest.0, s + rest.1) else (Returned(-1), [])
        case Final(status) =>
          if status == 0 && file.None? then (Dumped, [])
          else if |s| > 2 && !ok then (Returned(-1), [])
          else (Returned(if status == 0 then file.value else -(status as int)), s[..|s| - 2])
  {
    if next < |arrivals| { assert arrivals[next..][1..] == arrivals[next + 1..]; }
  }

  // The loop over one arrival; a trailer is cut off its end.
  method Scan(buf: array<byte>, nr0: nat, file: Option<int>) returns (dumped: bool, status: int, newfd: int, nr: nat)
    requires 0 < nr0 <= buf.Length
    ensures nr <= nr0
    ensures match Classify(buf[..nr0])
            case Malformed => dumped
            case Text => !dumped && status == -1 && nr == nr0
            case Final(b) =>
              && dumped == (b == 0 && file.None?)
              && (!dumped ==> status == b as int && nr == nr0 - 2)
              && (!dumped ==> newfd == if b == 0 then file.value else -(b as int))
  {
    var ptr := 0;
    dumped, status, newfd, nr := false, -1, -1, nr0;
    ghost var s := buf[..nr0];
    while ptr < nr
      invariant ptr <= FirstNull(s) && status == -1 && nr == nr0 && !dumped
    {
      ptr := ptr + 1;
      if buf[ptr - 1] == 0 {
        assert FirstNull(s) == ptr - 1;
        if ptr != nr - 1 { return true, status, newfd, nr; }
        status := buf[ptr] as int;
        if status == 0 {
          if file.None? { return true, status, newfd, nr; }
          newfd := file.value;
        } else {
          newfd := -status;
        }
        nr := nr - 2;
        break;
      }
    }
  }

  // ---- The round trip ----

  // The file that travels with one of the bytes from `a` up to `b`.
  function FileIn(passed: seq<(nat, int)>, a: nat, b: nat): Option<int> {
    if passed == [] then None
    else if a <= passed[0].0 < b then Some(passed[0].1) else FileIn(passed[1..], a, b)
  }

  // The arrivals are what was sent from offset `off` on, in any pieces.
  ghost predicate Pieces(arrivals: seq<Arrival>, sent: seq<byte>, passed: seq<(nat, int)>, off: nat) {
    if arrivals == [] then off == |sent|
    else
      && arrivals[0].Data? && 0 < |arrivals[0].bytes| <= MAXLINE
      && var end := off + |arrivals[0].bytes|;
      && end <= |sent| && arrivals[0].bytes == sent[off..end]
      && arrivals[0].file == FileIn(passed, off, end)
      && Pieces(arrivals[1..], sent, passed, end)
  }

  // What send_fd passes after the text.
  function Passed(text: seq<byte>, fd: int): seq<(nat, int)> {
    if fd >= 0 then [(|text|, fd)] else []
  }

  // The bytes of the trailer arrive together.
  ghost predicate TrailerWhole(arrivals: seq<Arrival>) {
    arrivals != [] && arrivals[|arrivals| - 1].Data? && |arrivals[|arrivals| - 1].bytes| >= 2
  }

  lemma {:induction false} PiecesProper(arrivals: seq<Arrival>, sent: seq<byte>, passed: seq<(nat, int)>, off: nat)
    requires Pieces(arrivals, sent, passed, off)
    ensures Proper(arrivals)
  {
    if arrivals != [] {
      PiecesProper(arrivals[1..], sent, passed, off + |arrivals[0].bytes|);
      assert forall i :: 0 < i < |arrivals| ==> arrivals[i] == arrivals[1..][i - 1];
    }
  }

  lemma {:induction false} FirstNullIs(s: seq<byte>, i: nat)
    requires i < |s| && s[i] == 0 && forall j :: 0 <= j < i ==> s[j] != 0
    ensures FirstNull(s) == i
  {
  }

  // What can arrive once all bytes, or all but one, have.
  lemma LastPiece(arrivals: seq<Arrival>, sent: seq<byte>, passed: seq<(nat, int)>, off: nat)
    requires Pieces(arrivals, sent, passed, off) && |sent| <= off + 1
    ensures off == |sent| ==> arrivals == []
    ensures off < |sent| ==> |arrivals| == 1 && |arrivals[0].bytes| == 1
  {
    if off < |sent| { assert Pieces(arrivals[1..], sent, passed, |sent|); }
  }

  // One message of text, from offset `off` of the text on.
  lemma {:induction false} ReceiveFrom(arrivals: seq<Arrival>, text: seq<byte>, fd: int, off: nat)
    requires 0 !in text && off <= |text|
    requires Pieces(arrivals, text + Trailer(fd), Passed(text, fd), off)
    ensures Received(arrivals, text, fd, off)
  {
    hide Classify, Receive, Answer, Received;
    var end := off + |arrivals[0].bytes|;
    if end <= |text| { ReceiveFrom(arrivals[1..], text, fd, end); }
    ReceiveStep(arrivals, text, fd, off);
  }

  // The receiver's outcome for the text from offset `off` on.
  ghost predicate Received(arrivals: seq<Arrival>, text: seq<byte>, fd: int, off: nat)
    requires off <= |text|
  {
    if TrailerWhole(arrivals) then Receive(arrivals, []) == (Returned(Answer(fd)), text[off..])
    else Receive(arrivals, []).0 == Dumped
  }

  lemma ReceiveStep(arrivals: seq<Arrival>, text: seq<byte>, fd: int, off: nat)
    requires 0 !in text && off <= |text|
    requires Pieces(arrivals, text + Trailer(fd), Passed(text, fd), off)
    requires var end := off + |arrivals[0].bytes|; end <= |text| ==> Received(arrivals[1..], text, fd, end)
    ensures Received(arrivals, text, fd, off)
  {
    hide Classify, Receive, Answer, Trailer, Passed, FileIn, Pieces;
    ReceivePiece(arrivals, text, fd, off);
    var rest, end := arrivals[1..], off + |arrivals[0].bytes|;
    if end <= |text| { FirstOf(rest, text, fd, end); }
    if end > |text| { LastPiece(rest, text + Trailer(fd), Passed(text, fd), end); }
    if end <= |text| {
      assert text[off..] == text[off..end] + text[end..];
      assert arrivals[|arrivals| - 1] == rest[|rest| - 1];
    } else if end == |text| + 1 {
      assert arrivals[|arrivals| - 1] == rest[0];
    }
  }

  // What the first piece leads to, by where it ends.
  lemma ReceivePiece(arrivals: seq<Arrival>, text: seq<byte>, fd: int, off: nat)
    requires 0 !in text && off <= |text|
    requires Pieces(arrivals, text + Trailer(fd), Passed(text, fd), off)
    ensures arrivals != [] && arrivals[0].Data? && |text + Trailer(fd)| == |text| + 2
    ensures var end := off + |arrivals[0].bytes|;
      off < end <= |text| + 2 && Pieces(arrivals[1..], text + Trailer(fd), Passed(text, fd), end)
    ensures var end, rest := off + |arrivals[0].bytes|, Receive(arrivals[1..], []);
      Receive(arrivals, []) ==
        if end <= |text| then (rest.0, text[off..end] + rest.1)
        else if end == |text| + 1 then (Dumped, [])
        else (Returned(Answer(fd)), text[off..])
  {
    hide *;
    FirstOf(arrivals, text, fd, off);
    var b := arrivals[0].bytes;
    var end := off + |b|;
    PieceKind(text, fd, off, end);
    PiecesProper(arrivals, text + Trailer(fd), Passed(text, fd), off);
    ReceiveNext(arrivals, 0, []);
    assert arrivals[0..] == arrivals;
    SliceOf(text, fd, off, end);
    AnswerIs(fd);
  }

  lemma FirstOf(arrivals: seq<Arrival>, text: seq<byte>, fd: int, off: nat)
    requires off <= |text| && Pieces(arrivals, text + Trailer(fd), Passed(text, fd), off)
    ensures arrivals != [] && arrivals[0].Data? && |text + Trailer(fd)| == |text| + 2
    ensures var end := off + |arrivals[0].bytes|;
      && off < end <= |text| + 2 && arrivals[0].bytes == (text + Trailer(fd))[off..end]
      && arrivals[0].file == FileIn(Passed(text, fd), off, end)
      && Pieces(arrivals[1..], text + Trailer(fd), Passed(text, fd), end)
  {
  }

  lemma AnswerIs(fd: int)
    ensures Answer(fd) == if Status(fd) == 0 then fd else -(Status(fd) as int)
    ensures Status(fd) == 0 <==> fd >= 0
  {
  }

  // The text and the file in a piece.
  lemma SliceOf(text: seq<byte>, fd: int, off: nat, end: nat)
    requires off <= |text| && off <= end <= |text| + 2
    ensures var b := (text + Trailer(fd))[off..end];
      && (end <= |text| ==> b == text[off..end])
      && (end == |text| + 2 ==> b[..|b| - 2] == text[off..])
    ensures end == |text| + 2 ==> FileIn(Passed(text, fd), off, end) == if fd >= 0 then Some(fd) else None
  {
  }

  // What a piece that starts in the text says, by where it ends.
  lemma PieceKind(text: seq<byte>, fd: int, off: nat, end: nat)
    requires 0 !in text && off <= |text| && off <= end <= |text| + 2
    ensures Classify((text + Trailer(fd))[off..end]) ==
            if end <= |text| then Text else if end == |text| + 1 then Malformed else Final(Status(fd))
  {
    var s := (text + Trailer(fd))[off..end];
    var n := |text| - off;
    forall j | 0 <= j < |s| && j < n ensures s[j] != 0 {
      assert s[j] == text[off + j] && text[off + j] in text;
    }
    if n < |s| {
      assert s[n] == 0;
      FirstNullIs(s, n);
    }
  }

  // The receiver hands over exactly the text and returns the descriptor, or minus the
  // status, exactly when the trailer arrives in one piece; otherwise it ends the process.
  lemma RoundTrip(arrivals: seq<Arrival>, text: seq<byte>, fd: int)
    requires 0 !in text
    requires Pieces(arrivals, text + Trailer(fd), Passed(text, fd), 0)
    ensures Proper(arrivals)
    ensures Receive(arrivals, []) == (Returned(Answer(fd)), text) <==> TrailerWhole(arrivals)
    ensures !TrailerWhole(arrivals) ==> Receive(arrivals, []).0 == Dumped
  {
    PiecesProper(arrivals, text + Trailer(fd), Passed(text, fd), 0);
    ReceiveFrom(arrivals, text, fd, 0);
    assert text[0..] == text;
  }

  // An error code comes back as itself exactly when it is between -255 and -1.
  lemma ErrorCode(errcode: int)
    ensures var fd := if errcode >= 0 then -1 else errcode;
      Answer(fd) < 0 && (Answer(fd) == errcode <==> -255 <= errcode < 0)
      && (errcode < 0 && errcode % 256 != 0 ==> Answer(fd) == -(-errcode % 256))
      && (errcode >= 0 || errcode % 256 == 0 ==> Answer(fd) == -1)
  {
  }
}
