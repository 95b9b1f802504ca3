/** The wrappers that read a line, or a number of bytes, from a descriptor whatever
    pieces it delivers, and write all of a buffer whatever pieces it takes. */
module LineReader {

  // What happens at one call of read or write: a signal, another error, or the
  // transfer of at most `n` bytes. After the last event calls transfer all they can.
  datatype Event = Interrupted | Broken | Chunk(n: nat)

  function Min(a: int, b: int): int { if a < b then a else b }

  // How many calls of a script fail for good: by an error, and for a write also by
  // taking nothing.
  function Failures(script: seq<Event>, writing: bool): nat {
    if script == [] then 0
    else (if script[0] == Broken || (writing && script[0] == Chunk(0)) then 1 else 0) + Failures(script[1..], writing)
  }

  lemma OneCall(script: seq<Event>, writing: bool)
    ensures script == [] ==> Failures(script, writing) == 0
    ensures script != [] ==>
              Failures(script, writing) == Failures(script[1..], writing)
                + if script[0] == Broken || (writing && script[0] == Chunk(0)) then 1 else 0
  {
  }

  // A descriptor open for reading: the bytes still to come.
  class Source {
    var unread: seq<char>
    var script: seq<Event>

    constructor (stream: seq<char>, script: seq<Event>)
      ensures unread == stream && this.script == script
    {
      unread, this.script := stream, script;
    }

    // read(2): the number of bytes put at buf[off..], 0 at the end of the stream, -1
    // on an error, which may be EINTR.
    method Read(buf: array<char>, off: nat, want: nat) returns (k: int, eintr: bool)
      requires off + want <= buf.Length && want > 0
      modifies this, buf
      ensures -1 <= k <= want
      ensures script == (if old(script) == [] then [] else old(script)[1..])
      ensures k == -1 <==> old(script) != [] && !old(script)[0].Chunk?
      ensures eintr <==> old(script) != [] && old(script)[0] == Interrupted
      ensures k == 0 ==> old(unread) == []
      ensures k >= 0 ==> old(unread) == buf[off..off + k] + unread
      ensures k == -1 ==> unread == old(unread)
      ensures forall j :: 0 <= j < buf.Length && !(off <= j < off + k) ==> buf[j] == old(buf[j])
    {
      eintr := script != [] && script[0] == Interrupted;
      if script != [] && !script[0].Chunk? {
        k := -1;
      } else {
        var most := if script == [] || script[0].n > want then want else if script[0].n == 0 then 1 else script[0].n;
        k := Min(most, |unread|);
        forall j | 0 <= j < k { buf[off + j] := unread[j]; }
        assert buf[off..off + k] == unread[..k];
        unread := unread[k..];
      }
      script := if script == [] then [] else script[1..];
    }
  }

  // ---- Lines ----

  // How many bytes of `p` one line takes: up to and including the first newline, and
  // at most `most`.
  function LineLen(p: seq<char>, most: nat): (n: nat)
    ensures n <= |p| && n <= most
    ensures p != [] && most > 0 ==> n > 0
  {
    if p == [] || most == 0 then 0 else if p[0] == '\n' then 1 else 1 + LineLen(p[1..], most - 1)
  }

  lemma {:induction false} LineLenIs(p: seq<char>, most: nat, n: nat)
    requires n <= |p| && n <= most
    requires forall j :: 0 <= j < n - 1 ==> p[j] != '\n'
    requires (n > 0 && p[n - 1] == '\n') || n == most || n == |p|
    ensures LineLen(p, most) == n
  {
    if n > 0 && p[0] != '\n' { LineLenIs(p[1..], most - 1, n - 1); }
  }

  lemma {:induction false} LineLenMeans(p: seq<char>, most: nat)
    ensures var n := LineLen(p, most);
      && (forall j :: 0 <= j < n - 1 ==> p[j] != '\n')
      && ((n > 0 && p[n - 1] == '\n') || n == most || n == |p|)
  {
    if p != [] && most > 0 && p[0] != '\n' { LineLenMeans(p[1..], most - 1); }
  }

  ghost predicate EndsLine(s: seq<char>) {
    s != [] && s[|s| - 1] == '\n'
  }

  // The lines an unbuffered splitter cuts a stream into, each of at most `most` bytes.
  function Lines(p: seq<char>, most: nat): (ls: seq<seq<char>>)
    requires most > 0
    decreases |p|
  {
    if p == [] then []
    else var n := LineLen(p, most); [p[..n]] + Lines(p[n..], most)
  }

  function Concat(ls: seq<seq<char>>): seq<char> {
    if ls == [] then [] else ls[0] + Concat(ls[1..])
  }

  // A line is not empty, has a newline only at its end, and ends without one only when
  // it has reached the limit or is the last.
  ghost predicate IsSplit(ls: seq<seq<char>>, most: nat) {
    && (forall i :: 0 <= i < |ls| ==> 0 < |ls[i]| <= most && forall j :: 0 <= j < |ls[i]| - 1 ==> ls[i][j] != '\n')
    && (forall i :: 0 <= i < |ls| ==> EndsLine(ls[i]) || |ls[i]| == most || i == |ls| - 1)
  }

  lemma LinesNext(p: seq<char>, most: nat)
    requires most > 0
    ensures var n := LineLen(p, most);
      (n == 0 <==> p == []) && Lines(p, most) == (if p == [] then [] else [p[..n]] + Lines(p[n..], most))
  {
  }

  // The splitter loses and adds nothing, and is the only one that cuts this way.
  lemma {:induction false} LinesSplit(p: seq<char>, most: nat)
    requires most > 0
    ensures Concat(Lines(p, most)) == p && IsSplit(Lines(p, most), most)
    decreases |p|
  {
    if p != [] {
      LinesSplit(p[LineLen(p, most)..], most);
      SplitStep(p, most);
    }
  }

  lemma SplitStep(p: seq<char>, most: nat)
    requires p != [] && most > 0
    requires var q := p[LineLen(p, most)..]; Concat(Lines(q, most)) == q && IsSplit(Lines(q, most), most)
    ensures Concat(Lines(p, most)) == p && IsSplit(Lines(p, most), most)
  {
    hide LineLen, Lines, Concat, IsSplit;
    var n := LineLen(p, most);
    LinesNext(p, most);
    LinesNext(p[n..], most);
    FirstLine(p, most);
    SplitCons(p[..n], Lines(p[n..], most), most);
    assert p == p[..n] + p[n..];
  }

  lemma FirstLine(p: seq<char>, most: nat)
    ensures var n := LineLen(p, most);
      && (forall j :: 0 <= j < n - 1 ==> p[..n][j] != '\n')
      && (EndsLine(p[..n]) || n == most || n == |p|)
  {
    LineLenMeans(p, most);
  }

  lemma SplitCons(l: seq<char>, ls: seq<seq<char>>, most: nat)
    requires IsSplit(ls, most) && 0 < |l| <= most && forall j :: 0 <= j < |l| - 1 ==> l[j] != '\n'
    requires EndsLine(l) || |l| == most || ls == []
    ensures IsSplit([l] + ls, most) && Concat([l] + ls) == l + Concat(ls)
  {
    var all := [l] + ls;
    assert all[1..] == ls;
    hide EndsLine;
    forall i | 0 <= i < |all|
      ensures 0 < |all[i]| <= most && forall j :: 0 <= j < |all[i]| - 1 ==> all[i][j] != '\n'
      ensures EndsLine(all[i]) || |all[i]| == most || i == |all| - 1
    {
      if i > 0 { assert all[i] == ls[i - 1]; }
    }
  }

  lemma {:induction false} OnlySplit(ls: seq<seq<char>>, most: nat)
    requires most > 0 && IsSplit(ls, most)
    ensures Lines(Concat(ls), most) == ls
  {
    if ls != [] {
      var p, n, rest := Concat(ls), |ls[0]|, ls[1..];
      assert forall i :: 0 <= i < |rest| ==> rest[i] == ls[i + 1];
      OnlySplit(rest, most);
      assert p[..n] == ls[0] && p[n..] == Concat(rest);
      assert |ls| == 1 ==> Concat(rest) == [];
      LineLenIs(p, most, n);
    }
  }

  // ---- The reader ----

  // The bytes of the read buffer not yet handed out.
  ghost function Held(buf: seq<char>, ptr: nat, cnt: int): seq<char>
    requires cnt > 0 ==> ptr + cnt <= |buf|
  {
    if cnt > 0 then buf[ptr..ptr + cnt] else []
  }

  lemma FirstByte(buf: seq<char>, ptr: nat, cnt: int, unread: seq<char>)
    requires cnt > 0 && ptr + cnt <= |buf|
    ensures Held(buf, ptr, cnt) + unread == [buf[ptr]] + (Held(buf, ptr + 1, cnt - 1) + unread)
  {
  }

  // Of the pending bytes `p`, the first `k` are in `line` and `pending` are left.
  ghost predicate Got(p: seq<char>, k: nat, line: seq<char>, pending: seq<char>) {
    k <= |p| && k <= |line| && line[..k] == p[..k] && pending == p[k..]
  }

  lemma GotNothing(p: seq<char>, line: seq<char>)
    ensures Got(p, 0, line, p)
  {
  }

  // At the end of the stream.
  lemma GotAll(p: seq<char>, k: nat, line: seq<char>, pending: seq<char>, most: nat)
    requires Got(p, k, line, pending) && k <= most && forall j :: 0 <= j < k ==> p[j] != '\n'
    ensures line[..k] == p[..k] && pending == p[k..] && !EndsLine(p[..k])
    ensures pending == [] ==> k == LineLen(p, most)
  {
    if pending == [] { LineLenIs(p, most, k); }
  }

  // At a newline or at the limit.
  lemma GotLine(p: seq<char>, k: nat, line: seq<char>, pending: seq<char>, maxlen: nat)
    requires Got(p, k, line, pending) && forall j :: 0 <= j < k - 1 ==> p[j] != '\n'
    requires k <= maxlen - 1 || k == 0
    requires (k > 0 && p[k - 1] == '\n') || k + 1 >= maxlen
    ensures line[..k] == p[..k] && pending == p[k..]
    ensures k == LineLen(p, if maxlen == 0 then 0 else maxlen - 1)
    ensures EndsLine(p[..k]) <==> k > 0 && p[k - 1] == '\n'
  {
    LineLenIs(p, if maxlen == 0 then 0 else maxlen - 1, k);
  }

  lemma GotNext(p: seq<char>, k: nat, line: seq<char>, c: char, pending: seq<char>)
    requires Got(p, k, line, [c] + pending) && k < |line|
    ensures k < |p| && p[k] == c && Got(p, k + 1, line[k := c], pending)
  {
    assert p[k..] == [c] + pending;
    assert p[k] == p[k..][0];
    assert p[k + 1..] == p[k..][1..];
    assert p[..k + 1] == p[..k] + [c];
    assert line[k := c][..k + 1] == line[..k] + [c];
  }

  class Reader {
    const src: Source
    const readBuf: array<char>
    var readCnt: int
    var readPtr: nat

    ghost predicate Valid()
      reads this
    {
      readBuf.Length == 100 && readCnt <= 100 && (readCnt > 0 ==> readPtr + readCnt <= 100)
    }

    // Bytes read from the descriptor and not yet handed out.
    ghost function Buffered(): seq<char>
      requires Valid()
      reads this, readBuf
    {
      Held(readBuf[..], readPtr, readCnt)
    }

    // Everything still to be handed out.
    ghost function Pending(): seq<char>
      requires Valid()
      reads this, readBuf, src
    {
      Buffered() + src.unread
    }

    constructor (src: Source)
      ensures Valid() && this.src == src && fresh(readBuf) && Buffered() == [] && Pending() == src.unread
    {
      this.src := src;
      readBuf := new char[100];
      readCnt, readPtr := 0, 0;
    }

    // Fills the empty buffer, calling read again after every signal; fails exactly when
    // a read meets another error.
    method Fill() returns (rc: int)
      requires Valid() && readCnt <= 0
      modifies this, readBuf, src
      ensures Valid() && Pending() == old(Pending())
      ensures rc == 1 || rc == 0 || rc == -1
      ensures rc == 1 ==> readCnt > 0
      ensures rc == 0 ==> Pending() == []
      ensures Failures(old(src.script), false) == Failures(src.script, false) + (if rc == -1 then 1 else 0)
    {
      while true
        invariant Valid() && readCnt <= 0 && src.unread == old(src.unread)
        invariant Failures(src.script, false) == Failures(old(src.script), false)
        decreases |src.script|
      {
        var eintr;
        readCnt, eintr := src.Read(readBuf, 0, 100);
        if readCnt < 0 {
          if eintr { continue; }
          return -1;
        } else if readCnt == 0 {
          return 0;
        }
        break;
      }
      readPtr := 0;
      rc := 1;
    }

    // One byte, 0 at the end of the stream, -1 on an error other than a signal.
    method MyRead() returns (rc: int, c: char)
      requires Valid()
      modifies this, readBuf, src
      ensures Valid()
      ensures rc == 1 || rc == 0 || rc == -1
      ensures rc == 1 ==> old(Pending()) == [c] + Pending()
      ensures rc == 0 ==> old(Pending()) == [] == Pending()
      ensures rc == -1 ==> Pending() == old(Pending())
      ensures Failures(old(src.script), false) == Failures(src.script, false) + (if rc == -1 then 1 else 0)
    {
      hide Held, Failures;
      c := '\0';
      if readCnt <= 0 {
        rc := Fill();
        if rc != 1 { return; }
      }
      FirstByte(readBuf[..], readPtr, readCnt, src.unread);
      readCnt := readCnt - 1;
      c := readBuf[readPtr];
      readPtr := readPtr + 1;
      rc := 1;
    }

    // One line, as a string, into `line`; the number of bytes, one more than that on a
    // line cut short by `maxlen`, -1 on an error. `k` bytes were handed out.
    method Readline(line: array<char>, maxlen: nat) returns (n: int, ghost k: nat)
      requires Valid() && line != readBuf && line.Length >= maxlen && line.Length >= 1
      modifies this, readBuf, src, line
      ensures Valid()
      ensures k < line.Length && k <= |old(Pending())|
      ensures line[..k] == old(Pending())[..k] && Pending() == old(Pending())[k..]
      ensures n != -1 ==> line[k] == '\0' && k == LineLen(old(Pending()), if maxlen == 0 then 0 else maxlen - 1)
      ensures n != -1 ==> n == (if EndsLine(line[..k]) || k + 1 < maxlen then k else k + 1)
      ensures forall j :: k < j < line.Length ==> line[j] == old(line[j])
      ensures Failures(old(src.script), false) == Failures(src.script, false) + (if n == -1 then 1 else 0)
    {
      hide Got, LineLen, EndsLine, Valid, Buffered, Pending, Failures;
      ghost var p := Pending();
      GotNothing(p, line[..]);
      var ptr := 0;
      n, k := 1, 0;
      while n < maxlen
        invariant Valid() && n == k + 1 && ptr == k && (n <= maxlen || n == 1)
        invariant k <= |p| && Got(p, k, line[..], Pending())
        invariant forall j :: 0 <= j < k ==> p[j] != '\n'
        invariant forall j :: k <= j < line.Length ==> line[j] == old(line[j])
        invariant Failures(src.script, false) == Failures(old(src.script), false)
      {
        ghost var was, pending := line[..], Pending();
        var rc, c := MyRead();
        if rc == 1 {
          assert line[..] == was;
          GotNext(p, k, was, c, Pending());
          line[ptr] := c;
          assert line[..] == was[k := c];
          ptr, k := ptr + 1, k + 1;
          if c == '\n' { break; }
        } else {
          GotAll(p, k, line[..], Pending(), maxlen - 1);
          if rc == 0 {
            line[ptr] := '\0';
            return n - 1, k;
          } else {
            return -1, k;
          }
        }
        n := n + 1;
      }
      GotLine(p, k, line[..], Pending(), maxlen);
      line[ptr] := '\0';
    }

    // Successive calls until the end of the stream.
    method ReadLines(maxlen: nat) returns (lines: seq<seq<char>>)
      requires Valid() && maxlen >= 2 && Failures(src.script, false) == 0
      modifies this, readBuf, src
      ensures Valid() && Pending() == []
      ensures lines == Lines(old(Pending()), maxlen - 1)
    {
      hide Lines, LineLen, EndsLine, Valid, Buffered, Pending, Failures;
      ghost var p := Pending();
      var line := new char[maxlen];
      lines := [];
      while true
        invariant Valid() && Failures(src.script, false) == 0 && fresh(line)
        invariant lines + Lines(Pending(), maxlen - 1) == Lines(p, maxlen - 1)
        decreases |Pending()|
      {
        ghost var q := Pending();
        var n, k := Readline(line, maxlen);
        LinesNext(q, maxlen - 1);
        if n == 0 { break; }
        var m := if n == maxlen then maxlen - 1 else n;
        lines := lines + [line[..m]];
      }
    }
  }

  // ---- Whole buffers ----

  lemma SplitAt(b: seq<char>, k: nat, n: nat)
    requires k + n <= |b|
    ensures b[..k + n] == b[..k] + b[k..k + n]
  {
  }

  // Reads `n` bytes unless the stream ends first; `k` bytes were read in any case.
  method Readn(src: Source, buf: array<char>, n: nat) returns (r: int, ghost k: nat)
    requires n <= buf.Length
    modifies src, buf
    ensures k <= n && old(src.unread) == buf[..k] + src.unread
    ensures forall j :: k <= j < buf.Length ==> buf[j] == old(buf[j])
    ensures r == -1 || r == k == Min(n, |old(src.unread)|)
    ensures Failures(old(src.script), false) == Failures(src.script, false) + (if r == -1 then 1 else 0)
  {
    hide Failures;
    var nleft := n;
    k := 0;
    while nleft > 0
      invariant nleft == n - k && 0 <= k <= n
      invariant old(src.unread) == buf[..k] + src.unread
      invariant forall j :: k <= j < buf.Length ==> buf[j] == old(buf[j])
      invariant Failures(src.script, false) == Failures(old(src.script), false)
      decreases |src.script|, nleft
    {
      ghost var before := buf[..k];
      OneCall(src.script, false);
      var nread, eintr := src.Read(buf, n - nleft, nleft);
      assert buf[..k] == before;
      if nread < 0 {
        if eintr { nread := 0; } else { return -1, k; }
      } else if nread == 0 {
        break;
      }
      ghost var all := buf[..];
      SplitAt(all, k, nread);
      assert buf[..k + nread] == all[..k + nread] && buf[k..k + nread] == all[k..k + nread] && buf[..k] == all[..k];
      nleft := nleft - nread;
      k := k + nread;
    }
    r := n - nleft;
  }

  // A descriptor open for writing: the bytes it has taken.
  class Sink {
    var written: seq<char>
    var script: seq<Event>

    constructor (script: seq<Event>)
      ensures written == [] && this.script == script
    {
      written, this.script := [], script;
    }

    // write(2): the number of bytes taken, or -1 on an error, which may be EINTR.
    method Write(data: seq<char>) returns (k: int, eintr: bool)
      requires data != []
      modifies this
      ensures -1 <= k <= |data|
      ensures script == (if old(script) == [] then [] else old(script)[1..])
      ensures eintr <==> old(script) != [] && old(script)[0] == Interrupted
      ensures k == (if old(script) == [] then |data|
                    else if old(script)[0].Chunk? then Min(old(script)[0].n, |data|) else -1)
      ensures written == old(written) + data[..if k < 0 then 0 else k]
    {
      eintr := script != [] && script[0] == Interrupted;
      if script != [] && !script[0].Chunk? {
        k := -1;
      } else {
        k := if script == [] then |data| else Min(script[0].n, |data|);
        written := written + data[..k];
      }
      script := if script == [] then [] else script[1..];
    }
  }

  // Writes the whole of `data`, or fails with a proper part of it written. A write
  // that takes nothing is a failure.
  method Writen(sink: Sink, data: seq<char>) returns (r: int, ghost k: nat)
    modifies sink
    ensures k <= |data| && sink.written == old(sink.written) + data[..k]
    ensures r == |data| == k || (r == -1 && k < |data|)
    ensures Failures(old(sink.script), true) == Failures(sink.script, true) + (if r == -1 then 1 else 0)
  {
    var nleft := |data|;
    k := 0;
    while nleft > 0
      invariant nleft == |data| - k && 0 <= k <= |data|
      invariant sink.written == old(sink.written) + data[..k]
      invariant Failures(sink.script, true) == Failures(old(sink.script), true)
      decreases |sink.script|, nleft
    {
      ghost var rest := data[k..];
      var nwritten, eintr := sink.Write(data[|data| - nleft..]);
      if nwritten <= 0 {
        if nwritten < 0 && eintr { nwritten := 0; } else { return -1, k; }
      }
      assert data[..k] + rest[..nwritten] == data[..k + nwritten];
      nleft := nleft - nwritten;
      k := k + nwritten;
    }
    r := |data|;
  }
}
