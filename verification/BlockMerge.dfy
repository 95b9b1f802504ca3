/** The state of a merge of equal blocks that repeatedly takes the least head: which
    numbers are written, and what that keeps. */
module BlockMerge {

  const LONG_MAX: int := 0x7fff_ffff_ffff_ffff

  ghost predicate Sorted(s: seq<int>) {
    forall j, k :: 0 <= j <= k < |s| ==> s[j] <= s[k]
  }

  // Where block `i` starts, and the block itself.
  function First(i: nat, tnum: nat): nat {
    i * tnum
  }

  ghost function Block(s: seq<int>, i: nat, tnum: nat): (b: seq<int>)
    requires First(i + 1, tnum) <= |s|
    ensures |b| == tnum
  {
    s[First(i, tnum)..First(i, tnum) + tnum]
  }

  ghost function Blocks(s: seq<int>, nthr: nat, tnum: nat): (bs: seq<seq<int>>)
    requires First(nthr, tnum) <= |s|
    ensures |bs| == nthr && forall i :: 0 <= i < nthr ==> |bs[i]| == tnum
  {
    if nthr == 0 then []
    else Below(nthr - 1, nthr, tnum); Blocks(s, nthr - 1, tnum) + [Block(s, nthr - 1, tnum)]
  }

  lemma Below(i: nat, n: nat, tnum: nat)
    requires i <= n
    ensures First(i, tnum) <= First(n, tnum)
    ensures First(i + 1, tnum) == First(i, tnum) + tnum
  {
    assert First(n, tnum) == First(i, tnum) + (n - i) * tnum;
  }

  lemma {:induction false} BlockAt(s: seq<int>, nthr: nat, tnum: nat, i: nat)
    requires i < nthr && First(nthr, tnum) <= |s|
    ensures First(i, tnum) + tnum <= |s|
    ensures Blocks(s, nthr, tnum)[i] == s[First(i, tnum)..First(i, tnum) + tnum]
  {
    Below(i + 1, nthr, tnum);
    Below(i, i, tnum);
    Below(nthr - 1, nthr, tnum);
    if i < nthr - 1 { BlockAt(s, nthr - 1, tnum, i); }
  }

  ghost predicate AllSorted(bs: seq<seq<int>>) {
    forall i :: 0 <= i < |bs| ==> Sorted(bs[i])
  }

  // ---- The state of the merge: `used[i]` numbers of block `i` are written to `out` ----

  ghost predicate Within(bs: seq<seq<int>>, used: seq<nat>) {
    |bs| == |used| && forall i :: 0 <= i < |bs| ==> used[i] <= |bs[i]|
  }

  // What has been taken from the first `n` blocks.
  ghost function Taken(bs: seq<seq<int>>, used: seq<nat>, n: nat): multiset<int>
    requires Within(bs, used) && n <= |bs|
  {
    if n == 0 then multiset{} else Taken(bs, used, n - 1) + multiset(bs[n - 1][..used[n - 1]])
  }

  // Nothing written is greater than `v`.
  ghost predicate AllAtMost(out: seq<int>, v: int) {
    forall o :: o in out ==> o <= v
  }

  // Nothing left over is smaller than anything written.
  ghost predicate Ahead(bs: seq<seq<int>>, used: seq<nat>, out: seq<int>)
    requires Within(bs, used)
  {
    forall i, k :: 0 <= i < |bs| && used[i] <= k < |bs[i]| ==> AllAtMost(out, bs[i][k])
  }

  ghost predicate UsedSorted(bs: seq<seq<int>>, used: seq<nat>)
    requires Within(bs, used)
  {
    forall i :: 0 <= i < |bs| ==> Sorted(bs[i][..used[i]])
  }

  ghost predicate Merging(bs: seq<seq<int>>, used: seq<nat>, out: seq<int>) {
    && Within(bs, used)
    && multiset(out) == Taken(bs, used, |bs|)
    && (AllSorted(bs) ==> Sorted(out) && Ahead(bs, used, out))
    && (Sorted(out) ==> UsedSorted(bs, used))
  }

  // Block `m` has a head, and no other head is smaller.
  ghost predicate LeastHead(bs: seq<seq<int>>, used: seq<nat>, m: nat)
    requires Within(bs, used)
  {
    && m < |bs| && used[m] < |bs[m]|
    && forall i :: 0 <= i < |bs| && used[i] < |bs[i]| ==> bs[m][used[m]] <= bs[i][used[i]]
  }

  // ---- What is taken ----

  lemma {:induction false} TakenFrame(bs: seq<seq<int>>, used: seq<nat>, n: nat, m: nat, v: nat)
    requires Within(bs, used) && n <= m < |bs| && v <= |bs[m]|
    ensures Taken(bs, used[m := v], n) == Taken(bs, used, n)
  {
    if n > 0 { TakenFrame(bs, used, n - 1, m, v); }
  }

  lemma {:induction false} TakenNext(bs: seq<seq<int>>, used: seq<nat>, n: nat, m: nat)
    requires Within(bs, used) && m < n <= |bs| && used[m] < |bs[m]|
    ensures Taken(bs, used[m := used[m] + 1], n) == Taken(bs, used, n) + multiset{bs[m][used[m]]}
  {
    var next := used[m := used[m] + 1];
    if m == n - 1 {
      TakenFrame(bs, used, m, m, used[m] + 1);
      assert bs[m][..used[m] + 1] == bs[m][..used[m]] + [bs[m][used[m]]];
    } else {
      TakenNext(bs, used, n - 1, m);
    }
  }

  lemma {:induction false} TakenStart(bs: seq<seq<int>>, used: seq<nat>, n: nat)
    requires Within(bs, used) && n <= |bs| && forall i :: 0 <= i < n ==> used[i] == 0
    ensures Taken(bs, used, n) == multiset{}
  {
    if n > 0 { TakenStart(bs, used, n - 1); }
  }

  // What has been taken from a block is in the output.
  lemma {:induction false} TakenHas(bs: seq<seq<int>>, used: seq<nat>, n: nat, m: nat, k: nat)
    requires Within(bs, used) && m < n <= |bs| && k < used[m]
    ensures bs[m][k] in Taken(bs, used, n)
  {
    if m == n - 1 {
      assert bs[m][..used[m]][k] == bs[m][k];
      assert bs[m][k] in multiset(bs[m][..used[m]]);
    } else {
      TakenHas(bs, used, n - 1, m, k);
    }
  }

  // All the numbers taken means every block is used up; and then the blocks together
  // are the whole array.
  lemma {:induction false} TakenSize(bs: seq<seq<int>>, used: seq<nat>, tnum: nat, n: nat)
    requires Within(bs, used) && n <= |bs| && forall i :: 0 <= i < |bs| ==> |bs[i]| == tnum
    ensures |Taken(bs, used, n)| <= First(n, tnum)
    ensures |Taken(bs, used, n)| == First(n, tnum) <==> forall i :: 0 <= i < n ==> used[i] == tnum
  {
    if n > 0 {
      TakenSize(bs, used, tnum, n - 1);
      Below(n - 1, n, tnum);
      assert |multiset(bs[n - 1][..used[n - 1]])| == used[n - 1];
    }
  }

  lemma {:induction false} TakenAll(s: seq<int>, used: seq<nat>, nthr: nat, tnum: nat, n: nat)
    requires n <= nthr == |used| && First(nthr, tnum) <= |s|
    requires forall i :: 0 <= i < nthr ==> used[i] == tnum
    ensures First(n, tnum) <= |s| && Taken(Blocks(s, nthr, tnum), used, n) == multiset(s[..First(n, tnum)])
  {
    Below(n, nthr, tnum);
    if n > 0 {
      TakenAll(s, used, nthr, tnum, n - 1);
      BlockAt(s, nthr, tnum, n - 1);
      Below(n - 1, n, tnum);
      var a, b := First(n - 1, tnum), First(n, tnum);
      assert s[..b] == s[..a] + s[a..b];
      assert Blocks(s, nthr, tnum)[n - 1][..tnum] == s[a..b];
    } else {
      assert s[..First(0, tnum)] == [];
    }
  }

  // ---- One round ----

  lemma TakeLeast(bs: seq<seq<int>>, used: seq<nat>, out: seq<int>, m: nat)
    requires Merging(bs, used, out) && LeastHead(bs, used, m)
    ensures Merging(bs, used[m := used[m] + 1], out + [bs[m][used[m]]])
  {
    var v := bs[m][used[m]];
    TakenNext(bs, used, |bs|, m);
    if AllSorted(bs) { TakeKeepsOrder(bs, used, out, m); }
    if Sorted(out + [v]) { TakeShowsOrder(bs, used, out, m); }
    hide AllSorted, Sorted, Ahead, UsedSorted, Taken;
    assert multiset(out + [v]) == multiset(out) + multiset{v};
  }

  lemma TakeKeepsOrder(bs: seq<seq<int>>, used: seq<nat>, out: seq<int>, m: nat)
    requires Merging(bs, used, out) && LeastHead(bs, used, m) && AllSorted(bs)
    ensures Sorted(out + [bs[m][used[m]]])
    ensures Ahead(bs, used[m := used[m] + 1], out + [bs[m][used[m]]])
  {
    hide Taken, UsedSorted;
    var next, v := used[m := used[m] + 1], bs[m][used[m]];
    assert AllAtMost(out, v);
    assert forall j :: 0 <= j < |out| ==> out[j] in out;
    forall i, k | 0 <= i < |bs| && next[i] <= k < |bs[i]| ensures AllAtMost(out + [v], bs[i][k]) {
      assert AllAtMost(out, bs[i][k]);
      assert used[i] <= k && bs[i][used[i]] <= bs[i][k];
    }
  }

  lemma TakeShowsOrder(bs: seq<seq<int>>, used: seq<nat>, out: seq<int>, m: nat)
    requires Merging(bs, used, out) && LeastHead(bs, used, m) && Sorted(out + [bs[m][used[m]]])
    ensures UsedSorted(bs, used[m := used[m] + 1])
  {
    hide Taken, AllSorted, Ahead;
    var v, all := bs[m][used[m]], out + [bs[m][used[m]]];
    assert Sorted(out) by {
      forall j, k | 0 <= j <= k < |out| ensures out[j] <= out[k] { assert all[j] <= all[k]; }
    }
    var b := bs[m][..used[m] + 1];
    forall j, k | 0 <= j <= k < |b| ensures b[j] <= b[k] {
      if k < used[m] {
        assert bs[m][..used[m]][j] <= bs[m][..used[m]][k];
      } else if j < used[m] {
        TakenHas(bs, used, |bs|, m, j);
        assert b[j] in multiset(out);
        var p :| 0 <= p < |out| && out[p] == b[j];
        assert all[p] <= all[|out|];
      }
    }
  }

  // While not everything is written, some block has a head.
  lemma SomeHead(bs: seq<seq<int>>, used: seq<nat>, tnum: nat, out: seq<int>)
    requires Merging(bs, used, out) && |out| < First(|bs|, tnum)
    requires forall i :: 0 <= i < |bs| ==> |bs[i]| == tnum
    ensures exists i :: 0 <= i < |bs| && used[i] < |bs[i]|
  {
    hide AllSorted, Sorted, Ahead, UsedSorted, First;
    TakenSize(bs, used, tnum, |bs|);
    assert |multiset(out)| == |out|;
  }

  // At the end the output is a permutation, in order exactly when every block was.
  lemma MergeDone(s: seq<int>, nthr: nat, tnum: nat, used: seq<nat>, out: seq<int>)
    requires |out| == |s| == First(nthr, tnum) && Merging(Blocks(s, nthr, tnum), used, out)
    ensures multiset(out) == multiset(s)
    ensures forall i :: 0 <= i < nthr ==> used[i] == tnum
    ensures Sorted(out) <==> AllSorted(Blocks(s, nthr, tnum))
  {
    var bs := Blocks(s, nthr, tnum);
    hide Blocks, Sorted, Ahead, UsedSorted, AllSorted;
    assert multiset(out) == multiset(s) && forall i :: 0 <= i < nthr ==> used[i] == tnum by {
      TakenSize(bs, used, tnum, nthr);
      assert |multiset(out)| == |out|;
      TakenAll(s, used, nthr, tnum, nthr);
      assert s[..|s|] == s;
    }
    SameOrder(bs, used, out);
  }

  lemma SameOrder(bs: seq<seq<int>>, used: seq<nat>, out: seq<int>)
    requires Merging(bs, used, out) && forall i :: 0 <= i < |bs| ==> used[i] == |bs[i]|
    ensures Sorted(out) <==> AllSorted(bs)
  {
    hide Taken, Ahead, Sorted;
    forall i | 0 <= i < |bs| ensures bs[i][..used[i]] == bs[i] {}
  }
}
