/** Which block the merge took from last, and what the index left over from that block
    does once every head is LONG_MAX. */
module BlockMergeLeft {
  import opened BlockMerge

  predicate In(bs: seq<seq<int>>, i: int, k: int) {
    0 <= i < |bs| && 0 <= k < |bs[i]|
  }

  ghost predicate Longs(bs: seq<seq<int>>) {
    forall i, k :: In(bs, i, k) ==> bs[i][k] <= LONG_MAX
  }

  // No head is below LONG_MAX, as a round without a new minimum finds.
  ghost predicate NoneBelow(bs: seq<seq<int>>, used: seq<nat>)
    requires Within(bs, used)
  {
    forall i :: 0 <= i < |bs| && used[i] < |bs[i]| ==> bs[i][used[i]] >= LONG_MAX
  }

  // The scan settles for the first of several least heads.
  ghost predicate FirstLeast(bs: seq<seq<int>>, used: seq<nat>, m: nat)
    requires Within(bs, used)
  {
    && LeastHead(bs, used, m) && bs[m][used[m]] < LONG_MAX
    && forall i :: 0 <= i < m && used[i] < |bs[i]| ==> bs[i][used[i]] > bs[m][used[m]]
  }

  // `v` is the greatest number below LONG_MAX, and no block behind `m` holds it.
  ghost predicate Tops(bs: seq<seq<int>>, m: int, v: int) {
    && v < LONG_MAX
    && (forall i, k :: In(bs, i, k) && bs[i][k] < LONG_MAX ==> bs[i][k] <= v)
    && (forall i, k :: In(bs, i, k) && m < i && bs[i][k] < LONG_MAX ==> bs[i][k] < v)
  }

  // Block `m` is the last one that holds the greatest number below LONG_MAX.
  ghost predicate LastBelow(bs: seq<seq<int>>, m: int) {
    0 <= m < |bs| && exists k :: 0 <= k < |bs[m]| && Tops(bs, m, bs[m][k])
  }

  ghost predicate AllBelow(bs: seq<seq<int>>) {
    forall i, k :: In(bs, i, k) ==> bs[i][k] < LONG_MAX
  }

  // Any LONG_MAX is in that block.
  ghost predicate MaxInLast(bs: seq<seq<int>>) {
    AllBelow(bs) || exists m :: LastBelow(bs, m) && OnlyIn(bs, m)
  }

  ghost predicate OnlyIn(bs: seq<seq<int>>, m: int) {
    forall i, k :: In(bs, i, k) && bs[i][k] == LONG_MAX ==> i == m
  }

  lemma LastBelowUnique(bs: seq<seq<int>>, m: int, n: int)
    requires LastBelow(bs, m) && LastBelow(bs, n)
    ensures m == n
  {
    var j :| 0 <= j < |bs[m]| && Tops(bs, m, bs[m][j]);
    var k :| 0 <= k < |bs[n]| && Tops(bs, n, bs[n][k]);
    assert In(bs, m, j) && In(bs, n, k);
  }

  // ---- While every round finds a minimum ----

  // `v` was taken last, from block `m`: blocks before it have greater heads, nothing
  // taken is greater, and nothing taken from a block behind is as great.
  ghost predicate Latest(bs: seq<seq<int>>, used: seq<nat>, v: int, m: int)
    requires Within(bs, used)
  {
    && 0 <= m < |bs| && used[m] > 0 && bs[m][used[m] - 1] == v
    && (forall i :: 0 <= i < m && used[i] < |bs[i]| ==> bs[i][used[i]] > v)
    && (forall i, k :: In(bs, i, k) && k < used[i] ==> bs[i][k] <= v)
    && (forall i, k :: In(bs, i, k) && m < i && k < used[i] ==> bs[i][k] < v)
  }

  lemma LatestFirst(bs: seq<seq<int>>, used: seq<nat>, m: nat)
    requires Within(bs, used) && FirstLeast(bs, used, m) && forall i :: 0 <= i < |used| ==> used[i] == 0
    ensures Latest(bs, used[m := 1], bs[m][0], m)
  {
  }

  lemma LatestNext(bs: seq<seq<int>>, used: seq<nat>, v: int, m: int, n: nat)
    requires Within(bs, used) && Latest(bs, used, v, m) && FirstLeast(bs, used, n) && v <= bs[n][used[n]]
    ensures Latest(bs, used[n := used[n] + 1], bs[n][used[n]], n)
  {
    var used', w := used[n := used[n] + 1], bs[n][used[n]];
    forall i, k | In(bs, i, k) && k < used'[i] ensures bs[i][k] <= w && (n < i ==> bs[i][k] < w) {
      assert i != n ==> k < used[i];
      assert k < used[i] ==> bs[i][k] <= v;
      if v == w && n < i { assert m <= n; }
    }
  }

  // ---- Once a round finds none ----

  // The index is left at block `m`, the last one to hold the greatest number below
  // LONG_MAX; everything left is LONG_MAX, and nothing taken elsewhere is.
  ghost predicate LeftAt(bs: seq<seq<int>>, used: seq<nat>, m: int)
    requires Within(bs, used)
  {
    && LastBelow(bs, m)
    && (forall i, k :: In(bs, i, k) && used[i] <= k ==> bs[i][k] == LONG_MAX)
    && (forall i, k :: In(bs, i, k) && i != m && k < used[i] ==> bs[i][k] < LONG_MAX)
  }

  lemma RestIsMax(bs: seq<seq<int>>, used: seq<nat>)
    requires Within(bs, used) && AllSorted(bs) && Longs(bs) && NoneBelow(bs, used)
    ensures forall i, k :: In(bs, i, k) && used[i] <= k ==> bs[i][k] == LONG_MAX
  {
    forall i, k | In(bs, i, k) && used[i] <= k ensures bs[i][k] == LONG_MAX {
      assert Sorted(bs[i]) && bs[i][used[i]] <= bs[i][k];
    }
  }

  lemma LatestLeaves(bs: seq<seq<int>>, used: seq<nat>, v: int, m: int)
    requires Within(bs, used) && AllSorted(bs) && Longs(bs) && NoneBelow(bs, used)
    requires Latest(bs, used, v, m) && v < LONG_MAX
    ensures LeftAt(bs, used, m)
  {
    RestIsMax(bs, used);
    forall i, k | In(bs, i, k) && bs[i][k] < LONG_MAX ensures k < used[i] {}
    assert In(bs, m, used[m] - 1);
    assert Tops(bs, m, bs[m][used[m] - 1]);
  }

  lemma LeftAtNext(bs: seq<seq<int>>, used: seq<nat>, m: int)
    requires Within(bs, used) && LeftAt(bs, used, m) && used[m] < |bs[m]|
    ensures LeftAt(bs, used[m := used[m] + 1], m)
  {
  }

  // Everything taken: any LONG_MAX was in block `m`.
  lemma LeftAtDone(bs: seq<seq<int>>, used: seq<nat>, m: int)
    requires Within(bs, used) && LeftAt(bs, used, m) && forall i :: 0 <= i < |bs| ==> used[i] == |bs[i]|
    ensures MaxInLast(bs)
  {
    assert OnlyIn(bs, m);
  }

  // Block `m` is used up and another has a head: not all were.
  lemma LeftAtOutside(bs: seq<seq<int>>, used: seq<nat>, m: int)
    requires Within(bs, used) && LeftAt(bs, used, m) && used[m] == |bs[m]|
    requires exists i :: 0 <= i < |bs| && used[i] < |bs[i]|
    ensures !MaxInLast(bs)
  {
    var i :| 0 <= i < |bs| && used[i] < |bs[i]|;
    assert In(bs, i, used[i]) && bs[i][used[i]] == LONG_MAX;
    forall n | LastBelow(bs, n) ensures !OnlyIn(bs, n) { LastBelowUnique(bs, m, n); }
  }

  // A first round that finds none: every number is LONG_MAX.
  lemma NeverBelow(bs: seq<seq<int>>, used: seq<nat>)
    requires Within(bs, used) && AllSorted(bs) && Longs(bs) && NoneBelow(bs, used)
    requires forall i :: 0 <= i < |used| ==> used[i] == 0
    requires exists i :: 0 <= i < |bs| && used[i] < |bs[i]|
    ensures !MaxInLast(bs) && AllMax(bs)
  {
    RestIsMax(bs, used);
    var i :| 0 <= i < |bs| && used[i] < |bs[i]|;
    assert In(bs, i, 0);
    forall m, k | 0 <= m < |bs| && 0 <= k < |bs[m]| ensures !Tops(bs, m, bs[m][k]) { assert In(bs, m, k); }
  }

  // ---- The two together, as the merge loop goes ----

  // What is known of the index `m` when `out` is written; `stale` says that some round
  // found no minimum. The order matters only for sorted blocks.
  ghost predicate Trail(bs: seq<seq<int>>, used: seq<nat>, out: seq<int>, m: int, stale: bool)
    requires Within(bs, used)
  {
    && (stale ==> !AllBelow(bs) && out != [])
    && (!stale ==> forall o :: o in out ==> o < LONG_MAX)
    && (out != [] ==> 0 <= m < |bs|)
    && (out == [] ==> forall i :: 0 <= i < |used| ==> used[i] == 0)
    && (AllSorted(bs) && out != [] ==>
          if stale then LeftAt(bs, used, m) else Latest(bs, used, out[|out| - 1], m))
  }

  lemma TrailFound(bs: seq<seq<int>>, used: seq<nat>, out: seq<int>, m: int, stale: bool, n: nat)
    requires Merging(bs, used, out) && Trail(bs, used, out, m, stale) && FirstLeast(bs, used, n)
    ensures Trail(bs, used[n := used[n] + 1], out + [bs[n][used[n]]], n, stale)
  {
    hide Taken, UsedSorted, Sorted, AllBelow;
    var v := bs[n][used[n]];
    assert In(bs, n, used[n]);
    if AllSorted(bs) {
      if out == [] {
        LatestFirst(bs, used, n);
      } else if !stale {
        assert AllAtMost(out, v) && out[|out| - 1] in out;
        LatestNext(bs, used, out[|out| - 1], m, n);
      }
    }
  }

  lemma TrailStart(bs: seq<seq<int>>, used: seq<nat>, m: int)
    requires Within(bs, used) && forall i :: 0 <= i < |used| ==> used[i] == 0
    ensures Trail(bs, used, [], m, false)
  {
  }

  lemma TrailNone(bs: seq<seq<int>>, used: seq<nat>, out: seq<int>, m: int, stale: bool)
    requires Merging(bs, used, out) && Trail(bs, used, out, m, stale) && Longs(bs) && NoneBelow(bs, used)
    requires out != [] && exists i :: 0 <= i < |bs| && used[i] < |bs[i]|
    ensures Trail(bs, used, out, m, true)
  {
    hide Taken, UsedSorted, Sorted, Ahead, LeftAt, Latest;
    var i :| 0 <= i < |bs| && used[i] < |bs[i]|;
    assert In(bs, i, used[i]);
    if AllSorted(bs) && !stale {
      assert out[|out| - 1] in out;
      LatestLeaves(bs, used, out[|out| - 1], m);
    }
  }

  // A leftover head is a least head too, since all are LONG_MAX.
  lemma TrailLeft(bs: seq<seq<int>>, used: seq<nat>, out: seq<int>, m: nat)
    requires Within(bs, used) && Trail(bs, used, out, m, true) && Longs(bs) && NoneBelow(bs, used)
    requires m < |bs| && used[m] < |bs[m]|
    ensures LeastHead(bs, used, m)
    ensures Trail(bs, used[m := used[m] + 1], out + [bs[m][used[m]]], m, true)
  {
    hide AllBelow;
    assert In(bs, m, used[m]);
    if AllSorted(bs) { LeftAtNext(bs, used, m); }
  }

  // A leftover block that is used up, with something still to write.
  lemma TrailOutside(bs: seq<seq<int>>, used: seq<nat>, out: seq<int>, m: int)
    requires Within(bs, used) && Trail(bs, used, out, m, true)
    requires 0 <= m < |bs| && used[m] == |bs[m]| && exists i :: 0 <= i < |bs| && used[i] < |bs[i]|
    ensures !AllBelow(bs) && (AllSorted(bs) ==> !MaxInLast(bs) && !AllMax(bs))
  {
    if AllSorted(bs) {
      LeftAtOutside(bs, used, m);
      var k :| 0 <= k < |bs[m]| && Tops(bs, m, bs[m][k]);
      assert In(bs, m, k);
    }
  }

  ghost predicate AllMax(bs: seq<seq<int>>) {
    forall i, k :: In(bs, i, k) ==> bs[i][k] == LONG_MAX
  }

  lemma NotAllMax(bs: seq<seq<int>>, i: int)
    requires MaxInLast(bs) && In(bs, i, 0)
    ensures !AllMax(bs)
  {
    if !AllBelow(bs) {
      var m :| LastBelow(bs, m) && OnlyIn(bs, m);
      var k :| 0 <= k < |bs[m]| && Tops(bs, m, bs[m][k]);
      assert In(bs, m, k);
    }
  }

  lemma TrailDone(bs: seq<seq<int>>, used: seq<nat>, out: seq<int>, m: int, stale: bool)
    requires Merging(bs, used, out) && Trail(bs, used, out, m, stale)
    requires forall i :: 0 <= i < |bs| ==> used[i] == |bs[i]|
    ensures stale <==> !AllBelow(bs)
    ensures AllSorted(bs) ==> MaxInLast(bs)
  {
    if stale {
      if AllSorted(bs) { LeftAtDone(bs, used, m); }
    } else {
      hide Taken, UsedSorted, Sorted, Ahead, Latest;
      forall i, k | In(bs, i, k) ensures bs[i][k] < LONG_MAX {
        TakenHas(bs, used, |bs|, i, k);
        assert bs[i][k] in multiset(out);
        assert bs[i][k] in out;
      }
    }
  }
}
