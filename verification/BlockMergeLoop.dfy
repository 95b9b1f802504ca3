/** The merge itself: nested loops that fill the output array, with the index of the
    block to take from carried over from round to round. */
module BlockMergeLoop {
  import opened BlockMerge
  import opened BlockMergeLeft

  // The index array points at the heads: `used[j]` numbers into block `j`.
  ghost predicate Heads(idx: seq<int>, used: seq<nat>, tnum: nat) {
    |idx| == |used| && forall j :: 0 <= j < |idx| ==> idx[j] == First(j, tnum) + used[j]
  }

  // Done: all is written. Unset: a round takes from a block although none was ever
  // chosen. Outside: it takes from a block that is used up, reading behind its end.
  datatype Outcome = Done | Unset | Outside

  ghost predicate NumsAtMost(nums: seq<int>) {
    forall k :: 0 <= k < |nums| ==> nums[k] <= LONG_MAX
  }

  // The loop's state, at the start of a round.
  ghost predicate Going(s: seq<int>, nthr: nat, tnum: nat, used: seq<nat>, idx: seq<int>, out: seq<int>,
                        m: int, stale: bool)
    requires |s| == First(nthr, tnum)
  {
    var bs := Blocks(s, nthr, tnum);
    |used| == nthr && Heads(idx, used, tnum) && Merging(bs, used, out) && Trail(bs, used, out, m, stale)
  }

  // Fills `snums` from the blocks of `nums`. A round without a head below LONG_MAX takes
  // from the block that the last round took from; `stale` says there was one.
  method Merge(nums: array<int>, snums: array<int>, nthr: nat, tnum: nat) returns (end: Outcome, stale: bool)
    requires nums != snums && nums.Length == snums.Length == First(nthr, tnum) && NumsAtMost(nums[..])
    modifies snums
    ensures var bs := Blocks(nums[..], nthr, tnum);
      && (stale <==> !AllBelow(bs)) && (!stale ==> end == Done)
      && (end == Done ==> multiset(snums[..]) == multiset(nums[..]) && (Sorted(snums[..]) <==> AllSorted(bs)))
      && (AllSorted(bs) ==> (end == Done <==> MaxInLast(bs)))
      && (AllSorted(bs) ==> (end == Unset <==> nums.Length > 0 && AllMax(bs)))
  {
    ghost var s := nums[..];
    ghost var used: seq<nat> := seq(nthr, i => 0);
    var idx := new int[nthr];
    for i := 0 to nthr
      invariant forall j :: 0 <= j < i ==> idx[j] == First(j, tnum)
    {
      idx[i] := i * tnum;
    }
    var minidx: int := *;
    end, stale := Done, false;
    GoingStart(s, nthr, tnum, used, idx[..], minidx);
    assert snums[..0] == [];
    hide First, Going, NumsAtMost, Blocks, AllBelow, MaxInLast, AllSorted, Sorted, AllMax;
    for sidx := 0 to nums.Length
      invariant nums[..] == s && end == Done
      invariant Going(s, nthr, tnum, used, idx[..], snums[..sidx], minidx, stale)
    {
      end, minidx, stale, used := Round(nums, snums, idx, nthr, tnum, sidx, minidx, stale, used);
      if end != Done { return; }
    }
    assert snums[..] == snums[..nums.Length];
    MergeEnds(s, nthr, tnum, used, idx[..], snums[..], minidx, stale);
  }

  lemma GoingStart(s: seq<int>, nthr: nat, tnum: nat, used: seq<nat>, idx: seq<int>, m: int)
    requires |s| == First(nthr, tnum) && |used| == nthr == |idx| && forall i :: 0 <= i < |used| ==> used[i] == 0
    requires forall j :: 0 <= j < nthr ==> idx[j] == First(j, tnum)
    ensures Going(s, nthr, tnum, used, idx, [], m, false)
  {
    MergeStart(Blocks(s, nthr, tnum), used);
    TrailStart(Blocks(s, nthr, tnum), used, m);
    hide Blocks, Merging, Trail, First;
  }

  lemma MergeStart(bs: seq<seq<int>>, used: seq<nat>)
    requires |used| == |bs| && forall i :: 0 <= i < |used| ==> used[i] == 0
    ensures Within(bs, used) && Merging(bs, used, [])
  {
    TakenStart(bs, used, |bs|);
  }

  lemma MergeEnds(s: seq<int>, nthr: nat, tnum: nat, used: seq<nat>, idx: seq<int>, out: seq<int>, m: int, stale: bool)
    requires |s| == First(nthr, tnum) == |out| && Going(s, nthr, tnum, used, idx, out, m, stale)
    ensures var bs := Blocks(s, nthr, tnum);
      && multiset(out) == multiset(s) && (Sorted(out) <==> AllSorted(bs)) && (stale <==> !AllBelow(bs))
      && (AllSorted(bs) ==> MaxInLast(bs) && (|s| > 0 ==> !AllMax(bs)))
  {
    hide Sorted, AllSorted, Trail, AllBelow, MaxInLast, AllMax, Heads;
    var bs := Blocks(s, nthr, tnum);
    MergeDone(s, nthr, tnum, used, out);
    TrailDone(bs, used, out, m, stale);
    hide Merging, Blocks;
    if AllSorted(bs) && |s| > 0 {
      assert nthr > 0 && tnum > 0;
      NotAllMax(bs, 0);
    }
  }

  // One round: a least head is written, and its block's index moves on; or the round
  // has to take from a block that was never chosen or is used up.
  method Round(nums: array<int>, snums: array<int>, idx: array<int>, nthr: nat, tnum: nat, sidx: nat, minidx0: int,
               stale0: bool, ghost used: seq<nat>)
    returns (end: Outcome, minidx: int, stale: bool, ghost used': seq<nat>)
    requires nums != snums && nums != idx && snums != idx && NumsAtMost(nums[..])
    requires sidx < nums.Length == snums.Length == First(nthr, tnum) && idx.Length == nthr
    requires Going(nums[..], nthr, tnum, used, idx[..], snums[..sidx], minidx0, stale0)
    modifies snums, idx
    ensures end == Done ==>
              && 0 <= minidx < nthr == |used| && used' == used[minidx := used[minidx] + 1]
              && 0 <= old(idx[minidx]) < nums.Length && snums[sidx] == nums[old(idx[minidx])]
              && Going(nums[..], nthr, tnum, used', idx[..], snums[..sidx + 1], minidx, stale)
    ensures var bs := Blocks(nums[..], nthr, tnum);
      && (end != Done ==>
            stale && !AllBelow(bs) && (AllSorted(bs) ==> !MaxInLast(bs) && (AllMax(bs) <==> end == Unset)))
  {
    hide Going, Blocks, First, AllBelow, AllSorted, MaxInLast, AllMax;
    ghost var s, before, was := nums[..], snums[..sidx], idx[..];
    var found;
    GoingWithin(s, nthr, tnum, used, was, before, minidx0, stale0);
    found, minidx := Scan(nums, idx, nthr, tnum, minidx0, used);
    used', stale, end := used, stale0 || !found, Done;
    if found {
      FoundRound(s, nthr, tnum, used, was, before, minidx0, stale0, minidx);
    } else {
      NoneRound(s, nthr, tnum, used, was, before, minidx0, stale0);
      if sidx == 0 {
        UnsetRound(s, nthr, tnum, used, was, before, minidx0, stale0);
        return Unset, minidx, stale, used';
      }
      LeftBlock(s, nthr, tnum, used, was, before, minidx);
      if idx[minidx] == (minidx + 1) * tnum {
        OutsideRound(s, nthr, tnum, used, was, before, minidx);
        return Outside, minidx, stale, used';
      }
      LeftRound(s, nthr, tnum, used, was, before, minidx);
    }
    hide *;
    used' := used[minidx := used[minidx] + 1];
    snums[sidx] := nums[idx[minidx]];
    idx[minidx] := idx[minidx] + 1;
    assert snums[..sidx + 1] == before + [s[was[minidx]]];
    assert idx[..] == was[minidx := was[minidx] + 1];
  }

  lemma GoingWithin(s: seq<int>, nthr: nat, tnum: nat, used: seq<nat>, idx: seq<int>, out: seq<int>, m: int,
                    stale: bool)
    requires |s| == First(nthr, tnum) && Going(s, nthr, tnum, used, idx, out, m, stale)
    ensures |used| == nthr == |idx| && Within(Blocks(s, nthr, tnum), used) && Heads(idx, used, tnum)
  {
  }

  // Taking the head of block `n` goes on, whichever way `n` was come by.
  lemma TakeGoes(s: seq<int>, nthr: nat, tnum: nat, used: seq<nat>, idx: seq<int>, out: seq<int>, n: nat, stale: bool)
    requires |s| == First(nthr, tnum) && |used| == nthr && Heads(idx, used, tnum)
    requires Within(Blocks(s, nthr, tnum), used) && Merging(Blocks(s, nthr, tnum), used, out)
    requires LeastHead(Blocks(s, nthr, tnum), used, n)
    requires var bs := Blocks(s, nthr, tnum);
      Trail(bs, used[n := used[n] + 1], out + [bs[n][used[n]]], n, stale)
    ensures n < nthr && 0 <= idx[n] < |s|
    ensures Going(s, nthr, tnum, used[n := used[n] + 1], idx[n := idx[n] + 1], out + [s[idx[n]]], n, stale)
  {
    BlockAt(s, nthr, tnum, n);
    TakeLeast(Blocks(s, nthr, tnum), used, out, n);
    hide Merging, Trail;
    assert s[idx[n]] == Blocks(s, nthr, tnum)[n][used[n]];
  }

  lemma FoundRound(s: seq<int>, nthr: nat, tnum: nat, used: seq<nat>, idx: seq<int>, out: seq<int>, m: int,
                   stale: bool, n: int)
    requires |s| == First(nthr, tnum) && Going(s, nthr, tnum, used, idx, out, m, stale)
    requires Within(Blocks(s, nthr, tnum), used) && n >= 0 && FirstLeast(Blocks(s, nthr, tnum), used, n)
    ensures n < nthr == |used| == |idx| && 0 <= idx[n] < |s|
    ensures Going(s, nthr, tnum, used[n := used[n] + 1], idx[n := idx[n] + 1], out + [s[idx[n]]], n, stale)
  {
    hide Blocks, Merging, Trail;
    TrailFound(Blocks(s, nthr, tnum), used, out, m, stale, n);
    TakeGoes(s, nthr, tnum, used, idx, out, n, stale);
  }

  // Some block has a head, and all numbers are longs.
  lemma NoneRound(s: seq<int>, nthr: nat, tnum: nat, used: seq<nat>, idx: seq<int>, out: seq<int>, m: int, stale: bool)
    requires |s| == First(nthr, tnum) && Going(s, nthr, tnum, used, idx, out, m, stale)
    requires |out| < |s| && NumsAtMost(s)
    requires Within(Blocks(s, nthr, tnum), used) && NoneBelow(Blocks(s, nthr, tnum), used)
    ensures var bs := Blocks(s, nthr, tnum);
      && Longs(bs) && exists i :: 0 <= i < |bs| && used[i] < |bs[i]|
    ensures out != [] ==> Going(s, nthr, tnum, used, idx, out, m, true)
  {
    hide Blocks, Merging, Trail, First;
    SomeHead(Blocks(s, nthr, tnum), used, tnum, out);
    LongBlocks(s, nthr, tnum);
    if out != [] { TrailNone(Blocks(s, nthr, tnum), used, out, m, stale); }
  }

  lemma LongBlocks(s: seq<int>, nthr: nat, tnum: nat)
    requires |s| == First(nthr, tnum) && NumsAtMost(s)
    ensures Longs(Blocks(s, nthr, tnum))
  {
    hide Blocks, First;
    var bs := Blocks(s, nthr, tnum);
    forall i, k | In(bs, i, k) ensures bs[i][k] <= LONG_MAX {
      BlockAt(s, nthr, tnum, i);
      assert bs[i][k] == s[First(i, tnum) + k];
    }
  }

  lemma UnsetRound(s: seq<int>, nthr: nat, tnum: nat, used: seq<nat>, idx: seq<int>, out: seq<int>, m: int, stale: bool)
    requires |s| == First(nthr, tnum) && Going(s, nthr, tnum, used, idx, out, m, stale) && out == []
    requires var bs := Blocks(s, nthr, tnum);
      Within(bs, used) && NoneBelow(bs, used) && Longs(bs) && exists i :: 0 <= i < |bs| && used[i] < |bs[i]|
    ensures var bs := Blocks(s, nthr, tnum);
      !AllBelow(bs) && (AllSorted(bs) ==> !MaxInLast(bs) && AllMax(bs))
  {
    hide Blocks, Merging, First, AllSorted, MaxInLast, AllMax;
    var bs := Blocks(s, nthr, tnum);
    var i :| 0 <= i < |bs| && used[i] < |bs[i]|;
    assert In(bs, i, used[i]);
    if AllSorted(bs) { NeverBelow(bs, used); }
  }

  // The leftover index is that of a block, and tells whether it is used up.
  lemma LeftBlock(s: seq<int>, nthr: nat, tnum: nat, used: seq<nat>, idx: seq<int>, out: seq<int>, m: int)
    requires |s| == First(nthr, tnum) && Going(s, nthr, tnum, used, idx, out, m, true)
    ensures 0 <= m < nthr == |used| == |idx|
    ensures idx[m] == (m + 1) * tnum <==> used[m] == tnum
  {
    assert m >= 0 && (m + 1) * tnum == First(m, tnum) + tnum;
  }

  lemma OutsideRound(s: seq<int>, nthr: nat, tnum: nat, used: seq<nat>, idx: seq<int>, out: seq<int>, m: int)
    requires |s| == First(nthr, tnum) && Going(s, nthr, tnum, used, idx, out, m, true)
    requires 0 <= m < nthr && used[m] == tnum
    requires var bs := Blocks(s, nthr, tnum); exists i :: 0 <= i < |bs| && used[i] < |bs[i]|
    ensures var bs := Blocks(s, nthr, tnum);
      !AllBelow(bs) && (AllSorted(bs) ==> !MaxInLast(bs) && !AllMax(bs))
  {
    hide Blocks, Trail, First;
    TrailOutside(Blocks(s, nthr, tnum), used, out, m);
  }

  lemma LeftRound(s: seq<int>, nthr: nat, tnum: nat, used: seq<nat>, idx: seq<int>, out: seq<int>, m: int)
    requires |s| == First(nthr, tnum) && Going(s, nthr, tnum, used, idx, out, m, true)
    requires var bs := Blocks(s, nthr, tnum); Within(bs, used) && NoneBelow(bs, used) && Longs(bs)
    requires 0 <= m < nthr && used[m] < tnum
    ensures 0 <= idx[m] < |s|
    ensures Going(s, nthr, tnum, used[m := used[m] + 1], idx[m := idx[m] + 1], out + [s[idx[m]]], m, true)
  {
    hide Blocks, Merging, Trail, First;
    TrailLeft(Blocks(s, nthr, tnum), used, out, m);
    TakeGoes(s, nthr, tnum, used, idx, out, m, true);
  }

  // Where block `i` has its head, if it has one.
  lemma HeadAt(s: seq<int>, nthr: nat, tnum: nat, idx: seq<int>, used: seq<nat>, i: nat)
    requires |s| == First(nthr, tnum) && i < nthr == |idx|
    requires Within(Blocks(s, nthr, tnum), used) && Heads(idx, used, tnum)
    ensures idx[i] < (i + 1) * tnum <==> used[i] < tnum
    ensures used[i] < tnum ==> 0 <= idx[i] < |s| && s[idx[i]] == Blocks(s, nthr, tnum)[i][used[i]]
  {
    hide Blocks, Within;
    BlockAt(s, nthr, tnum, i);
    assert (i + 1) * tnum == First(i, tnum) + tnum;
    hide First;
    assert Blocks(s, nthr, tnum)[i] == s[First(i, tnum)..First(i, tnum) + tnum];
  }

  // One round's search for the least head. No position outside a block is read, and
  // `minidx` is set afresh exactly when there is a head below LONG_MAX.
  method Scan(nums: array<int>, idx: array<int>, nthr: nat, tnum: nat, minidx0: int, ghost used: seq<nat>)
    returns (found: bool, minidx: int)
    requires nums.Length == First(nthr, tnum) && idx.Length == nthr
    requires Within(Blocks(nums[..], nthr, tnum), used) && Heads(idx[..], used, tnum)
    ensures var bs := Blocks(nums[..], nthr, tnum);
      && (found <==> exists i :: 0 <= i < nthr && used[i] < tnum && bs[i][used[i]] < LONG_MAX)
      && (found ==> minidx >= 0 && FirstLeast(bs, used, minidx))
      && (!found ==> minidx == minidx0 && NoneBelow(bs, used))
  {
    hide Blocks, First, Heads;
    ghost var bs := Blocks(nums[..], nthr, tnum);
    minidx, found := minidx0, false;
    var num := LONG_MAX;
    for i := 0 to nthr
      invariant num <= LONG_MAX && (found <==> num < LONG_MAX)
      invariant !found ==> minidx == minidx0
      invariant found ==> 0 <= minidx < i && used[minidx] < tnum && num == bs[minidx][used[minidx]]
      invariant forall j :: 0 <= j < i && used[j] < tnum ==> num <= bs[j][used[j]]
      invariant found ==> forall j :: 0 <= j < minidx && used[j] < tnum ==> num < bs[j][used[j]]
    {
      HeadAt(nums[..], nthr, tnum, idx[..], used, i);
      if idx[i] < (i + 1) * tnum && nums[idx[i]] < num {
        num := nums[idx[i]];
        minidx := i;
        found := true;
      }
    }
  }
}
