/** The threads around the merge: each worker sorts its own block in place and waits at
    a barrier, and the main thread waits there too before it merges. */
module BlockBarrier {
  import opened Prelude
  import opened BlockMerge
  import opened BlockMergeLeft
  import opened BlockMergeLoop

  // The comparison the blocks are sorted by.
  function Complong(l1: int, l2: int): int {
    if l1 == l2 then 0 else if l1 < l2 then -1 else 1
  }

  // What the sorting routine promises.
  ghost predicate Ordered(s: seq<int>) {
    forall j, k :: 0 <= j <= k < |s| ==> Complong(s[j], s[k]) <= 0
  }

  lemma OrderedIsSorted(s: seq<int>)
    ensures Ordered(s) <==> Sorted(s)
  {
    if Ordered(s) {
      forall j, k | 0 <= j <= k < |s| ensures s[j] <= s[k] { assert Complong(s[j], s[k]) <= 0; }
    }
  }

  datatype Phase = Working | Waiting | Past

  // Threads below `nthr` are the workers, thread `nthr` is the main one; `arrived`
  // counts the calls of the barrier's wait.
  datatype State = State(nums: seq<int>, phase: seq<Phase>, arrived: nat)

  // Rearrange: a worker leaves its block in another order, as sorting does again and
  // again; Arrive: the thread reaches the barrier; Leave: it is let through.
  datatype Step = Rearrange(i: nat, block: seq<int>) | Arrive(t: nat) | Leave(t: nat)

  ghost predicate Shape(s: State, nthr: nat, tnum: nat) {
    |s.nums| == First(nthr, tnum) && |s.phase| == nthr + 1
  }

  function Replace(s: seq<int>, i: nat, block: seq<int>, tnum: nat): seq<int>
    requires First(i, tnum) + tnum <= |s|
  {
    s[..First(i, tnum)] + block + s[First(i, tnum) + tnum..]
  }

  ghost predicate Next(s: State, step: Step, s': State, nthr: nat, tnum: nat)
    requires Shape(s, nthr, tnum)
  {
    match step
    case Rearrange(i, block) =>
      && i < nthr && s.phase[i] == Working
      && First(i, tnum) + tnum <= |s.nums|
      && multiset(block) == multiset(Blocks(s.nums, nthr, tnum)[i])
      && s' == s.(nums := Replace(s.nums, i, block, tnum))
    case Arrive(t) =>
      && t <= nthr && s.phase[t] == Working
      && (t < nthr ==> Ordered(Blocks(s.nums, nthr, tnum)[t]))
      && s' == s.(phase := s.phase[t := Waiting], arrived := s.arrived + 1)
    case Leave(t) =>
      && t <= nthr && s.phase[t] == Waiting && s.arrived == nthr + 1
      && s' == s.(phase := s.phase[t := Past])
  }

  ghost predicate Init(s: State, nthr: nat, tnum: nat) {
    Shape(s, nthr, tnum) && s.arrived == 0 && forall t :: 0 <= t < |s.phase| ==> s.phase[t] == Working
  }

  ghost predicate Run(states: seq<State>, steps: seq<Step>, nthr: nat, tnum: nat) {
    && |states| == |steps| + 1 && Init(states[0], nthr, tnum)
    && forall k :: 0 <= k < |steps| ==>
         Shape(states[k], nthr, tnum) && Next(states[k], steps[k], states[k + 1], nthr, tnum)
  }

  function StillWorking(phase: seq<Phase>): seq<int> {
    seq(|phase|, t requires 0 <= t < |phase| => if phase[t] == Working then 1 else 0)
  }

  ghost predicate Inv(s: State, nums0: seq<int>, nthr: nat, tnum: nat) {
    && Shape(s, nthr, tnum)
    && multiset(s.nums) == multiset(nums0)
    && s.arrived + Sum(StillWorking(s.phase)) == nthr + 1
    && (forall t :: 0 <= t <= nthr && s.phase[t] == Past ==> s.arrived == nthr + 1)
    && (forall i :: 0 <= i < nthr && s.phase[i] != Working ==> Sorted(Blocks(s.nums, nthr, tnum)[i]))
  }

  // Rearranging one block changes no other block and not the numbers as a whole.
  lemma ReplaceBlock(s: seq<int>, i: nat, block: seq<int>, nthr: nat, tnum: nat)
    requires |s| == First(nthr, tnum) && i < nthr && First(i, tnum) + tnum <= |s|
    requires multiset(block) == multiset(Blocks(s, nthr, tnum)[i])
    ensures |Replace(s, i, block, tnum)| == |s| && multiset(Replace(s, i, block, tnum)) == multiset(s)
    ensures var d := Replace(s, i, block, tnum);
      forall j :: 0 <= j < nthr && j != i ==> Blocks(d, nthr, tnum)[j] == Blocks(s, nthr, tnum)[j]
  {
    var d, f := Replace(s, i, block, tnum), First(i, tnum);
    BlockAt(s, nthr, tnum, i);
    assert |block| == tnum by { assert |multiset(block)| == |block|; }
    assert s == s[..f] + s[f..f + tnum] + s[f + tnum..];
    forall j | 0 <= j < nthr && j != i ensures Blocks(d, nthr, tnum)[j] == Blocks(s, nthr, tnum)[j] {
      BlockAt(s, nthr, tnum, j);
      BlockAt(d, nthr, tnum, j);
      Below(if j < i then j + 1 else i + 1, if j < i then i else j, tnum);
      Below(j, j, tnum);
      Below(i, i, tnum);
      var g := First(j, tnum);
      assert d[g..g + tnum] == s[g..g + tnum];
    }
  }

  lemma StepKeeps(s: State, step: Step, s': State, nums0: seq<int>, nthr: nat, tnum: nat)
    requires Inv(s, nums0, nthr, tnum) && Next(s, step, s', nthr, tnum)
    ensures Inv(s', nums0, nthr, tnum)
  {
    hide Blocks, First, Sorted, Ordered, Replace, Sum;
    match step
    case Rearrange(i, block) =>
      ReplaceBlock(s.nums, i, block, nthr, tnum);
    case Arrive(t) =>
      if t < nthr { OrderedIsSorted(Blocks(s.nums, nthr, tnum)[t]); }
      assert StillWorking(s'.phase) == StillWorking(s.phase)[t := 0];
      SumUpdate(StillWorking(s.phase), t, 0);
      assert StillWorking(s.phase)[t] == 1;
      SumLowerBound(StillWorking(s.phase), 0);
    case Leave(t) =>
      assert StillWorking(s'.phase) == StillWorking(s.phase);
  }

  lemma {:induction false} RunKeeps(states: seq<State>, steps: seq<Step>, k: nat, nthr: nat, tnum: nat)
    requires Run(states, steps, nthr, tnum) && k < |states|
    ensures Inv(states[k], states[0].nums, nthr, tnum)
  {
    if k == 0 {
      SumConstant(StillWorking(states[0].phase), 1);
    } else {
      RunKeeps(states, steps, k - 1, nthr, tnum);
      StepKeeps(states[k - 1], steps[k - 1], states[k], states[0].nums, nthr, tnum);
    }
  }

  // Once any thread is through the barrier, every block is sorted, the numbers are the
  // ones started with, and they stay as they are for the rest of the run.
  lemma PastMeansSorted(states: seq<State>, steps: seq<Step>, k: nat, t: nat, nthr: nat, tnum: nat)
    requires Run(states, steps, nthr, tnum) && k < |states|
    requires t < |states[k].phase| && states[k].phase[t] == Past
    ensures Shape(states[k], nthr, tnum) && AllSorted(Blocks(states[k].nums, nthr, tnum))
    ensures multiset(states[k].nums) == multiset(states[0].nums)
    ensures forall j :: k <= j < |states| ==> states[j].nums == states[k].nums
  {
    PastMeansIdle(states, steps, k, t, nthr, tnum);
    forall j | k <= j < |states| ensures states[j].nums == states[k].nums {
      NumsStay(states, steps, k, j, t, nthr, tnum);
    }
  }

  // A thread through the barrier means that nobody is at work.
  lemma PastMeansIdle(states: seq<State>, steps: seq<Step>, k: nat, t: nat, nthr: nat, tnum: nat)
    requires Run(states, steps, nthr, tnum) && k < |states|
    requires t < |states[k].phase| && states[k].phase[t] == Past
    ensures Inv(states[k], states[0].nums, nthr, tnum) && AllSorted(Blocks(states[k].nums, nthr, tnum))
    ensures forall i :: 0 <= i <= nthr ==> states[k].phase[i] != Working
  {
    RunKeeps(states, steps, k, nthr, tnum);
    var s := states[k];
    SumLowerBound(StillWorking(s.phase), 0);
    hide Sorted, Blocks;
    forall i | 0 <= i <= nthr ensures s.phase[i] != Working {
      assert StillWorking(s.phase)[i] == 0;
    }
  }

  lemma {:induction false} NumsStay(states: seq<State>, steps: seq<Step>, k: nat, j: nat, t: nat, nthr: nat, tnum: nat)
    requires Run(states, steps, nthr, tnum) && k <= j < |states|
    requires t < |states[k].phase| && states[k].phase[t] == Past
    ensures t < |states[j].phase| && states[j].phase[t] == Past && states[j].nums == states[k].nums
    decreases j
  {
    if k < j {
      NumsStay(states, steps, k, j - 1, t, nthr, tnum);
      PastMeansIdle(states, steps, j - 1, t, nthr, tnum);
      hide Sorted, Blocks, AllSorted, Ordered, Replace, First, Init;
      assert Next(states[j - 1], steps[j - 1], states[j], nthr, tnum);
    }
  }

  // Nobody is left waiting: when no thread is still at work and not all are through,
  // one can be let through.
  lemma NobodyStuck(states: seq<State>, steps: seq<Step>, k: nat, t: nat, nthr: nat, tnum: nat)
    requires Run(states, steps, nthr, tnum) && k < |states|
    requires forall u :: 0 <= u < |states[k].phase| ==> states[k].phase[u] != Working
    requires t < |states[k].phase| && states[k].phase[t] != Past
    ensures Shape(states[k], nthr, tnum)
    ensures Next(states[k], Leave(t), states[k].(phase := states[k].phase[t := Past]), nthr, tnum)
  {
    RunKeeps(states, steps, k, nthr, tnum);
    SumZero(StillWorking(states[k].phase));
  }

  // What the main thread does once it is through: its merge writes the numbers started
  // with, in order, unless a LONG_MAX lies outside the block last taken from.
  method MergeAfterBarrier(nums: array<int>, snums: array<int>, nthr: nat, tnum: nat,
                           ghost states: seq<State>, ghost steps: seq<Step>, ghost k: nat) returns (end: Outcome)
    requires Run(states, steps, nthr, tnum) && k < |states| && NumsAtMost(states[0].nums)
    requires nthr < |states[k].phase| && states[k].phase[nthr] == Past
    requires nums != snums && nums.Length == snums.Length && nums[..] == states[k].nums
    modifies snums
    ensures nums.Length == First(nthr, tnum) && (end == Done <==> MaxInLast(Blocks(nums[..], nthr, tnum)))
    ensures end == Done ==> Sorted(snums[..]) && multiset(snums[..]) == multiset(states[0].nums)
    ensures (forall j :: 0 <= j < |states[0].nums| ==> states[0].nums[j] < LONG_MAX) ==> end == Done
  {
    PastMeansSorted(states, steps, k, nthr, nthr, tnum);
    SameNumbers(states[k].nums, states[0].nums, LONG_MAX);
    if forall j :: 0 <= j < |states[0].nums| ==> states[0].nums[j] < LONG_MAX {
      SameNumbers(states[k].nums, states[0].nums, LONG_MAX - 1);
      BelowBlocks(states[k].nums, nthr, tnum);
    }
    hide Blocks, MaxInLast, AllBelow, AllMax, AllSorted, Sorted, Run;
    var stale;
    end, stale := Merge(nums, snums, nthr, tnum);
  }

  lemma SameNumbers(s: seq<int>, s0: seq<int>, most: int)
    requires multiset(s) == multiset(s0) && forall j :: 0 <= j < |s0| ==> s0[j] <= most
    ensures forall j :: 0 <= j < |s| ==> s[j] <= most
  {
    forall j | 0 <= j < |s| ensures s[j] <= most {
      assert s[j] in multiset(s);
      assert s[j] in multiset(s0);
      assert s[j] in s0;
    }
  }

  lemma BelowBlocks(s: seq<int>, nthr: nat, tnum: nat)
    requires |s| == First(nthr, tnum) && forall j :: 0 <= j < |s| ==> s[j] < LONG_MAX
    ensures AllBelow(Blocks(s, nthr, tnum))
  {
    hide Blocks, First;
    var bs := Blocks(s, nthr, tnum);
    forall i, k | In(bs, i, k) ensures bs[i][k] < LONG_MAX {
      BlockAt(s, nthr, tnum, i);
      assert bs[i][k] == s[First(i, tnum) + k];
    }
  }
}
