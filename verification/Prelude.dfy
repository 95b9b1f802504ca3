// Small definitions shared by the models.

module Prelude {

  datatype Option<+T> = None | Some(value: T)

  // Sum of a sequence of integers.
  function Sum(s: seq<int>): int {
    if s == [] then 0 else s[0] + Sum(s[1..])
  }

  // Replacing one term changes the sum by the difference.
  lemma {:induction false} SumUpdate(s: seq<int>, i: nat, x: int)
    requires i < |s|
    ensures Sum(s[i := x]) == Sum(s) - s[i] + x
  {
    if i == 0 {
      assert s[i := x][1..] == s[1..];
    } else {
      assert s[i := x][1..] == s[1..][i - 1 := x];
      SumUpdate(s[1..], i - 1, x);
    }
  }

  // A sum of terms that are all at least `lo` is at least |s| * lo,
  // and is exactly that only when every term equals `lo`.
  lemma {:induction false} SumLowerBound(s: seq<int>, lo: int)
    requires forall i :: 0 <= i < |s| ==> lo <= s[i]
    ensures |s| * lo <= Sum(s)
    ensures Sum(s) == |s| * lo ==> forall i :: 0 <= i < |s| ==> s[i] == lo
  {
    if s != [] {
      var tail := s[1..];
      SumLowerBound(tail, lo);
      assert |s| * lo == |tail| * lo + lo;
      if Sum(s) == |s| * lo {
        assert Sum(tail) == |tail| * lo && s[0] == lo;
        forall i | 0 <= i < |s| ensures s[i] == lo {
          if i > 0 { assert s[i] == tail[i - 1]; }
        }
      }
    }
  }

  // With non-negative terms, the sum is at least any two distinct terms together.
  lemma {:induction false} SumAtLeastTwo(s: seq<int>, i: nat, j: nat)
    requires i < j < |s|
    requires forall k :: 0 <= k < |s| ==> 0 <= s[k]
    ensures s[i] + s[j] <= Sum(s)
  {
    var z := s[i := 0][j := 0];
    SumUpdate(s, i, 0);
    SumUpdate(s[i := 0], j, 0);
    SumLowerBound(z, 0);
  }

  // With non-negative terms, the sum is at least any one of them.
  lemma {:induction false} SumAtLeastOne(s: seq<int>, i: nat)
    requires i < |s|
    requires forall k :: 0 <= k < |s| ==> 0 <= s[k]
    ensures s[i] <= Sum(s)
  {
    SumUpdate(s, i, 0);
    SumLowerBound(s[i := 0], 0);
  }

  lemma {:induction false} SumConstant(s: seq<int>, c: int)
    requires forall i :: 0 <= i < |s| ==> s[i] == c
    ensures Sum(s) == |s| * c
  {
    if s != [] {
      SumConstant(s[1..], c);
      assert |s| * c == c + |s[1..]| * c;
    }
  }

  lemma SumZero(s: seq<int>)
    requires forall i :: 0 <= i < |s| ==> s[i] == 0
    ensures Sum(s) == 0
  {
    SumConstant(s, 0);
  }

  // Terms that differ by at most d make sums that differ by at most d for each.
  lemma {:induction false} SumCloseTo(a: seq<int>, b: seq<int>, d: int)
    requires |a| == |b| && forall i :: 0 <= i < |a| ==> a[i] <= b[i] + d
    ensures Sum(a) <= Sum(b) + |a| * d
  {
    if a != [] {
      SumCloseTo(a[1..], b[1..], d);
      assert |a| * d == |a[1..]| * d + d;
    }
  }

  function Ind(b: bool): int { if b then 1 else 0 }

  // ---- Sequences ----

  ghost predicate NoDuplicates<T>(s: seq<T>) {
    forall i, j :: 0 <= i < j < |s| ==> s[i] != s[j]
  }

  function At<T>(s: seq<T>, k: int): Option<T> {
    if 0 <= k < |s| then Some(s[k]) else None
  }

  // A sequence without its k-th element.
  lemma CutAt<T>(c: seq<T>, k: nat, i: nat)
    requires k < |c| && i < |c| - 1
    ensures var c', j := c[..k] + c[k + 1..], if i < k then i else i + 1;
      |c'| == |c| - 1 && c'[i] == c[j] && At(c', i + 1) == At(c, if i == k - 1 then k + 1 else j + 1)
  {
  }

  lemma CutMembers<T>(c: seq<T>, k: nat)
    requires NoDuplicates(c) && k < |c|
    ensures var c' := c[..k] + c[k + 1..];
      NoDuplicates(c') && forall x :: x in c' <==> x in c && x != c[k]
  {
    var c' := c[..k] + c[k + 1..];
    assert forall i :: 0 <= i < |c'| ==> c'[i] == c[if i < k then i else i + 1];
    assert c == c[..k] + [c[k]] + c[k + 1..];
  }

  // ---- Positions in a ring of n slots ----

  lemma Multiple(d: int, n: int)
    requires n > 0
    ensures (d > 0 ==> d * n >= n) && (d < 0 ==> d * n <= -n)
  {
    if d > 0 { assert d * n == n + (d - 1) * n; }
  }

  lemma ModIs(x: int, q: int, r: int, n: int)
    requires n > 0 && x == q * n + r && 0 <= r < n
    ensures x % n == r
  {
    assert x == x / n * n + x % n;
    assert (x / n - q) * n == r - x % n;
    Multiple(x / n - q, n);
  }

  // Numbers less than n apart fall in the same slot only when equal.
  lemma SlotsDiffer(j: int, k: int, n: int)
    requires n > 0 && j < k < j + n
    ensures j % n != k % n
  {
    var d := k / n - j / n;
    assert k == k / n * n + k % n && j == j / n * n + j % n;
    assert k - j == d * n + (k % n - j % n);
    Multiple(d, n);
  }

  lemma NextSlot(x: int, n: int)
    requires n > 0
    ensures ((x - 1) % n + 1) % n == x % n
  {
    var q, r := (x - 1) / n, (x - 1) % n;
    assert x == q * n + (r + 1);
    if r + 1 < n {
      ModIs(x, q, r + 1, n);
      ModIs(r + 1, 0, r + 1, n);
    } else {
      assert x == (q + 1) * n + 0;
      ModIs(x, q + 1, 0, n);
      ModIs(n, 1, 0, n);
    }
  }
}
