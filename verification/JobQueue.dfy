/** A doubly linked queue of jobs. Every operation runs under the queue's lock, alone
    or beside searches only, so each is one atomic call here. */
module JobQueue {
  import opened Prelude

  class Job {
    var next: Job?
    var prev: Job?
    const id: int

    constructor (id: int)
      ensures this.id == id
    {
      this.id := id;
    }
  }

  ghost function LinkAt(jobs: seq<Job>, k: int): Job? {
    if 0 <= k < |jobs| then jobs[k] else null
  }

  // The ends and the links spell out the sequence, forwards and backwards.
  ghost predicate Linked(head: Job?, tail: Job?, jobs: seq<Job>, next: map<Job, Job?>, prev: map<Job, Job?>) {
    && head == LinkAt(jobs, 0) && tail == LinkAt(jobs, |jobs| - 1) && NoDuplicates(jobs)
    && (forall i :: 0 <= i < |jobs| ==> jobs[i] in next && jobs[i] in prev)
    && (forall i, j {:trigger jobs[i], LinkAt(jobs, j)} ::
          0 <= i < |jobs| && j == i + 1 ==> next[jobs[i]] == LinkAt(jobs, j))
    && (forall i, j {:trigger jobs[i], LinkAt(jobs, j)} ::
          0 <= i < |jobs| && j == i - 1 ==> prev[jobs[i]] == LinkAt(jobs, j))
  }

  // The index of a job in the queue.
  function IndexOf(jobs: seq<Job>, jp: Job): (k: nat)
    requires jp in jobs
    ensures k < |jobs| && jobs[k] == jp && jp !in jobs[..k]
  {
    if jobs[0] == jp then 0 else 1 + IndexOf(jobs[1..], jp)
  }

  function Cut(jobs: seq<Job>, k: nat): seq<Job>
    requires k < |jobs|
  {
    jobs[..k] + jobs[k + 1..]
  }

  // The first job for an id.
  function FirstFor(jobs: seq<Job>, id: int): (jp: Job?)
    ensures jp == null <==> forall i :: 0 <= i < |jobs| ==> jobs[i].id != id
    ensures jp != null ==> jp in jobs && jp.id == id
  {
    if jobs == [] then null else if jobs[0].id == id then jobs[0] else FirstFor(jobs[1..], id)
  }

  // ---- How the operations change the links ----

  // Setting the link of a job, if there is one.
  ghost function Set(links: map<Job, Job?>, j: Job?, to: Job?): map<Job, Job?> {
    if j != null then links[j := to] else links
  }

  // One more job, linked to `own`, and the link of `j`, if there is one, set to `to`.
  lemma OneMore(links: map<Job, Job?>, now: map<Job, Job?>, jp: Job, j: Job?, to: Job?, own: Job?)
    requires forall f :: f in now <==> f in links || f == jp
    requires forall f :: f in now ==> now[f] == if f == j then to else if f == jp then own else links[f]
    requires j != null ==> j in links
    ensures now == Set(links[jp := own], j, to)
    ensures j == null ==> now == links[jp := own]
  {
  }

  lemma LinkedInsert(head: Job?, tail: Job?, jobs: seq<Job>, next: map<Job, Job?>, prev: map<Job, Job?>, jp: Job)
    requires Linked(head, tail, jobs, next, prev) && jp !in jobs
    ensures Linked(jp, if head != null then tail else jp, [jp] + jobs, next[jp := head],
                   Set(prev[jp := null], head, jp))
  {
    var jobs' := [jp] + jobs;
    var next' := next[jp := head];
    var prev' := Set(prev[jp := null], head, jp);
    forall i | 0 <= i < |jobs'|
      ensures jobs'[i] in next' && next'[jobs'[i]] == LinkAt(jobs', i + 1)
      ensures jobs'[i] in prev' && prev'[jobs'[i]] == LinkAt(jobs', i - 1)
    {
      if i > 0 {
        assert jobs'[i] == jobs[i - 1];
        assert LinkAt(jobs', i + 1) == LinkAt(jobs, i);
        assert i > 1 ==> LinkAt(jobs', i - 1) == LinkAt(jobs, i - 2);
      }
    }
    assert tail == null <==> jobs == [];
  }

  lemma LinkedAppend(head: Job?, tail: Job?, jobs: seq<Job>, next: map<Job, Job?>, prev: map<Job, Job?>, jp: Job)
    requires Linked(head, tail, jobs, next, prev) && jp !in jobs
    ensures Linked(if tail != null then head else jp, jp, jobs + [jp],
                   Set(next[jp := null], tail, jp), prev[jp := tail])
  {
    var jobs', n := jobs + [jp], |jobs|;
    var next' := Set(next[jp := null], tail, jp);
    var prev' := prev[jp := tail];
    forall i | 0 <= i < |jobs'|
      ensures jobs'[i] in next' && next'[jobs'[i]] == LinkAt(jobs', i + 1)
      ensures jobs'[i] in prev' && prev'[jobs'[i]] == LinkAt(jobs', i - 1)
    {
      if i < n {
        assert jobs'[i] == jobs[i];
        assert i < n - 1 ==> LinkAt(jobs', i + 1) == LinkAt(jobs, i + 1);
        assert LinkAt(jobs', i - 1) == LinkAt(jobs, i - 1);
      }
    }
  }

  lemma CutAt(jobs: seq<Job>, k: nat)
    requires NoDuplicates(jobs) && k < |jobs|
    ensures NoDuplicates(Cut(jobs, k)) && |Cut(jobs, k)| == |jobs| - 1
    ensures forall i :: 0 <= i < |Cut(jobs, k)| ==> Cut(jobs, k)[i] == if i < k then jobs[i] else jobs[i + 1]
    ensures forall j :: j in Cut(jobs, k) <==> j in jobs && j != jobs[k]
  {
    assert jobs == jobs[..k] + [jobs[k]] + jobs[k + 1..];
  }

  lemma EndsIn(head: Job?, tail: Job?, jobs: seq<Job>, next: map<Job, Job?>, prev: map<Job, Job?>)
    requires Linked(head, tail, jobs, next, prev)
    ensures (head == null <==> tail == null) && (head != null ==> head in jobs && tail in jobs)
  {
  }

  // Where following links k times leads.
  ghost function Walk(start: Job?, links: map<Job, Job?>, k: nat): Job? {
    if k == 0 then start
    else
      var before := Walk(start, links, k - 1);
      if before == null || before !in links then null else links[before]
  }

  lemma {:induction false} WalkIs(head: Job?, tail: Job?, a: seq<Job>, next: map<Job, Job?>,
                                  prev: map<Job, Job?>, k: nat)
    requires Linked(head, tail, a, next, prev) && k < |a|
    ensures Walk(head, next, k) == a[k] && Walk(tail, prev, k) == a[|a| - 1 - k]
  {
    if k > 0 {
      WalkIs(head, tail, a, next, prev, k - 1);
      assert next[a[k - 1]] == LinkAt(a, k) && prev[a[|a| - k]] == LinkAt(a, |a| - k - 1);
    }
  }

  lemma Inverse(head: Job?, tail: Job?, a: seq<Job>, next: map<Job, Job?>, prev: map<Job, Job?>, j: Job)
    requires Linked(head, tail, a, next, prev) && j in a
    ensures j in next && j in prev
    ensures next[j] != null ==> next[j] in a && next[j] in prev && prev[next[j]] == j
    ensures prev[j] != null ==> prev[j] in a && prev[j] in next && next[prev[j]] == j
  {
    var i :| 0 <= i < |a| && a[i] == j;
    assert next[a[i]] == LinkAt(a, i + 1) && prev[a[i]] == LinkAt(a, i - 1);
    if i + 1 < |a| { assert prev[a[i + 1]] == LinkAt(a, i); }
    if i > 0 { assert next[a[i - 1]] == LinkAt(a, i); }
  }

  // The links leave no choice: one queue in memory is one sequence. Next and prev undo
  // each other, and following them meets no job twice.
  lemma LinkedOnce(head: Job?, tail: Job?, a: seq<Job>, b: seq<Job>, next: map<Job, Job?>, prev: map<Job, Job?>)
    requires Linked(head, tail, a, next, prev) && Linked(head, tail, b, next, prev)
    ensures a == b
    ensures forall j :: j in a ==> j in next && j in prev
    ensures forall j :: j in a && next[j] != null ==> next[j] in a && next[j] in prev && prev[next[j]] == j
    ensures forall j :: j in a && prev[j] != null ==> prev[j] in a && prev[j] in next && next[prev[j]] == j
    ensures NoDuplicates(a)
    ensures forall k :: 0 <= k < |a| ==> a[k] == Walk(head, next, k) == Walk(tail, prev, |a| - 1 - k)
  {
    SameSequence(head, tail, a, b, next, prev);
    forall j | j in a
      ensures j in next && j in prev
      ensures next[j] != null ==> next[j] in a && next[j] in prev && prev[next[j]] == j
      ensures prev[j] != null ==> prev[j] in a && prev[j] in next && next[prev[j]] == j
    {
      Inverse(head, tail, a, next, prev, j);
    }
    forall k | 0 <= k < |a| ensures a[k] == Walk(head, next, k) == Walk(tail, prev, |a| - 1 - k) {
      WalkIs(head, tail, a, next, prev, k);
      WalkIs(head, tail, a, next, prev, |a| - 1 - k);
    }
    hide Walk, LinkAt;
  }

  lemma SameSequence(head: Job?, tail: Job?, a: seq<Job>, b: seq<Job>, next: map<Job, Job?>, prev: map<Job, Job?>)
    requires Linked(head, tail, a, next, prev) && Linked(head, tail, b, next, prev)
    ensures a == b
  {
    forall k: nat ensures LinkAt(a, k) == LinkAt(b, k) { SameAt(head, tail, a, b, next, prev, k); }
    hide Linked;
    assert LinkAt(a, |b|) == LinkAt(b, |b|) && LinkAt(a, |a|) == LinkAt(b, |a|);
    assert forall k :: 0 <= k < |a| && k < |b| ==> a[k] == LinkAt(a, k) && b[k] == LinkAt(b, k);
  }

  lemma {:induction false} SameAt(head: Job?, tail: Job?, a: seq<Job>, b: seq<Job>, next: map<Job, Job?>,
                                  prev: map<Job, Job?>, k: nat)
    requires Linked(head, tail, a, next, prev) && Linked(head, tail, b, next, prev)
    ensures LinkAt(a, k) == LinkAt(b, k)
  {
    if k > 0 {
      SameAt(head, tail, a, b, next, prev, k - 1);
      assert k - 1 < |a| ==> next[a[k - 1]] == LinkAt(a, k);
      assert k - 1 < |b| ==> next[b[k - 1]] == LinkAt(b, k);
    }
  }

  // The job found is the first one for the id.
  lemma {:induction false} FirstForIsFirst(jobs: seq<Job>, id: int)
    requires FirstFor(jobs, id) != null
    ensures var jp := FirstFor(jobs, id);
      jp.id == id && forall j :: 0 <= j < IndexOf(jobs, jp) ==> jobs[j].id != id
  {
    if jobs[0].id != id { FirstForIsFirst(jobs[1..], id); }
  }

  // Removing a job undoes its insertion at either end.
  lemma RemoveUndoes(jobs: seq<Job>, jp: Job)
    requires jp !in jobs
    ensures Cut([jp] + jobs, IndexOf([jp] + jobs, jp)) == jobs
    ensures Cut(jobs + [jp], IndexOf(jobs + [jp], jp)) == jobs
  {
    var a, b := [jp] + jobs, jobs + [jp];
    assert a[0] == jp && jp !in a[1..];
    assert jp !in b[..|jobs|];
    assert IndexOf(b, jp) == |jobs| by {
      assert b[IndexOf(b, jp)] == jp;
      assert forall i :: 0 <= i < |jobs| ==> b[i] in jobs;
    }
  }

  // The links of the jobs `left`, once those of `from` are set to `to`.
  ghost function Relink(links: map<Job, Job?>, left: seq<Job>, from: Job?, to: Job?): map<Job, Job?>
    requires forall j :: j in left ==> j in links
  {
    map j | j in left :: if j == from then to else links[j]
  }

  lemma Relinked(links: map<Job, Job?>, now: map<Job, Job?>, left: seq<Job>, from: Job?, to: Job?)
    requires forall j :: j in left ==> j in links
    requires forall j :: j in now <==> j in left
    requires forall j :: j in now ==> now[j] == if j == from then to else links[j]
    ensures now == Relink(links, left, from, to)
  {
  }

  // Bypassing the k-th job, from whichever neighbours it has.
  lemma LinkedRemove(head: Job?, tail: Job?, jobs: seq<Job>, next: map<Job, Job?>, prev: map<Job, Job?>, k: nat)
    requires Linked(head, tail, jobs, next, prev) && k < |jobs|
    ensures forall j :: j in Cut(jobs, k) ==> j in next && j in prev && j in jobs && j != jobs[k]
    ensures var jp, before, after := jobs[k], LinkAt(jobs, k - 1), LinkAt(jobs, k + 1);
      && (before == null <==> jp == head) && (after == null <==> jp == tail)
      && (before != null ==> before in jobs) && (after != null ==> after in jobs)
      && next[jp] == after && prev[jp] == before
      && Linked(if before == null then after else head, if after == null then before else tail, Cut(jobs, k),
                Relink(next, Cut(jobs, k), before, after), Relink(prev, Cut(jobs, k), after, before))
  {
    var jobs', before, after := Cut(jobs, k), LinkAt(jobs, k - 1), LinkAt(jobs, k + 1);
    RemoveEnds(head, tail, jobs, next, prev, k);
    CutAt(jobs, k);
    forall i | 0 <= i < |jobs'|
      ensures Relink(next, jobs', before, after)[jobs'[i]] == LinkAt(jobs', i + 1)
      ensures Relink(prev, jobs', after, before)[jobs'[i]] == LinkAt(jobs', i - 1)
    {
      RelinkAt(jobs, next, prev, k, i);
    }
    hide Cut, NoDuplicates, LinkAt, Linked;
    LinkedIf(if before == null then after else head, if after == null then before else tail, jobs',
             Relink(next, jobs', before, after), Relink(prev, jobs', after, before));
  }

  lemma LinkedIf(head: Job?, tail: Job?, jobs: seq<Job>, next: map<Job, Job?>, prev: map<Job, Job?>)
    requires head == LinkAt(jobs, 0) && tail == LinkAt(jobs, |jobs| - 1) && NoDuplicates(jobs)
    requires forall i :: 0 <= i < |jobs| ==> jobs[i] in next && jobs[i] in prev
    requires forall i :: 0 <= i < |jobs| ==>
               next[jobs[i]] == LinkAt(jobs, i + 1) && prev[jobs[i]] == LinkAt(jobs, i - 1)
    ensures Linked(head, tail, jobs, next, prev)
  {
  }

  lemma RemoveEnds(head: Job?, tail: Job?, jobs: seq<Job>, next: map<Job, Job?>, prev: map<Job, Job?>, k: nat)
    requires Linked(head, tail, jobs, next, prev) && k < |jobs|
    ensures var jp, before, after, jobs' := jobs[k], LinkAt(jobs, k - 1), LinkAt(jobs, k + 1), Cut(jobs, k);
      && (before == null <==> jp == head) && (after == null <==> jp == tail)
      && (before != null ==> before in jobs) && (after != null ==> after in jobs)
      && next[jp] == after && prev[jp] == before
      && (if before == null then after else head) == LinkAt(jobs', 0)
      && (if after == null then before else tail) == LinkAt(jobs', |jobs'| - 1)
  {
    CutAt(jobs, k);
    hide Cut;
    assert next[jobs[k]] == LinkAt(jobs, k + 1) && prev[jobs[k]] == LinkAt(jobs, k - 1);
    assert LinkAt(jobs, k - 1) == null <==> k == 0;
    assert LinkAt(jobs, k + 1) == null <==> k == |jobs| - 1;
  }

  lemma RelinkAt(jobs: seq<Job>, next: map<Job, Job?>, prev: map<Job, Job?>, k: nat, i: nat)
    requires NoDuplicates(jobs) && k < |jobs| && i < |jobs| - 1
    requires forall i :: 0 <= i < |jobs| ==> jobs[i] in next && jobs[i] in prev
    requires var j := if i < k then i else i + 1;
      next[jobs[j]] == LinkAt(jobs, j + 1) && prev[jobs[j]] == LinkAt(jobs, j - 1)
    ensures forall j :: j in Cut(jobs, k) ==> j in next && j in prev
    ensures |Cut(jobs, k)| == |jobs| - 1
    ensures var jobs', before, after := Cut(jobs, k), LinkAt(jobs, k - 1), LinkAt(jobs, k + 1);
      && Relink(next, jobs', before, after)[jobs'[i]] == LinkAt(jobs', i + 1)
      && Relink(prev, jobs', after, before)[jobs'[i]] == LinkAt(jobs', i - 1)
  {
    CutAt(jobs, k);
    CutLinks(jobs, k, i);
    Neighbours(jobs, k, if i < k then i else i + 1);
    hide Cut, NoDuplicates, LinkAt;
  }

  // What follows and precedes the i-th job left.
  lemma CutLinks(jobs: seq<Job>, k: nat, i: nat)
    requires k < |jobs| && i < |jobs| - 1
    ensures |Cut(jobs, k)| == |jobs| - 1
    ensures var j := if i < k then i else i + 1;
      && Cut(jobs, k)[i] == jobs[j]
      && LinkAt(Cut(jobs, k), i + 1) == LinkAt(jobs, if i == k - 1 then k + 1 else j + 1)
      && LinkAt(Cut(jobs, k), i - 1) == LinkAt(jobs, if i == k then k - 1 else j - 1)
  {
  }

  // Only the jobs beside the k-th are its neighbours.
  lemma Neighbours(jobs: seq<Job>, k: nat, j: nat)
    requires NoDuplicates(jobs) && k < |jobs| && j < |jobs|
    ensures jobs[j] == LinkAt(jobs, k - 1) <==> j == k - 1
    ensures jobs[j] == LinkAt(jobs, k + 1) <==> j == k + 1
  {
  }

  // ---- The queue ----

  class Queue {
    var head: Job?
    var tail: Job?
    ghost var jobs: seq<Job>   // the queue as a sequence, head first

    ghost function Next(): map<Job, Job?>
      reads this, jobs
    {
      map j | j in jobs :: j.next
    }

    ghost function Prev(): map<Job, Job?>
      reads this, jobs
    {
      map j | j in jobs :: j.prev
    }

    ghost predicate Valid()
      reads this, jobs
    {
      Linked(head, tail, jobs, Next(), Prev())
    }

    constructor ()
      ensures Valid() && jobs == []
    {
      head, tail, jobs := null, null, [];
    }

    // Removing the job would undo it, as it would an append.
    method Insert(jp: Job)
      requires Valid() && jp !in jobs
      modifies this, jp, jobs
      ensures Valid() && jobs == [jp] + old(jobs) && Cut(jobs, IndexOf(jobs, jp)) == old(jobs)
    {
      hide Linked, Next, Prev, LinkAt, Cut, IndexOf;
      RemoveUndoes(jobs, jp);
      EndsIn(head, tail, jobs, Next(), Prev());
      jp.next := head;
      jp.prev := null;
      if head != null { head.prev := jp; } else { tail := jp; }
      head := jp;
      jobs := [jp] + jobs;
      Inserted(jp);
    }

    twostate lemma Inserted(jp: Job)
      requires old(Valid()) && jp !in old(jobs) && jobs == [jp] + old(jobs)
      requires head == jp && tail == (if old(head) != null then old(tail) else jp)
      requires jp.next == old(head) && jp.prev == null
      requires forall j :: j in old(jobs) ==> j.next == old(j.next)
      requires forall j :: j in old(jobs) ==> j.prev == if j == old(head) then jp else old(j.prev)
      ensures Valid()
    {
      hide Linked, LinkAt;
      LinkedInsert(old(head), old(tail), old(jobs), old(Next()), old(Prev()), jp);
      EndsIn(old(head), old(tail), old(jobs), old(Next()), old(Prev()));
      OneMore(old(Next()), Next(), jp, null, null, old(head));
      OneMore(old(Prev()), Prev(), jp, old(head), jp, null);
    }

    method Append(jp: Job)
      requires Valid() && jp !in jobs
      modifies this, jp, jobs
      ensures Valid() && jobs == old(jobs) + [jp] && Cut(jobs, IndexOf(jobs, jp)) == old(jobs)
    {
      hide Linked, Next, Prev, LinkAt, Cut, IndexOf;
      RemoveUndoes(jobs, jp);
      EndsIn(head, tail, jobs, Next(), Prev());
      jp.next := null;
      jp.prev := tail;
      if tail != null { tail.next := jp; } else { head := jp; }
      tail := jp;
      jobs := jobs + [jp];
      Appended(jp);
    }

    twostate lemma Appended(jp: Job)
      requires old(Valid()) && jp !in old(jobs) && jobs == old(jobs) + [jp]
      requires tail == jp && head == (if old(tail) != null then old(head) else jp)
      requires jp.next == null && jp.prev == old(tail)
      requires forall j :: j in old(jobs) ==> j.next == if j == old(tail) then jp else old(j.next)
      requires forall j :: j in old(jobs) ==> j.prev == old(j.prev)
      ensures Valid()
    {
      hide Linked, LinkAt;
      LinkedAppend(old(head), old(tail), old(jobs), old(Next()), old(Prev()), jp);
      EndsIn(old(head), old(tail), old(jobs), old(Next()), old(Prev()));
      OneMore(old(Next()), Next(), jp, old(tail), jp, null);
      OneMore(old(Prev()), Prev(), jp, null, null, old(tail));
    }

    method Remove(jp: Job)
      requires Valid() && jp in jobs
      modifies this, jobs
      ensures Valid() && jobs == Cut(old(jobs), IndexOf(old(jobs), jp))
      ensures jp.next == old(jp.next) && jp.prev == old(jp.prev)
    {
      hide Linked, NoDuplicates, IndexOf, Cut, LinkAt, Relink;
      ghost var k: int := IndexOf(jobs, jp);
      ghost var c, before, after := jobs, LinkAt(jobs, k - 1), LinkAt(jobs, k + 1);
      LinkedRemove(head, tail, jobs, Next(), Prev(), k);
      if jp == head {
        head := jp.next;
        if tail == jp { tail := null; } else { jp.next.prev := jp.prev; }
      } else if jp == tail {
        tail := jp.prev;
        jp.prev.next := jp.next;
      } else {
        jp.prev.next := jp.next;
        jp.next.prev := jp.prev;
      }
      assert forall j :: j in c ==> j.next == if j == before then after else old(j.next);
      assert forall j :: j in c ==> j.prev == if j == after then before else old(j.prev);
      jobs := Cut(jobs, k);
      Relinked(old(Next()), Next(), jobs, before, after);
      Relinked(old(Prev()), Prev(), jobs, after, before);
    }

    // `locked` is whether the read lock could be taken.
    method Find(id: int, locked: bool) returns (jp: Job?)
      requires Valid()
      ensures jp == if locked then FirstFor(jobs, id) else null
    {
      hide Linked, NoDuplicates, LinkAt, FirstFor;
      if !locked { return null; }
      jp := head;
      ghost var k := 0;
      HeadAt(head, tail, jobs, Next(), Prev());
      while jp != null
        invariant k <= |jobs| && jp == LinkAt(jobs, k)
        invariant FirstFor(jobs, id) == FirstFor(jobs[k..], id)
        decreases |jobs| - k
      {
        SearchOn(head, tail, jobs, Next(), Prev(), id, k);
        if jp.id == id { return; }
        assert Next()[jp] == jp.next;
        jp := jp.next;
        k := k + 1;
      }
      SearchEnd(jobs, id, k);
    }
  }

  lemma HeadAt(head: Job?, tail: Job?, jobs: seq<Job>, next: map<Job, Job?>, prev: map<Job, Job?>)
    requires Linked(head, tail, jobs, next, prev)
    ensures head == LinkAt(jobs, 0) && jobs[0..] == jobs
  {
  }

  lemma SearchOn(head: Job?, tail: Job?, jobs: seq<Job>, next: map<Job, Job?>, prev: map<Job, Job?>, id: int, k: nat)
    requires Linked(head, tail, jobs, next, prev) && LinkAt(jobs, k) != null
    ensures k < |jobs| && jobs[k] == LinkAt(jobs, k) && jobs[k] in next && next[jobs[k]] == LinkAt(jobs, k + 1)
    ensures FirstFor(jobs[k..], id) == if jobs[k].id == id then jobs[k] else FirstFor(jobs[k + 1..], id)
  {
    assert jobs[k..][0] == jobs[k] && jobs[k..][1..] == jobs[k + 1..];
  }

  lemma SearchEnd(jobs: seq<Job>, id: int, k: nat)
    requires k <= |jobs| && LinkAt(jobs, k) == null
    ensures FirstFor(jobs[k..], id) == null
  {
  }
}
