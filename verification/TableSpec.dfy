/** The reference-counted table as one atomic object: a newest-first chain of
    objects per bucket, each object with an identifier and a reference count.
    Both lock protocols are proved against it. */
module TableSpec {
  import opened Prelude

  const NHASH: nat := 29
  const ULONG_RANGE: int := 0x1_0000_0000_0000_0000

  // The cast to unsigned long wraps a negative identifier; then modulo NHASH.
  function Bucket(id: int): (b: nat)
    ensures b < NHASH
  {
    (id % ULONG_RANGE) % NHASH
  }

  datatype Entry = Entry(id: int, count: int)

  datatype Table<!A(==)> = Table(chains: seq<seq<A>>, objs: map<A, Entry>)

  // Every chained object is known, sits in the bucket of its identifier and
  // occurs once; every known object is chained and has a positive count.
  ghost predicate WellFormed<A>(t: Table<A>) {
    && |t.chains| == NHASH
    && (forall b, i :: 0 <= b < NHASH && 0 <= i < |t.chains[b]| ==>
          t.chains[b][i] in t.objs && Bucket(t.objs[t.chains[b][i]].id) == b)
    && (forall b :: 0 <= b < NHASH ==> NoDuplicates(t.chains[b]))
    && (forall a :: a in t.objs ==> a in t.chains[Bucket(t.objs[a].id)])
    && (forall a :: a in t.objs ==> t.objs[a].count >= 1)
  }

  function Empty<A>(): Table<A> {
    Table(seq(NHASH, _ => []), map[])
  }

  // The chain that holds the objects with identifier `id`.
  function ChainOf<A>(t: Table<A>, id: int): seq<A>
    requires |t.chains| == NHASH
  {
    t.chains[Bucket(id)]
  }

  function Alloc<A>(t: Table<A>, a: A, id: int): Table<A>
    requires |t.chains| == NHASH
  {
    Table(t.chains[Bucket(id) := [a] + ChainOf(t, id)], t.objs[a := Entry(id, 1)])
  }

  function Hold<A>(t: Table<A>, a: A): Table<A>
    requires a in t.objs
  {
    t.(objs := t.objs[a := Entry(t.objs[a].id, t.objs[a].count + 1)])
  }

  // The first object of the chain with the identifier, that is, the newest one.
  function FirstMatch<A>(chain: seq<A>, objs: map<A, Entry>, id: int): Option<A> {
    if chain == [] then None
    else if chain[0] in objs && objs[chain[0]].id == id then Some(chain[0])
    else FirstMatch(chain[1..], objs, id)
  }

  function Remove<A(==)>(chain: seq<A>, a: A): seq<A> {
    if chain == [] then []
    else if chain[0] == a then chain[1..]
    else [chain[0]] + Remove(chain[1..], a)
  }

  function Release<A>(t: Table<A>, a: A): Table<A>
    requires |t.chains| == NHASH && a in t.objs
  {
    var e := t.objs[a];
    if e.count == 1 then
      Table(t.chains[Bucket(e.id) := Remove(ChainOf(t, e.id), a)], t.objs - {a})
    else
      t.(objs := t.objs[a := Entry(e.id, e.count - 1)])
  }

  datatype Op<A> = AllocOp(id: int) | HoldOp(a: A) | FindOp(id: int) | ReleOp(a: A)
  datatype Result<A> = Void | Pointer(p: Option<A>)

  // One operation on the atomic object, with its result.
  ghost predicate Performs<A>(t: Table<A>, op: Op<A>, res: Result<A>, t': Table<A>)
    requires |t.chains| == NHASH
  {
    match op
    case AllocOp(id) =>
      || (res == Pointer(None) && t' == t)
      || (res.Pointer? && res.p.Some? && res.p.value !in t.objs && t' == Alloc(t, res.p.value, id))
    case HoldOp(a) => res == Void && a in t.objs && t' == Hold(t, a)
    case FindOp(id) =>
      var r := FirstMatch(ChainOf(t, id), t.objs, id);
      res == Pointer(r) && t' == if r.Some? && r.value in t.objs then Hold(t, r.value) else t
    case ReleOp(a) => res == Void && a in t.objs && t' == Release(t, a)
  }

  // ---- Facts about chains ----

  lemma {:induction false} RemoveAt<A>(chain: seq<A>, k: nat)
    requires k < |chain| && NoDuplicates(chain)
    ensures Remove(chain, chain[k]) == chain[..k] + chain[k + 1..]
  {
    if k > 0 {
      assert chain[1..][k - 1] == chain[k];
      RemoveAt(chain[1..], k - 1);
      assert [chain[0]] + chain[1..][..k - 1] == chain[..k];
      assert chain[1..][k..] == chain[k + 1..];
    }
  }

  // FirstMatch returns exactly the newest object with the identifier.
  lemma {:induction false} FirstMatchIsNewest<A>(chain: seq<A>, objs: map<A, Entry>, id: int, k: nat)
    requires forall i :: 0 <= i < |chain| ==> chain[i] in objs
    requires k <= |chain|
    requires forall i :: 0 <= i < k ==> objs[chain[i]].id != id
    ensures k == |chain| ==> FirstMatch(chain, objs, id) == None
    ensures k < |chain| && objs[chain[k]].id == id ==> FirstMatch(chain, objs, id) == Some(chain[k])
  {
    if k > 0 {
      var tail := chain[1..];
      forall i | 0 <= i < |tail| ensures tail[i] in objs { assert tail[i] == chain[i + 1]; }
      forall i | 0 <= i < k - 1 ensures objs[tail[i]].id != id { assert tail[i] == chain[i + 1]; }
      FirstMatchIsNewest(tail, objs, id, k - 1);
    }
  }

  // Conversely, what it returns is in the chain, has the identifier, and nothing newer has it.
  lemma {:induction false} FirstMatchSound<A>(chain: seq<A>, objs: map<A, Entry>, id: int)
    requires forall i :: 0 <= i < |chain| ==> chain[i] in objs
    ensures match FirstMatch(chain, objs, id)
            case None => forall i :: 0 <= i < |chain| ==> objs[chain[i]].id != id
            case Some(a) => exists k :: 0 <= k < |chain| && chain[k] == a && objs[a].id == id
                                        && forall i :: 0 <= i < k ==> objs[chain[i]].id != id
  {
    if chain != [] && objs[chain[0]].id != id {
      var tail := chain[1..];
      assert forall i :: 0 <= i < |tail| ==> tail[i] == chain[i + 1];
      FirstMatchSound(tail, objs, id);
      match FirstMatch(chain, objs, id)
      case None =>
        forall i | 0 <= i < |chain| ensures objs[chain[i]].id != id {
          if i > 0 { assert chain[i] == tail[i - 1]; }
        }
      case Some(a) =>
        var k :| 0 <= k < |tail| && tail[k] == a && forall i :: 0 <= i < k ==> objs[tail[i]].id != id;
        assert chain[k + 1] == a;
        forall i | 0 <= i < k + 1 ensures objs[chain[i]].id != id {
          if i > 0 { assert chain[i] == tail[i - 1]; }
        }
    } else if chain != [] {
      assert chain[0] == chain[0] && objs[chain[0]].id == id;
    }
  }

  // ---- Every operation keeps the table well formed ----

  lemma AllocWellFormed<A>(t: Table<A>, a: A, id: int)
    requires WellFormed(t) && a !in t.objs
    ensures WellFormed(Alloc(t, a, id))
  {
    var t' := Alloc(t, a, id);
    var b := Bucket(id);
    assert forall i :: 0 < i < |t'.chains[b]| ==> t'.chains[b][i] == t.chains[b][i - 1];
    assert t'.chains[b][0] == a;
    forall x | x in t'.objs ensures x in t'.chains[Bucket(t'.objs[x].id)] {
      if x != a && Bucket(t'.objs[x].id) == b {
        var i :| 0 <= i < |t.chains[b]| && t.chains[b][i] == x;
        assert t'.chains[b][i + 1] == x;
      }
    }
  }

  lemma HoldWellFormed<A>(t: Table<A>, a: A)
    requires WellFormed(t) && a in t.objs
    ensures WellFormed(Hold(t, a))
  {
  }

  // Removing one member of a duplicate-free chain leaves the others, and only them.
  lemma RemoveMembers<A>(chain: seq<A>, a: A)
    requires NoDuplicates(chain) && a in chain
    ensures NoDuplicates(Remove(chain, a)) && a !in Remove(chain, a)
    ensures forall x :: x in Remove(chain, a) <==> x in chain && x != a
  {
    var k :| 0 <= k < |chain| && chain[k] == a;
    RemoveAt(chain, k);
    hide Remove;
    CutMembers(chain, k);
  }

  lemma ReleaseWellFormed<A>(t: Table<A>, a: A)
    requires WellFormed(t) && a in t.objs
    ensures WellFormed(Release(t, a))
    ensures t.objs[a].count == 1 ==>
              a !in Release(t, a).objs && forall b :: 0 <= b < NHASH ==> a !in Release(t, a).chains[b]
  {
    if t.objs[a].count == 1 { UnlinkWellFormed(t, a, Bucket(t.objs[a].id)); }
  }

  lemma RemovedIn<A>(chain: seq<A>, a: A, x: A)
    requires NoDuplicates(chain) && a in chain && x in Remove(chain, a)
    ensures x in chain && x != a
  {
    RemoveMembers(chain, a);
  }

  lemma UnlinkWellFormed<A>(t: Table<A>, a: A, b: nat)
    requires WellFormed(t) && a in t.objs && t.objs[a].count == 1 && b == Bucket(t.objs[a].id)
    ensures WellFormed(Release(t, a))
    ensures a !in Release(t, a).objs && forall c :: 0 <= c < NHASH ==> a !in Release(t, a).chains[c]
  {
    hide Remove, Bucket;
    var t' := Release(t, a);
    RemoveMembers(t.chains[b], a);
    forall c | 0 <= c < NHASH ensures a !in t'.chains[c] { if c != b { OtherBucket(t, a, c); } }
    forall c, i | 0 <= c < NHASH && 0 <= i < |t'.chains[c]|
      ensures t'.chains[c][i] in t'.objs && Bucket(t'.objs[t'.chains[c][i]].id) == c
    {
      var x := t'.chains[c][i];
      assert x in t'.chains[c];
      if c == b {
        assert t'.chains[b] == Remove(t.chains[b], a);
        RemovedIn(t.chains[b], a, x);
      } else {
        assert t'.chains[c] == t.chains[c];
      }
      InBucket(t, c, x);
    }
  }

  lemma InBucket<A>(t: Table<A>, c: nat, x: A)
    requires WellFormed(t) && c < NHASH && x in t.chains[c]
    ensures x in t.objs && Bucket(t.objs[x].id) == c
  {
  }

  lemma OtherBucket<A>(t: Table<A>, x: A, c: nat)
    requires WellFormed(t) && c < NHASH && x in t.objs && c != Bucket(t.objs[x].id)
    ensures x !in t.chains[c]
  {
  }

  // ---- What one operation undoes ----

  lemma HoldThenRelease<A>(t: Table<A>, a: A)
    requires WellFormed(t) && a in t.objs
    ensures Release(Hold(t, a), a) == t
  {
  }

  lemma AllocThenRelease<A>(t: Table<A>, a: A, id: int)
    requires WellFormed(t) && a !in t.objs
    ensures Release(Alloc(t, a, id), a) == t
  {
    var t1 := Alloc(t, a, id);
    var t2 := Release(t1, a);
    assert t1.chains[Bucket(id)][1..] == t.chains[Bucket(id)];
    assert t2.chains == t.chains;
    assert t2.objs == t.objs;
  }

  // A fresh object hides older ones with the same identifier.
  lemma FindAfterAlloc<A>(t: Table<A>, a: A, id: int)
    requires WellFormed(t) && a !in t.objs
    ensures var t1 := Alloc(t, a, id); FirstMatch(ChainOf(t1, id), t1.objs, id) == Some(a)
  {
    assert ChainOf(Alloc(t, a, id), id)[0] == a;
  }

  lemma PerformsWellFormed<A>(t: Table<A>, op: Op<A>, res: Result<A>, t': Table<A>)
    requires WellFormed(t) && Performs(t, op, res, t')
    ensures WellFormed(t')
  {
    match op
    case AllocOp(id) => if t' != t { AllocWellFormed(t, res.p.value, id); }
    case HoldOp(a) => HoldWellFormed(t, a);
    case FindOp(id) => if t' != t { HoldWellFormed(t, FirstMatch(ChainOf(t, id), t.objs, id).value); }
    case ReleOp(a) => ReleaseWellFormed(t, a);
  }
}
