/** The reference-counted table under one lock. Every operation runs entirely
    under `hashlock` (apart from filling a private object and freeing an unlinked
    one), so each is one atomic call here; the chains are linked objects. */
module OneLockTable {
  import opened Prelude
  import Spec = TableSpec
  import opened TableSpec

  // `locked` is the object's own mutex; `live` is false once the object is freed.
  class Foo {
    var count: int
    const id: int
    var next: Foo?
    var locked: bool
    var live: bool

    constructor (id: int)
      ensures this.id == id && count == 1 && live && !locked
    {
      this.id := id;
      count := 1;
      next := null;
      locked, live := false, true;
    }
  }

  ghost function LinkAt(chain: seq<Foo>, k: int): Foo? {
    if 0 <= k < |chain| then chain[k] else null
  }

  // The heads and the objects' links spell out the chains of the table.
  ghost predicate Linked(heads: seq<Foo?>, links: map<Foo, Foo?>, t: Table<Foo>) {
    && |t.chains| == NHASH && |heads| == NHASH
    && (forall b :: 0 <= b < NHASH ==> heads[b] == LinkAt(t.chains[b], 0))
    && (forall b, i :: 0 <= b < NHASH && 0 <= i < |t.chains[b]| ==> t.chains[b][i] in links)
    && (forall b, i, j {:trigger t.chains[b][i], LinkAt(t.chains[b], j)} ::
          0 <= b < NHASH && 0 <= i < |t.chains[b]| && j == i + 1 ==>
            links[t.chains[b][i]] == LinkAt(t.chains[b], j))
  }

  // Pushing a new object at the head of its chain.
  lemma LinkedAlloc(heads: seq<Foo?>, links: map<Foo, Foo?>, t: Table<Foo>, f: Foo, id: int)
    requires Linked(heads, links, t) && f !in links
    ensures Linked(heads[Bucket(id) := f], links[f := heads[Bucket(id)]], Spec.Alloc(t, f, id))
  {
    var t', links', c := Spec.Alloc(t, f, id), links[f := heads[Bucket(id)]], Bucket(id);
    forall b, i | 0 <= b < NHASH && 0 <= i < |t'.chains[b]|
      ensures t'.chains[b][i] in links' && links'[t'.chains[b][i]] == LinkAt(t'.chains[b], i + 1)
    {
      var j := if b == c then i - 1 else i;
      if j >= 0 {
        assert t'.chains[b][i] == t.chains[b][j] && t.chains[b][j] in links;
        assert LinkAt(t'.chains[b], i + 1) == LinkAt(t.chains[b], j + 1);
      } else {
        assert LinkAt(t'.chains[b], 1) == LinkAt(t.chains[b], 0);
      }
    }
  }

  // Bypassing the k-th object of a chain.
  lemma LinkedUnlink(heads: seq<Foo?>, links: map<Foo, Foo?>, t: Table<Foo>, f: Foo, k: nat,
                     heads': seq<Foo?>, links': map<Foo, Foo?>)
    requires WellFormed(t) && Linked(heads, links, t) && f in t.objs && t.objs[f].count == 1
    requires LinkAt(ChainOf(t, t.objs[f].id), k) == f && f in links
    requires var b, c := Bucket(t.objs[f].id), ChainOf(t, t.objs[f].id);
             && (k == 0 ==> heads' == heads[b := links[f]] && links' == links - {f})
             && (k > 0 ==> heads' == heads && links' == links[c[k - 1] := links[f]] - {f})
    ensures Linked(heads', links', Release(t, f))
  {
    var t', b0 := Release(t, f), Bucket(t.objs[f].id);
    var c := t.chains[b0];
    RemoveAt(c, k);
    assert t'.chains[b0] == c[..k] + c[k + 1..];
    hide Remove;
    forall b | 0 <= b < NHASH
      ensures heads'[b] == LinkAt(t'.chains[b], 0) && Follows(links', t'.chains[b])
    {
      if b == b0 { UnlinkOwn(heads, links, t, k, b, heads', links'); }
      else { UnlinkOther(heads, links, t, k, b0, b, heads', links'); }
    }
    hide WellFormed;
    LinkedIf(heads', links', t');
  }

  // The links spell out one chain.
  ghost predicate Follows(links: map<Foo, Foo?>, c: seq<Foo>) {
    forall i :: 0 <= i < |c| ==> c[i] in links && links[c[i]] == LinkAt(c, i + 1)
  }

  lemma LinkedIf(heads: seq<Foo?>, links: map<Foo, Foo?>, t: Table<Foo>)
    requires |t.chains| == NHASH == |heads|
    requires forall b :: 0 <= b < NHASH ==> heads[b] == LinkAt(t.chains[b], 0) && Follows(links, t.chains[b])
    ensures Linked(heads, links, t)
  {
  }

  lemma UnlinkOwn(heads: seq<Foo?>, links: map<Foo, Foo?>, t: Table<Foo>, k: nat, b: nat,
                  heads': seq<Foo?>, links': map<Foo, Foo?>)
    requires WellFormed(t) && Linked(heads, links, t) && b < NHASH && k < |t.chains[b]|
    requires var c := t.chains[b];
             && (k == 0 ==> heads' == heads[b := links[c[k]]] && links' == links - {c[k]})
             && (k > 0 ==> heads' == heads && links' == links[c[k - 1] := links[c[k]]] - {c[k]})
    ensures var c := t.chains[b]; var c' := c[..k] + c[k + 1..];
      && heads'[b] == LinkAt(c', 0)
      && Follows(links', c')
  {
    var c := t.chains[b];
    var c' := c[..k] + c[k + 1..];
    assert NoDuplicates(c) && links[c[k]] == LinkAt(c, k + 1);
    forall i | 0 <= i < |c'| ensures c'[i] in links' && links'[c'[i]] == LinkAt(c', i + 1) {
      var j := if i < k then i else i + 1;
      assert links[c[j]] == LinkAt(c, j + 1);
      assert c'[i] == c[j] && LinkAt(c', i + 1) == LinkAt(c, if i == k - 1 then k + 1 else j + 1);
    }
    hide Linked, WellFormed;
  }

  lemma UnlinkOther(heads: seq<Foo?>, links: map<Foo, Foo?>, t: Table<Foo>, k: nat, b0: nat, b: nat,
                    heads': seq<Foo?>, links': map<Foo, Foo?>)
    requires WellFormed(t) && Linked(heads, links, t) && b < NHASH && b0 < NHASH && b != b0 && k < |t.chains[b0]|
    requires var c := t.chains[b0];
             && (k == 0 ==> heads' == heads[b0 := links[c[k]]] && links' == links - {c[k]})
             && (k > 0 ==> heads' == heads && links' == links[c[k - 1] := links[c[k]]] - {c[k]})
    ensures var c := t.chains[b];
      && heads'[b] == LinkAt(c, 0)
      && Follows(links', c)
  {
    var c := t.chains[b];
    forall i | 0 <= i < |c| ensures c[i] in links' && links'[c[i]] == LinkAt(c, i + 1) {
      assert links[c[i]] == LinkAt(c, i + 1);
      assert t.chains[b0][k] in t.objs && c[i] in t.objs;
      if k > 0 { assert t.chains[b0][k - 1] in t.objs; }
    }
  }

  // Counting changes no link.
  lemma LinkedHold(heads: seq<Foo?>, links: map<Foo, Foo?>, t: Table<Foo>, f: Foo)
    requires Linked(heads, links, t) && f in t.objs
    ensures Linked(heads, links, Spec.Hold(t, f))
  {
  }

  lemma LinkedSome(heads: seq<Foo?>, links: map<Foo, Foo?>, t: Table<Foo>, f: Foo)
    requires |t.chains| == NHASH && Linked(heads, links, t) && f in t.objs
    ensures t.objs[f].count != 1 ==> Linked(heads, links, Release(t, f))
  {
  }

  lemma ReleaseObjs(t: Table<Foo>, f: Foo)
    requires |t.chains| == NHASH && f in t.objs
    ensures |Release(t, f).chains| == NHASH
    ensures Release(t, f).objs == if t.objs[f].count == 1 then t.objs - {f}
                                  else t.objs[f := Entry(t.objs[f].id, t.objs[f].count - 1)]
  {
  }

  lemma HeadIs(heads: seq<Foo?>, links: map<Foo, Foo?>, t: Table<Foo>, f: Foo)
    requires |t.chains| == NHASH && Linked(heads, links, t) && f in t.objs
    ensures |heads| == NHASH && heads[Bucket(t.objs[f].id)] == LinkAt(ChainOf(t, t.objs[f].id), 0)
  {
  }

  // The searched object lies ahead, so the walk has a next object.
  lemma NextAhead(chain: seq<Foo>, f: Foo, k: nat)
    requires k < |chain| && f in chain && f !in chain[..k + 1]
    ensures k + 1 < |chain|
    ensures chain[k + 1] != f ==> f !in chain[..k + 2]
  {
    assert chain == chain[..k + 1] + chain[k + 1..];
  }

  class FooTable {
    const fh: array<Foo?>
    ghost var table: Table<Foo>   // the atomic table this one represents

    ghost function Links(): map<Foo, Foo?>
      reads this, table.objs.Keys
    {
      map f | f in table.objs :: f.next
    }

    // The objects of the table are live, their mutexes free, and the counts agree.
    ghost predicate Agrees()
      reads this, table.objs.Keys
    {
      forall f :: f in table.objs ==> table.objs[f] == Entry(f.id, f.count) && f.live && !f.locked
    }

    ghost predicate Valid()
      reads this, fh, table.objs.Keys
    {
      && fh.Length == NHASH && |table.chains| == NHASH
      && WellFormed(table) && Linked(fh[..], Links(), table) && Agrees()
    }

    constructor ()
      ensures Valid() && fresh(fh) && table == Empty()
    {
      fh := new Foo?[NHASH](_ => null);
      table := Empty();
    }

    // `ok` is whether malloc and mutex initialisation succeed. The new object is the one
    // found for its identifier next, and releasing it would undo the call.
    method Alloc(id: int, ok: bool) returns (fp: Foo?)
      requires Valid()
      modifies this, fh
      ensures Valid()
      ensures !ok ==> fp == null && table == old(table)
      ensures ok ==> fp != null && fresh(fp) && fp.live && !fp.locked && table == Spec.Alloc(old(table), fp, id)
      ensures ok ==> FirstMatch(ChainOf(table, id), table.objs, id) == Some(fp)
      ensures ok ==> fp in table.objs && Release(table, fp) == old(table)
    {
      hide WellFormed, Linked, Release, FirstMatch, ChainOf;
      if !ok { return null; }
      fp := new Foo(id);
      var idx := Bucket(id);
      FindAfterAlloc(table, fp, id);
      AllocThenRelease(table, fp, id);
      fp.next := fh[idx];
      fh[idx] := fp;
      fp.locked := true;
      table := Spec.Alloc(table, fp, id);
      fp.locked := false;
      AllocKeeps(fp, id);
    }

    twostate lemma AllocKeeps(new fp: Foo, id: int)
      requires old(Valid()) && fp !in old(table.objs) && table == Spec.Alloc(old(table), fp, id)
      requires fh.Length == NHASH && fh[..] == old(fh[..])[Bucket(id) := fp] && fp.next == old(fh[Bucket(id)])
      requires fp.id == id && fp.count == 1 && fp.live && !fp.locked
      requires forall f :: f in old(table.objs) ==>
                 f.next == old(f.next) && f.count == old(f.count) && f.live == old(f.live) && f.locked == old(f.locked)
      ensures Valid()
    {
      hide WellFormed, Linked;
      LinkedAlloc(old(fh[..]), old(Links()), old(table), fp, id);
      AllocWellFormed(old(table), fp, id);
      assert Links() == old(Links())[fp := fp.next];
    }

    // A release would undo it.
    method Hold(fp: Foo)
      requires Valid() && fp in table.objs
      modifies this, fp
      ensures Valid()
      ensures table == Spec.Hold(old(table), fp) && Release(table, fp) == old(table)
    {
      hide WellFormed, Linked;
      HoldWellFormed(table, fp);
      HoldThenRelease(table, fp);
      hide Release;
      LinkedHold(fh[..], Links(), table, fp);
      ghost var links := Links();
      fp.count := fp.count + 1;
      table := Spec.Hold(table, fp);
      assert Links() == links;
    }

    method Find(id: int) returns (fp: Foo?)
      requires Valid()
      modifies this, table.objs.Keys
      ensures Valid()
      ensures fp == null ==>
                FirstMatch(ChainOf(old(table), id), old(table.objs), id) == None && table == old(table)
      ensures fp != null ==>
                && FirstMatch(ChainOf(old(table), id), old(table.objs), id) == Some(fp)
                && fp in old(table.objs) && table == Spec.Hold(old(table), fp)
    {
      fp := fh[Bucket(id)];
      ghost var chain := ChainOf(table, id);
      ghost var k: nat := 0;
      while fp != null
        invariant k <= |chain| && fp == LinkAt(chain, k)
        invariant forall i :: 0 <= i < k ==> table.objs[chain[i]].id != id
        decreases |chain| - k
      {
        if fp.id == id {
          FirstMatchIsNewest(chain, table.objs, id, k);
          Hold(fp);
          return;
        }
        assert Links()[fp] == LinkAt(chain, k + 1);
        fp := fp.next;
        k := k + 1;
      }
      FirstMatchIsNewest(chain, table.objs, id, k);
    }

    // The object is freed exactly when this was the last reference, its mutex free.
    method Rele(fp: Foo)
      requires Valid() && fp in table.objs
      modifies this, fh, table.objs.Keys
      ensures Valid()
      ensures table == Release(old(table), fp)
      ensures !fp.locked && (fp.live <==> fp in table.objs)
    {
      hide WellFormed, Linked, Release;
      ghost var t0, links := table, Links();
      ReleaseWellFormed(t0, fp);
      ReleaseObjs(t0, fp);
      LinkedSome(fh[..], links, t0, fp);
      fp.count := fp.count - 1;
      assert Links() == links;
      if fp.count == 0 {
        Unlink(fp);
        links := Links();
        fp.live := false;
        table := Release(t0, fp);
        assert Links() == links - {fp};
      } else {
        table := Release(t0, fp);
        assert Links() == links;
      }
    }

    // Takes an object out of its chain and changes no other link.
    method Unlink(fp: Foo)
      requires fh.Length == NHASH && |table.chains| == NHASH
      requires WellFormed(table) && Linked(fh[..], Links(), table)
      requires fp in table.objs && table.objs[fp] == Entry(fp.id, 1)
      modifies fh, table.objs.Keys
      ensures Linked(fh[..], Links() - {fp}, Release(table, fp))
      ensures forall f :: f in table.objs ==>
                f.count == old(f.count) && f.live == old(f.live) && f.locked == old(f.locked)
    {
      hide WellFormed, Linked, Release;
      ghost var links, heads := Links(), fh[..];
      HeadIs(heads, links, table, fp);
      var idx := Bucket(fp.id);
      var tfp := fh[idx];
      ghost var k: nat := 0;
      if tfp == fp {
        fh[idx] := fp.next;
        assert Links() == links;
      } else {
        tfp, k := FindBefore(fp);
        tfp.next := fp.next;
        k := k + 1;
        assert Links() == links[tfp := links[fp]];
      }
      LinkedUnlink(heads, links, table, fp, k, fh[..], Links() - {fp});
    }

    // The loop of foo_rele: walk from the head to the object before fp.
    method FindBefore(fp: Foo) returns (tfp: Foo, ghost k: nat)
      requires |table.chains| == NHASH && WellFormed(table) && Linked(fh[..], Links(), table)
      requires fp in table.objs && table.objs[fp].id == fp.id
      requires fh.Length == NHASH && fh[Bucket(fp.id)] != fp
      ensures var c := ChainOf(table, table.objs[fp].id);
              k + 1 < |c| && tfp == c[k] && c[k + 1] == fp && tfp in table.objs
    {
      ghost var chain := ChainOf(table, fp.id);
      assert fp in chain && LinkAt(chain, 0) == chain[0];
      tfp, k := fh[Bucket(fp.id)], 0;
      assert chain[..1] == [chain[0]];
      while tfp.next != fp
        invariant k < |chain| && tfp == chain[k] && fp !in chain[..k + 1]
        decreases |chain| - k
      {
        assert Links()[tfp] == LinkAt(chain, k + 1);
        NextAhead(chain, fp, k);
        tfp := tfp.next;
        k := k + 1;
      }
      assert Links()[tfp] == LinkAt(chain, k + 1);
      NextAhead(chain, fp, k);
    }
  }
}
