/** Catalog helpers over records with an id (and, for export, a SKU):
    export keys and id-keyed upsert through an insertion-ordered map. */
module CatalogStore {
  import opened Results
  import Text

  /** `exportCatalogKeys`: per record, its SKU when non-empty, else its id in decimal. */
  function ExportCatalogKeys<T>(products: seq<T>, skuOf: T -> string, idOf: T -> int): (r: seq<string>)
    ensures |r| == |products|
    ensures forall i | 0 <= i < |r| :: skuOf(products[i]) != "" ==> r[i] == skuOf(products[i])
    ensures forall i | 0 <= i < |r| :: skuOf(products[i]) == "" ==> r[i] == Text.IntToDecimal(idOf(products[i]))
  {
    seq(|products|, i requires 0 <= i < |products| =>
      if skuOf(products[i]) != "" then skuOf(products[i]) else Text.IntToDecimal(idOf(products[i])))
  }

  /** The ids of the records, in order. */
  function Ids<T>(xs: seq<T>, idOf: T -> int): (r: seq<int>)
    ensures |r| == |xs| && forall i | 0 <= i < |xs| :: r[i] == idOf(xs[i])
  {
    seq(|xs|, i requires 0 <= i < |xs| => idOf(xs[i]))
  }

  predicate Distinct(ks: seq<int>) {
    forall i, j | 0 <= i < j < |ks| :: ks[i] != ks[j]
  }

  /** Position of the entry with id `k` in the map's entry order. */
  function IndexOfId<T>(es: seq<T>, idOf: T -> int, k: int): (r: Option<nat>)
    ensures r.Some? ==> r.value < |es| && idOf(es[r.value]) == k
    ensures r.Some? ==> forall i | 0 <= i < r.value :: idOf(es[i]) != k
    ensures r.None? <==> forall i | 0 <= i < |es| :: idOf(es[i]) != k
  {
    if |es| == 0 then None
    else if idOf(es[0]) == k then Some(0)
    else match IndexOfId(es[1..], idOf, k)
      case None => None
      case Some(i) => Some(i + 1)
  }

  /** `map.set(x.id, x)`: an existing key keeps its place and takes the new
      value, a new key goes to the end. */
  function Put<T>(es: seq<T>, idOf: T -> int, x: T): seq<T> {
    match IndexOfId(es, idOf, idOf(x))
    case Some(i) => es[i := x]
    case None => es + [x]
  }

  function PutAll<T>(es: seq<T>, idOf: T -> int, xs: seq<T>): seq<T>
    decreases |xs|
  {
    if |xs| == 0 then es else PutAll(Put(es, idOf, xs[0]), idOf, xs[1..])
  }

  /** `applyValidatedUpserts`: build the map from the products, set every
      update, and return the values in the map's order. */
  function ApplyValidatedUpserts<T>(products: seq<T>, updates: seq<T>, idOf: T -> int): seq<T> {
    PutAll(PutAll([], idOf, products), idOf, updates)
  }

  /** Reference: the ids in order of first appearance. */
  function FirstIds<T>(xs: seq<T>, idOf: T -> int): (r: seq<int>)
    ensures Distinct(r)
    ensures forall k :: k in r <==> k in Ids(xs, idOf)
  {
    if |xs| == 0 then []
    else
      var f := FirstIds(xs[..|xs| - 1], idOf);
      assert Ids(xs, idOf) == Ids(xs[..|xs| - 1], idOf) + [idOf(xs[|xs| - 1])];
      if idOf(xs[|xs| - 1]) in f then f else f + [idOf(xs[|xs| - 1])]
  }

  /** Reference: the last record carrying id `k`. */
  function LastWithId<T>(xs: seq<T>, idOf: T -> int, k: int): (r: Option<T>)
    ensures r.Some? ==> idOf(r.value) == k && r.value in xs
    ensures r.None? <==> k !in Ids(xs, idOf)
  {
    if |xs| == 0 then None
    else if idOf(xs[|xs| - 1]) == k then Some(xs[|xs| - 1])
    else
      assert Ids(xs, idOf) == Ids(xs[..|xs| - 1], idOf) + [idOf(xs[|xs| - 1])];
      LastWithId(xs[..|xs| - 1], idOf, k)
  }

  lemma {:induction false} PutAllSnoc<T>(es: seq<T>, idOf: T -> int, xs: seq<T>, x: T)
    ensures PutAll(es, idOf, xs + [x]) == Put(PutAll(es, idOf, xs), idOf, x)
    decreases |xs|
  {
    if |xs| == 0 {
      assert (xs + [x])[1..] == [];
    } else {
      assert (xs + [x])[1..] == xs[1..] + [x];
      PutAllSnoc(Put(es, idOf, xs[0]), idOf, xs[1..], x);
    }
  }

  lemma {:induction false} PutAllAppend<T>(es: seq<T>, idOf: T -> int, a: seq<T>, b: seq<T>)
    ensures PutAll(es, idOf, a + b) == PutAll(PutAll(es, idOf, a), idOf, b)
    decreases |a|
  {
    if |a| == 0 {
      assert a + b == b;
    } else {
      assert (a + b)[1..] == a[1..] + b;
      PutAllAppend(Put(es, idOf, a[0]), idOf, a[1..], b);
    }
  }

  /** The map fold agrees with the reference: entries appear in order of the
      ids' first appearance, and each holds the last record with its id. */
  lemma {:induction false} PutAllMatchesReference<T>(xs: seq<T>, idOf: T -> int)
    ensures var r := PutAll([], idOf, xs);
      && |r| == |FirstIds(xs, idOf)|
      && (forall i | 0 <= i < |r| :: idOf(r[i]) == FirstIds(xs, idOf)[i])
      && (forall i | 0 <= i < |r| :: LastWithId(xs, idOf, idOf(r[i])) == Some(r[i]))
    decreases |xs|
  {
    if |xs| > 0 {
      var ys := xs[..|xs| - 1];
      var x := xs[|xs| - 1];
      assert ys + [x] == xs;
      PutAllMatchesReference(ys, idOf);
      PutAllSnoc([], idOf, ys, x);
      var r0 := PutAll([], idOf, ys);
      var r := PutAll([], idOf, xs);
      var f0 := FirstIds(ys, idOf);
      assert r == Put(r0, idOf, x);
      match IndexOfId(r0, idOf, idOf(x))
      case Some(i) =>
        assert idOf(x) in f0;
        assert r == r0[i := x];
        forall j | 0 <= j < |r| ensures LastWithId(xs, idOf, idOf(r[j])) == Some(r[j]) {
          if j != i {
            assert idOf(r[j]) == f0[j] != f0[i] == idOf(x);
          }
        }
      case None =>
        assert idOf(x) !in f0;
        assert r == r0 + [x];
    }
  }

  /** The result of `applyValidatedUpserts`, described by the reference:
      ids are distinct and in order of first appearance over products then
      updates, and each entry is the last record (update, else product) with its id. */
  lemma UpsertsMatchReference<T>(products: seq<T>, updates: seq<T>, idOf: T -> int)
    ensures var r := ApplyValidatedUpserts(products, updates, idOf);
      && Ids(r, idOf) == FirstIds(products + updates, idOf)
      && Distinct(Ids(r, idOf))
      && (forall i | 0 <= i < |r| :: LastWithId(products + updates, idOf, idOf(r[i])) == Some(r[i]))
  {
    PutAllAppend([], idOf, products, updates);
    PutAllMatchesReference(products + updates, idOf);
  }

  lemma {:induction false} LastWithIdAppend<T>(a: seq<T>, b: seq<T>, idOf: T -> int, k: int)
    ensures LastWithId(a + b, idOf, k) == if LastWithId(b, idOf, k).Some? then LastWithId(b, idOf, k) else LastWithId(a, idOf, k)
    decreases |b|
  {
    if |b| > 0 {
      assert (a + b)[..|a + b| - 1] == a + b[..|b| - 1];
      LastWithIdAppend(a, b[..|b| - 1], idOf, k);
    } else {
      assert a + b == a;
    }
  }

  lemma {:induction false} LastWithIdDistinct<T>(xs: seq<T>, idOf: T -> int, i: nat)
    requires Distinct(Ids(xs, idOf)) && i < |xs|
    ensures LastWithId(xs, idOf, idOf(xs[i])) == Some(xs[i])
    decreases |xs|
  {
    if i < |xs| - 1 {
      var ys := xs[..|xs| - 1];
      assert Ids(ys, idOf) == Ids(xs, idOf)[..|xs| - 1];
      assert idOf(xs[|xs| - 1]) != idOf(xs[i]) by {
        assert Ids(xs, idOf)[i] != Ids(xs, idOf)[|xs| - 1];
      }
      LastWithIdDistinct(ys, idOf, i);
    }
  }

  /** Each updated id ends up holding the last update with that id; a product
      whose id is not updated comes back unchanged (product ids distinct). */
  lemma UpsertEntries<T>(products: seq<T>, updates: seq<T>, idOf: T -> int)
    requires Distinct(Ids(products, idOf))
    ensures var r := ApplyValidatedUpserts(products, updates, idOf);
      && (forall k | k in Ids(updates, idOf) :: exists i | 0 <= i < |r| :: idOf(r[i]) == k && Some(r[i]) == LastWithId(updates, idOf, k))
      && (forall p | p in products && idOf(p) !in Ids(updates, idOf) :: p in r)
  {
    var r := ApplyValidatedUpserts(products, updates, idOf);
    UpsertsMatchReference(products, updates, idOf);
    var f := FirstIds(products + updates, idOf);
    assert Ids(products + updates, idOf) == Ids(products, idOf) + Ids(updates, idOf);
    forall k | k in Ids(updates, idOf)
      ensures exists i | 0 <= i < |r| :: idOf(r[i]) == k && Some(r[i]) == LastWithId(updates, idOf, k)
    {
      assert k in f;
      var i :| 0 <= i < |f| && f[i] == k;
      assert Ids(r, idOf)[i] == k;
      LastWithIdAppend(products, updates, idOf, k);
    }
    forall p | p in products && idOf(p) !in Ids(updates, idOf) ensures p in r {
      var n :| 0 <= n < |products| && products[n] == p;
      var k := idOf(p);
      assert k in f;
      var i :| 0 <= i < |f| && f[i] == k;
      assert Ids(r, idOf)[i] == k;
      LastWithIdAppend(products, updates, idOf, k);
      LastWithIdDistinct(products, idOf, n);
    }
  }

  lemma {:induction false} FirstIdsPrefix<T>(a: seq<T>, b: seq<T>, idOf: T -> int)
    ensures |FirstIds(a, idOf)| <= |FirstIds(a + b, idOf)|
    ensures FirstIds(a + b, idOf)[..|FirstIds(a, idOf)|] == FirstIds(a, idOf)
    decreases |b|
  {
    if |b| == 0 {
      assert a + b == a;
    } else {
      assert (a + b)[..|a + b| - 1] == a + b[..|b| - 1];
      FirstIdsPrefix(a, b[..|b| - 1], idOf);
    }
  }

  lemma {:induction false} FirstIdsOfDistinct<T>(xs: seq<T>, idOf: T -> int)
    requires Distinct(Ids(xs, idOf))
    ensures FirstIds(xs, idOf) == Ids(xs, idOf)
    decreases |xs|
  {
    if |xs| > 0 {
      var ys := xs[..|xs| - 1];
      assert Ids(xs, idOf) == Ids(ys, idOf) + [idOf(xs[|xs| - 1])];
      FirstIdsOfDistinct(ys, idOf);
      assert idOf(xs[|xs| - 1]) !in Ids(ys, idOf) by {
        forall j | 0 <= j < |ys| ensures Ids(ys, idOf)[j] != idOf(xs[|xs| - 1]) {
          assert Ids(xs, idOf)[j] != Ids(xs, idOf)[|xs| - 1];
        }
      }
    }
  }

  /** With distinct product ids, every existing id keeps its position, and
      the entries after them are the ids new to the updates, in order of
      first appearance. */
  lemma UpsertPositions<T>(products: seq<T>, updates: seq<T>, idOf: T -> int)
    requires Distinct(Ids(products, idOf))
    ensures var r := ApplyValidatedUpserts(products, updates, idOf);
      && |products| <= |r|
      && Ids(r, idOf)[..|products|] == Ids(products, idOf)
      && (forall i | |products| <= i < |r| :: idOf(r[i]) !in Ids(products, idOf) && idOf(r[i]) in Ids(updates, idOf))
  {
    var r := ApplyValidatedUpserts(products, updates, idOf);
    UpsertsMatchReference(products, updates, idOf);
    FirstIdsPrefix(products, updates, idOf);
    FirstIdsOfDistinct(products, idOf);
    var f := FirstIds(products + updates, idOf);
    var pIds := Ids(products, idOf);
    IdsAppend(products, updates, idOf);
    forall i | |products| <= i < |r| ensures idOf(r[i]) !in pIds && idOf(r[i]) in Ids(updates, idOf) {
      var k := f[i];
      assert Ids(r, idOf)[i] == k;
      assert k !in pIds by {
        forall j | 0 <= j < |pIds| ensures pIds[j] != k {
          assert f[j] == pIds[j];
        }
      }
      assert k in Ids(products + updates, idOf);
    }
  }

  lemma IdsAppend<T>(a: seq<T>, b: seq<T>, idOf: T -> int)
    ensures Ids(a + b, idOf) == Ids(a, idOf) + Ids(b, idOf)
  {
  }
}
