/**
 * The catalog cache of `App.tsx`: the bulk load with its placeholder
 * fallback, and the state change each push notification applies to the
 * list of products (`product_created`, `product_updated`,
 * `product_deleted`, `stock_updated`).
 */
module Catalog {
  import opened Types
  import opened SeqFacts

  /** `DUMMY_PRODUCTS`: the one diagnostic placeholder shown when the catalog cannot be fetched. */
  const DummyProducts: seq<Product> := [
    Product(
      Some("dummy_error_1"), None, "DUMMY-ERR", "dummy product", ["Uncategorized"], [],
      0, 0, [], "Server connection failed. This is a diagnostic placeholder.",
      map["Free Size" := 1])
  ]

  /** The bulk load: a non-empty fetched list as it came, the placeholder otherwise. */
  function BulkLoad(fetched: Fetched<seq<Product>>): (r: seq<Product>)
    ensures r != []
    ensures (fetched.Received? && fetched.data.Some? && fetched.data.value != []) ==> r == fetched.data.value
    ensures !(fetched.Received? && fetched.data.Some? && fetched.data.value != []) ==> r == DummyProducts
  {
    match fetched
    case Received(Some(data)) => if |data| > 0 then data else DummyProducts
    case _ => DummyProducts
  }

  /** The record with its `_id` copied into `id`: the alternate id becomes the key and nothing else changes. */
  function Normalize(record: Product): (r: Product)
    ensures r.id == record.altId && r.altId == record.altId
    ensures r.(id := record.id) == record
  {
    record.(id := record.altId)
  }

  /** An entry matches an updated record when the two agree on `_id` or on `id`; two missing ids agree. */
  predicate SameRecord(p: Product, mapped: Product) {
    p.altId == mapped.altId || p.id == mapped.id
  }

  /** An entry carries `productId` when its `_id` or its `id` is that string. */
  predicate HasId(p: Product, productId: string) {
    p.altId == Some(productId) || p.id == Some(productId)
  }

  /** `product_created`: the normalised record goes in front of the others. */
  function ProductCreated(products: seq<Product>, record: Product): (r: seq<Product>)
    ensures |r| == |products| + 1 && r[1..] == products
    ensures r[0].id == record.altId && r[0].(id := record.id) == record
  {
    [Normalize(record)] + products
  }

  /**
   * `product_updated`: every entry that matches the normalised record on
   * either id is replaced by it; the others and the length stay.
   */
  function ProductUpdated(products: seq<Product>, record: Product): (r: seq<Product>)
    ensures |r| == |products|
    ensures forall i :: 0 <= i < |products| && SameRecord(products[i], Normalize(record)) ==> r[i] == Normalize(record)
    ensures forall i :: 0 <= i < |products| && !SameRecord(products[i], Normalize(record)) ==> r[i] == products[i]
  {
    if products == [] then []
    else
      var head := if SameRecord(products[0], Normalize(record)) then Normalize(record) else products[0];
      [head] + ProductUpdated(products[1..], record)
  }

  /** The number of entries that carry `productId` under either name. */
  ghost function CountWithId(products: seq<Product>, productId: string): nat {
    if products == [] then 0
    else (if HasId(products[0], productId) then 1 else 0) + CountWithId(products[1..], productId)
  }

  /**
   * `product_deleted`: keeps exactly the entries that carry the id under
   * neither name; the length drops by the number of entries that carry
   * it, and `ProductDeletedDistributes` pins the order of the survivors.
   */
  function ProductDeleted(products: seq<Product>, productId: string): (r: seq<Product>)
    ensures forall i :: 0 <= i < |r| ==> !HasId(r[i], productId) && r[i] in products
    ensures forall i :: 0 <= i < |products| && !HasId(products[i], productId) ==> products[i] in r
    ensures |r| + CountWithId(products, productId) == |products|
    ensures (forall i :: 0 <= i < |products| ==> !HasId(products[i], productId)) ==> r == products
  {
    if products == [] then []
    else if HasId(products[0], productId) then ProductDeleted(products[1..], productId)
    else [products[0]] + ProductDeleted(products[1..], productId)
  }

  /**
   * One entry's stock change: the stock of `size` becomes `newStock`;
   * every other size and every other field of the record stays.
   */
  function SetStock(p: Product, size: string, newStock: int): (r: Product)
    ensures r.(sizes := p.sizes) == p
    ensures size in r.sizes && r.sizes[size] == newStock
    ensures r.sizes.Keys == p.sizes.Keys + {size}
    ensures forall s :: s in p.sizes && s != size ==> r.sizes[s] == p.sizes[s]
  {
    p.(sizes := p.sizes[size := newStock])
  }

  /** `stock_updated`: every entry carrying the id gets the new stock; other entries and the length stay. */
  function StockUpdated(products: seq<Product>, productId: string, size: string, newStock: int): (r: seq<Product>)
    ensures |r| == |products|
    ensures forall i :: 0 <= i < |products| && HasId(products[i], productId) ==> r[i] == SetStock(products[i], size, newStock)
    ensures forall i :: 0 <= i < |products| && !HasId(products[i], productId) ==> r[i] == products[i]
  {
    if products == [] then []
    else
      var p := products[0];
      var head := if HasId(p, productId) then SetStock(p, size, newStock) else p;
      [head] + StockUpdated(products[1..], productId, size, newStock)
  }

  // ---------------------------------------------------------------------
  // Replaying notifications

  /** Re-applying an update with the same record changes nothing more. */
  lemma {:induction false} ProductUpdatedIdempotent(products: seq<Product>, record: Product)
    ensures ProductUpdated(ProductUpdated(products, record), record) == ProductUpdated(products, record)
  {
    if products != [] {
      var once := ProductUpdated(products, record);
      assert once[1..] == ProductUpdated(products[1..], record);
      ProductUpdatedIdempotent(products[1..], record);
      assert SameRecord(Normalize(record), Normalize(record));
    }
  }

  /** Re-applying a delete of the same id changes nothing more. */
  lemma ProductDeletedIdempotent(products: seq<Product>, productId: string)
    ensures ProductDeleted(ProductDeleted(products, productId), productId) == ProductDeleted(products, productId)
  {
  }

  /** Re-applying a stock change with the same values changes nothing more. */
  lemma StockUpdatedIdempotent(products: seq<Product>, productId: string, size: string, newStock: int)
    ensures StockUpdated(StockUpdated(products, productId, size, newStock), productId, size, newStock) ==
      StockUpdated(products, productId, size, newStock)
  {
    var once := StockUpdated(products, productId, size, newStock);
    var twice := StockUpdated(once, productId, size, newStock);
    forall i | 0 <= i < |products| ensures twice[i] == once[i] {
      var p := products[i];
      if HasId(p, productId) {
        assert HasId(once[i], productId);
        assert p.sizes[size := newStock][size := newStock] == p.sizes[size := newStock];
      }
    }
  }

  /** A replayed `product_created` is not absorbed: the record is listed twice. */
  lemma ProductCreatedReplayDuplicates(products: seq<Product>, record: Product)
    ensures var twice := ProductCreated(ProductCreated(products, record), record);
      |twice| == |products| + 2 && twice[0] == twice[1]
  {
  }

  /** Stock changes of two different sizes of one product commute. */
  lemma StockUpdatesCommute(products: seq<Product>, productId: string, s1: string, n1: int, s2: string, n2: int)
    requires s1 != s2
    ensures StockUpdated(StockUpdated(products, productId, s1, n1), productId, s2, n2) ==
      StockUpdated(StockUpdated(products, productId, s2, n2), productId, s1, n1)
  {
    var a1 := StockUpdated(products, productId, s1, n1);
    var b1 := StockUpdated(products, productId, s2, n2);
    var a := StockUpdated(a1, productId, s2, n2);
    var b := StockUpdated(b1, productId, s1, n1);
    forall i | 0 <= i < |products| ensures a[i] == b[i] {
      var p := products[i];
      if HasId(p, productId) {
        assert a1[i] == SetStock(p, s1, n1) && b1[i] == SetStock(p, s2, n2);
        assert HasId(a1[i], productId) by { assert a1[i].id == p.id && a1[i].altId == p.altId; }
        assert HasId(b1[i], productId) by { assert b1[i].id == p.id && b1[i].altId == p.altId; }
        SetStockCommute(p, s1, n1, s2, n2);
      }
    }
  }

  /** Two stock changes of different sizes of one entry commute. */
  lemma SetStockCommute(p: Product, s1: string, n1: int, s2: string, n2: int)
    requires s1 != s2
    ensures SetStock(SetStock(p, s1, n1), s2, n2) == SetStock(SetStock(p, s2, n2), s1, n1)
  {
    assert p.sizes[s1 := n1][s2 := n2] == p.sizes[s2 := n2][s1 := n1];
  }

  /** The filter commutes with concatenation: the surviving entries keep their order and their copies. */
  lemma {:induction false} ProductDeletedDistributes(a: seq<Product>, b: seq<Product>, productId: string)
    ensures ProductDeleted(a + b, productId) == ProductDeleted(a, productId) + ProductDeleted(b, productId)
  {
    if a == [] {
      assert a + b == b;
    } else {
      var head, tail := a[0], a[1..];
      ConsSplit(a, b, []);
      ConsSplit(a, [], []);
      assert a == [head] + tail;
      ProductDeletedDistributes(tail, b, productId);
      DeletedHead(head, tail + b, productId);
      DeletedHead(head, tail, productId);
      var front := if HasId(head, productId) then [] else [head];
      AppendAssoc(front, ProductDeleted(tail, productId), ProductDeleted(b, productId));
    }
  }

  /** One step of the filter: a first entry carrying the id is dropped, any other kept in front. */
  lemma DeletedHead(head: Product, rest: seq<Product>, productId: string)
    ensures ProductDeleted([head] + rest, productId) ==
      (if HasId(head, productId) then [] else [head]) + ProductDeleted(rest, productId)
  {
    var c := [head] + rest;
    assert c[0] == head && c[1..] == rest;
  }

  /** A record created and then deleted under its own `_id` leaves no trace. */
  lemma CreatedThenDeleted(products: seq<Product>, record: Product, productId: string)
    requires record.altId == Some(productId)
    ensures ProductDeleted(ProductCreated(products, record), productId) == ProductDeleted(products, productId)
  {
    assert ProductCreated(products, record)[1..] == products;
  }

  /** A record updated without an `_id` replaces every entry that lacks one, the placeholder among them. */
  lemma UpdateWithoutIdHitsUnkeyed(record: Product)
    requires record.altId == None
    ensures ProductUpdated(DummyProducts, record) == [Normalize(record)]
  {
  }

  /** The worked example: stock of `S` in `P1` goes from 5 to 2, `M` stays at 3, nothing else moves. */
  lemma StockExample(p: Product)
    requires p.id == Some("P1") && p.sizes == map["S" := 5, "M" := 3]
    ensures var r := StockUpdated([p], "P1", "S", 2);
      |r| == 1 && r[0].sizes == map["S" := 2, "M" := 3] && r[0].(sizes := p.sizes) == p
  {
    var r := StockUpdated([p], "P1", "S", 2);
    assert r[0].sizes == map["S" := 2, "M" := 3];
  }
}
