/** Stock CRUD: create behind a supplier check, listing joined with suppliers, merge update, delete. */
module StockController {
  import opened Common
  import opened Records
  import opened StockModel
  import opened Store
  import Listing

  /** One row of the stock listing: the record and its supplier's contact fields, if that supplier exists. */
  datatype StockRow = StockRow(id: Id, stock: Stock, supplier: Option<SupplierFields>)

  /** `findByIdAndUpdate` with the body: each field the body carries replaces the stored one; no validator runs. */
  function MergeStock(s: Stock, body: StockDoc): Stock
  {
    Stock(
      if body.productName.Some? then body.productName.value else s.productName,
      if body.category.Some? then body.category.value else s.category,
      if body.quantity.Some? then body.quantity.value else s.quantity,
      if body.supplierId.Some? then body.supplierId.value else s.supplierId)
  }

  /** One body laid over another: the fields of `b2`, and those of `b1` where `b2` has none. */
  function LayerStockDoc(b1: StockDoc, b2: StockDoc): StockDoc
  {
    StockDoc(
      if b2.productName.Some? then b2.productName else b1.productName,
      if b2.category.Some? then b2.category else b1.category,
      if b2.quantity.Some? then b2.quantity else b1.quantity,
      if b2.supplierId.Some? then b2.supplierId else b1.supplierId)
  }

  /** An empty body leaves the record as it is. */
  lemma MergeStockEmptyBody(s: Stock)
    ensures MergeStock(s, StockDoc(None, None, None, None)) == s
  {
  }

  /** Applying the same body twice is the same as applying it once. */
  lemma MergeStockIdempotent(s: Stock, body: StockDoc)
    ensures MergeStock(MergeStock(s, body), body) == MergeStock(s, body)
  {
  }

  /** A body that carries every field of a record `t` turns any record into `t`. */
  lemma MergeStockFullBody(s: Stock, t: Stock)
    ensures MergeStock(s, ToDoc(t)) == t
  {
  }

  /** Two updates in a row equal one update whose body is the second laid over the first. */
  lemma MergeStockComposes(s: Stock, b1: StockDoc, b2: StockDoc)
    ensures MergeStock(MergeStock(s, b1), b2) == MergeStock(s, LayerStockDoc(b1, b2))
  {
  }

  /** Because no validator runs on update, a merge can store a record that `save()` would refuse. */
  lemma MergeCanBreakSchema(s: Stock)
    ensures !IsValid(ToDoc(MergeStock(s, StockDoc(None, None, Some(-1), None))))
  {
    StoredValidity(MergeStock(s, StockDoc(None, None, Some(-1), None)));
  }

  /** createStock: the supplier must exist, then the document must pass the schema. */
  method CreateStock(db: Database, body: StockDoc) returns (r: Response<(Id, Stock)>)
    requires db.Valid()
    modifies db
    ensures db.Valid()
    ensures body.supplierId.None? || body.supplierId.value !in old(db.suppliers) ==>
      r == Fail(NotFound, "Supplier not found") && db.stocks == old(db.stocks)
    ensures body.supplierId.Some? && body.supplierId.value in old(db.suppliers) && !IsValid(body) ==>
      r == Fail(Internal, "Stock validation failed") && db.stocks == old(db.stocks)
    ensures body.supplierId.Some? && body.supplierId.value in old(db.suppliers) && IsValid(body) ==>
      && r.Ok?
      && ToDoc(r.value.1) == body
      && r.value.0 !in old(db.stocks)
      && db.stocks == old(db.stocks)[r.value.0 := r.value.1]
    ensures r.Ok? ==> IsValid(ToDoc(r.value.1)) && SupplierOf(db.suppliers, r.value.1).Some?
    ensures db.suppliers == old(db.suppliers) && db.products == old(db.products) && db.orders == old(db.orders)
  {
    if body.supplierId.None? || body.supplierId.value !in db.suppliers {
      return Fail(NotFound, "Supplier not found");
    }
    var saved := Save(body);
    if saved.Rejected? {
      return Fail(Internal, "Stock validation failed");
    }
    var id := db.NewId();
    db.stocks := db.stocks[id := saved.stock];
    r := Ok((id, saved.stock));
  }

  /** The supplier a stock row shows: the referenced supplier's fields, or nothing for a dangling reference. */
  function SupplierOf(suppliers: map<Id, Supplier>, s: Stock): (f: Option<SupplierFields>)
    ensures f.Some? <==> s.supplierId in suppliers
    ensures f.Some? ==> f.value == suppliers[s.supplierId].fields
  {
    if s.supplierId in suppliers then Some(suppliers[s.supplierId].fields) else None
  }

  /** getAllStock: every stock record once, in ascending id order, joined with its supplier. */
  function GetAllStock(stocks: map<Id, Stock>, suppliers: map<Id, Supplier>): (r: seq<StockRow>)
    ensures |r| == |stocks|
    ensures forall i :: 0 <= i < |r| ==>
      && r[i].id in stocks && r[i].stock == stocks[r[i].id]
      && r[i].supplier == SupplierOf(suppliers, r[i].stock)
    ensures forall k :: k in stocks ==> exists i :: 0 <= i < |r| && r[i].id == k
    ensures forall i, j :: 0 <= i < j < |r| ==> r[i].id < r[j].id
  {
    var l := Listing.InsertionOrder(stocks);
    JoinedListing(stocks, suppliers, l);
    JoinSuppliers(l, suppliers)
  }

  /** Joining suppliers onto a listing of the stocks keeps it a listing of the stocks. */
  lemma JoinedListing(stocks: map<Id, Stock>, suppliers: map<Id, Supplier>, l: seq<(Id, Stock)>)
    requires |l| == |stocks| && Listing.ListsExactly(l, stocks)
    requires forall i, j :: 0 <= i < j < |l| ==> l[i].0 < l[j].0
    ensures var r := JoinSuppliers(l, suppliers);
      && (forall i :: 0 <= i < |r| ==> r[i].id in stocks && r[i].stock == stocks[r[i].id])
      && (forall k :: k in stocks ==> exists i :: 0 <= i < |r| && r[i].id == k)
      && (forall i, j :: 0 <= i < j < |r| ==> r[i].id < r[j].id)
  {
    var r := JoinSuppliers(l, suppliers);
    forall k | k in stocks ensures exists i :: 0 <= i < |r| && r[i].id == k {
      var i :| 0 <= i < |l| && l[i].0 == k;
      assert r[i].id == k;
    }
  }

  /** deleteSupplier does not cascade: after it, the stock listing shows no supplier for exactly
      the stocks that referenced the deleted one, and every other row is as before. */
  lemma DeleteSupplierLeavesDangling(stocks: map<Id, Stock>, suppliers: map<Id, Supplier>, sid: Id)
    requires sid in suppliers
    ensures var before, after := GetAllStock(stocks, suppliers), GetAllStock(stocks, suppliers - {sid});
      && |after| == |before|
      && forall i :: 0 <= i < |after| ==>
        && after[i].id == before[i].id && after[i].stock == before[i].stock
        && after[i].supplier == (if before[i].stock.supplierId == sid then None else before[i].supplier)
  {
    var l := Listing.InsertionOrder(stocks);
    assert GetAllStock(stocks, suppliers) == JoinSuppliers(l, suppliers);
    assert GetAllStock(stocks, suppliers - {sid}) == JoinSuppliers(l, suppliers - {sid});
    JoinWithout(l, suppliers, sid);
  }

  /** Joining against the suppliers minus `sid` differs only in the rows that referenced `sid`. */
  lemma JoinWithout(l: seq<(Id, Stock)>, suppliers: map<Id, Supplier>, sid: Id)
    requires sid in suppliers
    ensures var before, after := JoinSuppliers(l, suppliers), JoinSuppliers(l, suppliers - {sid});
      && |after| == |before|
      && forall i :: 0 <= i < |after| ==>
        && after[i].id == before[i].id && after[i].stock == before[i].stock
        && after[i].supplier == (if before[i].stock.supplierId == sid then None else before[i].supplier)
  {
  }

  /** Each listed stock with the supplier `populate` attaches to it. */
  function JoinSuppliers(l: seq<(Id, Stock)>, suppliers: map<Id, Supplier>): (r: seq<StockRow>)
    ensures |r| == |l|
    ensures forall i :: 0 <= i < |r| ==> r[i].id == l[i].0 && r[i].stock == l[i].1
    ensures forall i :: 0 <= i < |r| ==> r[i].supplier == SupplierOf(suppliers, l[i].1)
  {
    seq(|l|, i requires 0 <= i < |l| => StockRow(l[i].0, l[i].1, SupplierOf(suppliers, l[i].1)))
  }

  /** updateStock: merges the body into the one record named by `id`, with no supplier check. */
  method UpdateStock(db: Database, id: Id, body: StockDoc) returns (r: Response<Stock>)
    requires db.Valid()
    modifies db
    ensures db.Valid()
    ensures id !in old(db.stocks) ==> r == Fail(NotFound, "Stock not found") && db.stocks == old(db.stocks)
    ensures id in old(db.stocks) ==>
      && r == Ok(MergeStock(old(db.stocks)[id], body))
      && db.stocks == old(db.stocks)[id := r.value]
    ensures db.suppliers == old(db.suppliers) && db.products == old(db.products) && db.orders == old(db.orders)
    ensures db.nextId == old(db.nextId)
  {
    if id !in db.stocks {
      return Fail(NotFound, "Stock not found");
    }
    var updated := MergeStock(db.stocks[id], body);
    db.stocks := db.stocks[id := updated];
    r := Ok(updated);
  }

  /** deleteStock: removes the one record; products that name it keep their reference. */
  method DeleteStock(db: Database, id: Id) returns (r: Response<()>)
    requires db.Valid()
    modifies db
    ensures db.Valid()
    ensures id !in old(db.stocks) ==> r == Fail(NotFound, "Stock not found") && db.stocks == old(db.stocks)
    ensures id in old(db.stocks) ==> r == Ok(()) && db.stocks == old(db.stocks) - {id}
    ensures db.suppliers == old(db.suppliers) && db.products == old(db.products) && db.orders == old(db.orders)
    ensures db.nextId == old(db.nextId)
  {
    if id !in db.stocks {
      return Fail(NotFound, "Stock not found");
    }
    db.stocks := db.stocks - {id};
    r := Ok(());
  }
}
