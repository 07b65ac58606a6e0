/** Supplier CRUD: create from the body, newest-first listing, merge update, delete without cascade. */
module SupplierController {
  import opened Common
  import opened Records
  import opened Store
  import Listing

  /** `findByIdAndUpdate` with the body: every field the body carries replaces the stored one. */
  function MergeSupplier(f: SupplierFields, body: SupplierFields): SupplierFields
  {
    SupplierFields(
      if body.name.Some? then body.name else f.name,
      if body.company.Some? then body.company else f.company,
      if body.email.Some? then body.email else f.email,
      if body.phone.Some? then body.phone else f.phone)
  }

  /** Applying the same body twice is the same as applying it once. */
  lemma MergeSupplierIdempotent(f: SupplierFields, body: SupplierFields)
    ensures MergeSupplier(MergeSupplier(f, body), body) == MergeSupplier(f, body)
  {
  }

  /** Two updates in a row equal one update whose body is the second merged over the first. */
  lemma MergeSupplierComposes(f: SupplierFields, b1: SupplierFields, b2: SupplierFields)
    ensures MergeSupplier(MergeSupplier(f, b1), b2) == MergeSupplier(f, MergeSupplier(b1, b2))
  {
  }

  /** A body that carries every field overwrites the record completely. */
  lemma FullBodyReplaces(f: SupplierFields, body: SupplierFields)
    requires body.name.Some? && body.company.Some? && body.email.Some? && body.phone.Some?
    ensures MergeSupplier(f, body) == body
  {
  }

  /** createSupplier: stores a new supplier built from the body and answers with it. */
  method CreateSupplier(db: Database, body: SupplierFields, now: Timestamp) returns (r: Response<(Id, Supplier)>)
    requires db.Valid()
    modifies db
    ensures db.Valid()
    ensures r.Ok? && r.value.1 == Supplier(body, now)
    ensures r.value.0 !in old(db.suppliers)
    ensures db.suppliers == old(db.suppliers)[r.value.0 := r.value.1]
    ensures db.stocks == old(db.stocks) && db.products == old(db.products) && db.orders == old(db.orders)
  {
    var id := db.NewId();
    var supplier := Supplier(body, now);
    db.suppliers := db.suppliers[id := supplier];
    r := Ok((id, supplier));
  }

  function SupplierCreatedAt(s: Supplier): int { s.createdAt }

  /** getSuppliers: every supplier, newest first. */
  function GetSuppliers(suppliers: map<Id, Supplier>): (r: seq<(Id, Supplier)>)
    ensures |r| == |suppliers|
    ensures forall i :: 0 <= i < |r| ==> r[i].0 in suppliers && r[i].1 == suppliers[r[i].0]
    ensures forall k :: k in suppliers ==> exists i :: 0 <= i < |r| && r[i].0 == k
    ensures forall i, j :: 0 <= i < j < |r| ==> r[i].0 != r[j].0
    ensures forall i, j :: 0 <= i < j < |r| ==> r[i].1.createdAt >= r[j].1.createdAt
  {
    var r := Listing.Ordered(suppliers, SupplierCreatedAt);
    Listing.RanksNonIncreasing(r, SupplierCreatedAt);
    r
  }

  /** updateSupplier: merges the body into the one record named by `id`. */
  method UpdateSupplier(db: Database, id: Id, body: SupplierFields) returns (r: Response<Supplier>)
    requires db.Valid()
    modifies db
    ensures db.Valid()
    ensures id !in old(db.suppliers) ==> r == Fail(NotFound, "Supplier not found") && db.suppliers == old(db.suppliers)
    ensures id in old(db.suppliers) ==>
      var s := old(db.suppliers)[id];
      && r == Ok(s.(fields := MergeSupplier(s.fields, body)))
      && db.suppliers == old(db.suppliers)[id := r.value]
    ensures db.stocks == old(db.stocks) && db.products == old(db.products) && db.orders == old(db.orders)
    ensures db.nextId == old(db.nextId)
  {
    if id !in db.suppliers {
      return Fail(NotFound, "Supplier not found");
    }
    var s := db.suppliers[id];
    var updated := s.(fields := MergeSupplier(s.fields, body));
    db.suppliers := db.suppliers[id := updated];
    r := Ok(updated);
  }

  /** deleteSupplier: removes the one record; stocks that name it keep their reference. */
  method DeleteSupplier(db: Database, id: Id) returns (r: Response<()>)
    requires db.Valid()
    modifies db
    ensures db.Valid()
    ensures id !in old(db.suppliers) ==> r == Fail(NotFound, "Supplier not found") && db.suppliers == old(db.suppliers)
    ensures id in old(db.suppliers) ==> r == Ok(()) && db.suppliers == old(db.suppliers) - {id}
    ensures db.stocks == old(db.stocks) && db.products == old(db.products) && db.orders == old(db.orders)
    ensures db.nextId == old(db.nextId)
  {
    if id !in db.suppliers {
      return Fail(NotFound, "Supplier not found");
    }
    db.suppliers := db.suppliers - {id};
    r := Ok(());
  }
}
