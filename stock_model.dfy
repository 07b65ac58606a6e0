/** The Stock schema: a stock document, the checks Mongoose runs when one is saved, and the stored record. */
module StockModel {
  import opened Common

  /** A stock document as built from a request body: every field may be missing. */
  datatype StockDoc = StockDoc(
    productName: Option<string>,
    category: Option<string>,
    quantity: Option<int>,
    supplierId: Option<Id>)

  /** A stock record as it sits in the stocks table. */
  datatype Stock = Stock(productName: string, category: string, quantity: int, supplierId: Id)

  /** A path of the schema that a save can reject. */
  datatype StockPath = ProductNamePath | CategoryPath | QuantityPath | SupplierIdPath

  /** Mongoose's `required` on a String path: the value must be there and must not be empty. */
  predicate HasText(s: Option<string>)
  {
    s.Some? && s.value != ""
  }

  /** The save-time validators: the four required paths (an empty string does not count as
      present), and `min: 0` on quantity. */
  function Violations(d: StockDoc): (v: set<StockPath>)
    ensures v == {} <==>
      && d.productName.Some? && d.productName.value != ""
      && d.category.Some? && d.category.value != ""
      && d.quantity.Some? && d.quantity.value >= 0
      && d.supplierId.Some?
  {
    (if !HasText(d.productName) then {ProductNamePath} else {})
    + (if !HasText(d.category) then {CategoryPath} else {})
    + (if d.quantity.None? || d.quantity.value < 0 then {QuantityPath} else {})
    + (if d.supplierId.None? then {SupplierIdPath} else {})
  }

  /** A document that `save()` accepts. */
  predicate IsValid(d: StockDoc)
  {
    Violations(d) == {}
  }

  /** The document form of a stored record. */
  function ToDoc(s: Stock): (d: StockDoc)
    ensures d.productName.Some? && d.category.Some? && d.quantity.Some? && d.supplierId.Some?
  {
    StockDoc(Some(s.productName), Some(s.category), Some(s.quantity), Some(s.supplierId))
  }

  /** `save()`: the record to store, or the paths that failed validation. */
  function Save(d: StockDoc): (r: Result)
    ensures r.Saved? <==> IsValid(d)
    ensures r.Saved? ==> ToDoc(r.stock) == d
    ensures r.Rejected? ==> r.paths == Violations(d) && r.paths != {}
  {
    if IsValid(d) then Saved(Stock(d.productName.value, d.category.value, d.quantity.value, d.supplierId.value))
    else Rejected(Violations(d))
  }

  datatype Result = Saved(stock: Stock) | Rejected(paths: set<StockPath>)

  /** A stored record passes the schema exactly when its name and category are not empty and
      its quantity is not negative; such a record saves back to itself. */
  lemma StoredValidity(s: Stock)
    ensures IsValid(ToDoc(s)) <==> s.productName != "" && s.category != "" && s.quantity >= 0
    ensures IsValid(ToDoc(s)) ==> Save(ToDoc(s)) == Saved(s)
  {
  }
}
