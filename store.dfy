/** The document store: four tables keyed by id, and the allocator of fresh ids. */
module Store {
  import opened Common
  import opened Records
  import opened StockModel

  class Database {
    var suppliers: map<Id, Supplier>
    var stocks: map<Id, Stock>
    var products: map<Id, Product>
    var orders: map<Id, Order>
    /** Every id in use is below this one. */
    var nextId: Id

    ghost predicate Valid()
      reads this
    {
      && (forall k :: k in suppliers ==> k < nextId)
      && (forall k :: k in stocks ==> k < nextId)
      && (forall k :: k in products ==> k < nextId)
      && (forall k :: k in orders ==> k < nextId)
    }

    constructor ()
      ensures Valid()
      ensures suppliers == map[] && stocks == map[] && products == map[] && orders == map[]
    {
      suppliers, stocks, products, orders := map[], map[], map[], map[];
      nextId := 0;
    }

    /** Hands out an id that no table uses yet. */
    method NewId() returns (id: Id)
      requires Valid()
      modifies this`nextId
      ensures Valid()
      ensures id !in suppliers && id !in stocks && id !in products && id !in orders
      ensures id < nextId
    {
      id := nextId;
      nextId := nextId + 1;
    }
  }
}
