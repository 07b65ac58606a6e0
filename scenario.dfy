/** A client of the handlers: a supplier, a stock of 10 behind it, a product at price 5 over that
    stock; an order for 3 succeeds with total 15 and leaves 7, and an order for 8 is then refused
    and leaves 7. Everything asserted here follows from the handlers' contracts alone. */
module Scenario {
  import opened Common
  import opened Records
  import opened StockModel
  import opened Store
  import opened OrderRules
  import SupplierController
  import StockController
  import ProductController
  import OrderController

  /** A fresh store with one supplier, a stock of 10 widgets behind it and a product at price 5
      over that stock. */
  method StockedStore() returns (db: Database, productId: Id, stockId: Id)
    ensures fresh(db) && db.Valid()
    ensures stockId in db.stocks && db.stocks[stockId].quantity == 10
    ensures productId in db.products && db.products[productId] == Product("Widget", "a widget", 5, stockId, 2)
  {
    db := new Database();
    var supplier := SupplierController.CreateSupplier(db, SupplierFields(Some("Acme"), None, None, None), 1);
    var supplierId := supplier.value.0;

    var doc := StockDoc(Some("Widget"), Some("Tools"), Some(10), Some(supplierId));
    assert HasText(doc.productName) && HasText(doc.category);
    assert IsValid(doc);
    var stock := StockController.CreateStock(db, doc);
    assert stock.Ok?;
    stockId := stock.value.0;
    assert db.stocks[stockId].quantity == 10;

    var product := ProductController.CreateProduct(db, ProductInput("Widget", "a widget", 5, stockId), 2);
    assert product.Ok?;
    productId := product.value.0;
  }

  method PlaceTwoOrders()
  {
    var db, productId, stockId := StockedStore();

    var first := [OrderItem(productId, 3)];
    assert first[..0] == [];
    var line := LineItem(productId, stockId, "Widget", 3, 5);
    assert CheckItem(db.products, db.stocks, first[0]) == Ok(line);
    assert CheckItems(db.products, db.stocks, first[..0]) == Ok([]);
    assert [] + [line] == [line];
    assert CheckItems(db.products, db.stocks, first) == Ok([line]);
    assert ItemsTotal(db.products, first) == 15;
    var placed := OrderController.CreateOrder(db, 7, Some(first), 3);
    assert placed.Ok? && placed.value.1.totalAmount == 15;
    assert db.stocks[stockId].quantity == 7;

    var second := [OrderItem(productId, 8)];
    assert second[..0] == [];
    assert "Not enough stock for " + "Widget" == "Not enough stock for Widget";
    assert CheckItem(db.products, db.stocks, second[0]) == Fail(BadRequest, "Not enough stock for Widget");
    assert CheckItems(db.products, db.stocks, second) == Fail(BadRequest, "Not enough stock for Widget");
    var refused := OrderController.CreateOrder(db, 7, Some(second), 4);
    assert refused == Fail(BadRequest, "Not enough stock for Widget");
    assert db.stocks[stockId].quantity == 7;
  }
}
