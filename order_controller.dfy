/** Order handlers: placing an order (validate every item, then decrement, then insert),
    listing orders, and changing an order's status. */
module OrderController {
  import opened Common
  import opened Records
  import opened StockModel
  import opened Store
  import opened OrderRules
  import Listing

  /** createOrder's first pass: check each item against the tables and build the snapshot
      lines and the running total, stopping at the first item that fails. Nothing is
      written. */
  method CheckOrderItems(products: map<Id, Product>, stocks: map<Id, Stock>, list: seq<OrderItem>)
    returns (r: Response<(seq<LineItem>, int)>)
    ensures var checked := CheckItems(products, stocks, list);
      && (checked.Fail? ==> r == Fail(checked.status, checked.message))
      && (checked.Ok? ==> r == Ok((checked.value, ItemsTotal(products, list))))
    ensures r.Ok? ==> r.value.1 == LinesTotal(r.value.0)
  {
    var totalAmount := 0;
    var updatedItems: seq<LineItem> := [];
    var i := 0;
    while i < |list|
      invariant 0 <= i <= |list|
      invariant CheckItems(products, stocks, list[..i]) == Ok(updatedItems)
      invariant totalAmount == ItemsTotal(products, list[..i])
    {
      var item := list[i];
      CheckItemsStep(products, stocks, list, i, updatedItems);
      ItemsTotalStep(products, list, i);
      if item.productId !in products {
        return Fail(NotFound, "Product not found");
      }
      var product := products[item.productId];
      if product.stockId !in stocks {
        return Fail(NotFound, "Stock not found");
      }
      var stock := stocks[product.stockId];
      if stock.quantity < item.quantity {
        return Fail(BadRequest, "Not enough stock for " + product.name);
      }
      totalAmount := totalAmount + product.price * item.quantity;
      updatedItems := updatedItems + [LineItem(item.productId, product.stockId, product.name, item.quantity, product.price)];
      i := i + 1;
    }
    assert list[..|list|] == list;
    TotalMatchesLines(products, stocks, list);
    r := Ok((updatedItems, totalAmount));
  }

  /** createOrder's second pass: decrement, item by item, the stock each product points
      at by the requested quantity. Only the stocks table changes. */
  method DecrementStocks(db: Database, list: seq<OrderItem>)
    requires db.Valid()
    modifies db`stocks
    ensures db.Valid()
    ensures db.stocks == ApplyDecrements(old(db.stocks), db.products, list)
  {
    var stocks := db.stocks;
    var i := 0;
    while i < |list|
      invariant 0 <= i <= |list|
      invariant db.stocks == ApplyDecrements(stocks, db.products, list[..i])
      invariant db.Valid()
    {
      var item := list[i];
      ApplyDecrementsStep(stocks, db.products, list, i);
      if item.productId in db.products {
        var sid := db.products[item.productId].stockId;
        if sid in db.stocks {
          db.stocks := db.stocks[sid := db.stocks[sid].(quantity := db.stocks[sid].quantity - item.quantity)];
        }
      }
      i := i + 1;
    }
    assert list[..|list|] == list;
  }

  /** createOrder. Every item is checked first; only when all of them passed are the stocks
      decremented, after which one order is stored. */
  method CreateOrder(db: Database, userId: Id, items: Option<seq<OrderItem>>, now: Timestamp)
    returns (r: Response<(Id, Order)>)
    requires db.Valid()
    modifies db
    ensures db.Valid()
    ensures db.suppliers == old(db.suppliers) && db.products == old(db.products)
    ensures var admitted := Admit(old(db.products), old(db.stocks), items);
      admitted.Fail? ==>
        && r == Fail(admitted.status, admitted.message)
        && db.stocks == old(db.stocks) && db.orders == old(db.orders) && db.nextId == old(db.nextId)
    ensures var admitted := Admit(old(db.products), old(db.stocks), items);
      admitted.Ok? ==>
        && r.Ok?
        && r.value.0 !in old(db.orders)
        && r.value.1 == Order(userId, admitted.value, ItemsTotal(old(db.products), items.value), DefaultStatus, now)
        && db.orders == old(db.orders)[r.value.0 := r.value.1]
        && db.stocks == ApplyDecrements(old(db.stocks), old(db.products), items.value)
    ensures r.Ok? ==> r.value.1.totalAmount == LinesTotal(r.value.1.items)
  {
    if items.None? || items.value == [] {
      return Fail(BadRequest, "Items are required");
    }
    ghost var admitted := Admit(db.products, db.stocks, items);
    assert admitted == CheckItems(db.products, db.stocks, items.value);
    var checked := CheckOrderItems(db.products, db.stocks, items.value);
    if checked.Fail? {
      return Fail(checked.status, checked.message);
    }
    var updatedItems, totalAmount := checked.value.0, checked.value.1;
    assert updatedItems == admitted.value && totalAmount == ItemsTotal(db.products, items.value);
    DecrementStocks(db, items.value);
    var id := db.NewId();
    var newOrder := Order(userId, updatedItems, totalAmount, DefaultStatus, now);
    db.orders := db.orders[id := newOrder];
    r := Ok((id, newOrder));
  }

  /** getAllOrders: every order once, in ascending id order. */
  function GetAllOrders(orders: map<Id, Order>): (r: seq<(Id, Order)>)
    ensures |r| == |orders|
    ensures forall i :: 0 <= i < |r| ==> r[i].0 in orders && r[i].1 == orders[r[i].0]
    ensures forall k :: k in orders ==> exists i :: 0 <= i < |r| && r[i].0 == k
    ensures forall i, j :: 0 <= i < j < |r| ==> r[i].0 < r[j].0
  {
    Listing.InsertionOrder(orders)
  }

  /** The part of the orders table that belongs to `userId`. */
  function OrdersOf(orders: map<Id, Order>, userId: Id): (mine: map<Id, Order>)
    ensures forall k :: k in mine <==> k in orders && orders[k].userId == userId
    ensures forall k :: k in mine ==> mine[k] == orders[k]
  {
    map k | k in orders && orders[k].userId == userId :: orders[k]
  }

  /** getMyOrders: exactly the caller's orders, each once, in ascending id order. */
  function GetMyOrders(orders: map<Id, Order>, userId: Id): (r: seq<(Id, Order)>)
    ensures forall i :: 0 <= i < |r| ==> r[i].0 in orders && r[i].1 == orders[r[i].0] && r[i].1.userId == userId
    ensures forall k :: k in orders && orders[k].userId == userId ==> exists i :: 0 <= i < |r| && r[i].0 == k
    ensures forall i, j :: 0 <= i < j < |r| ==> r[i].0 < r[j].0
  {
    GetAllOrders(OrdersOf(orders, userId))
  }

  /** `status || order.status`: a missing or empty status keeps the old one. */
  predicate Truthy(status: Option<string>)
  {
    status.Some? && status.value != ""
  }

  /** updateOrderStatus: sets the status of the one order named by `id`, and nothing else. */
  method UpdateOrderStatus(db: Database, id: Id, status: Option<string>) returns (r: Response<Order>)
    requires db.Valid()
    modifies db
    ensures db.Valid()
    ensures id !in old(db.orders) ==> r == Fail(NotFound, "Order not found") && db.orders == old(db.orders)
    ensures id in old(db.orders) ==>
      var o := old(db.orders)[id];
      && r == Ok(o.(status := if Truthy(status) then status.value else o.status))
      && db.orders == old(db.orders)[id := r.value]
    ensures db.suppliers == old(db.suppliers) && db.stocks == old(db.stocks) && db.products == old(db.products)
    ensures db.nextId == old(db.nextId)
  {
    if id !in db.orders {
      return Fail(NotFound, "Order not found");
    }
    var order := db.orders[id];
    order := order.(status := if Truthy(status) then status.value else order.status);
    db.orders := db.orders[id := order];
    r := Ok(order);
  }
}
