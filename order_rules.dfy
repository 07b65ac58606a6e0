/** What placing an order means, stated over the tables as they are when the request arrives:
    the per-item checks, the snapshot lines, the total, and the stock decrements. */
module OrderRules {
  import opened Common
  import opened Records
  import opened StockModel

  /** The checks one item passes in the first loop: product, then its stock, then the quantity
      against the stock as stored; a passing item yields its snapshot line. */
  function CheckItem(products: map<Id, Product>, stocks: map<Id, Stock>, item: OrderItem): (r: Response<LineItem>)
  {
    if item.productId !in products then Fail(NotFound, "Product not found")
    else
      var p := products[item.productId];
      if p.stockId !in stocks then Fail(NotFound, "Stock not found")
      else if stocks[p.stockId].quantity < item.quantity then Fail(BadRequest, "Not enough stock for " + p.name)
      else Ok(LineItem(item.productId, p.stockId, p.name, item.quantity, p.price))
  }

  /** The first loop over all items: the first failure in request order, or every snapshot line. */
  function CheckItems(products: map<Id, Product>, stocks: map<Id, Stock>, items: seq<OrderItem>): Response<seq<LineItem>>
    decreases |items|
  {
    if items == [] then Ok([])
    else
      var prefix := CheckItems(products, stocks, items[..|items| - 1]);
      if prefix.Fail? then prefix
      else
        var c := CheckItem(products, stocks, items[|items| - 1]);
        if c.Fail? then Fail(c.status, c.message) else Ok(prefix.value + [c.value])
  }

  /** The whole validation of a request body: a missing or empty item list, then the item checks. */
  function Admit(products: map<Id, Product>, stocks: map<Id, Stock>, items: Option<seq<OrderItem>>): Response<seq<LineItem>>
  {
    if items.None? || items.value == [] then Fail(BadRequest, "Items are required")
    else CheckItems(products, stocks, items.value)
  }

  /** The sum over the requested items of product price times requested quantity. */
  function ItemsTotal(products: map<Id, Product>, items: seq<OrderItem>): int
    decreases |items|
  {
    if items == [] then 0
    else
      var item := items[|items| - 1];
      ItemsTotal(products, items[..|items| - 1])
        + (if item.productId in products then products[item.productId].price * item.quantity else 0)
  }

  /** The sum over order lines of price times quantity. */
  function LinesTotal(lines: seq<LineItem>): int
    decreases |lines|
  {
    if lines == [] then 0
    else LinesTotal(lines[..|lines| - 1]) + lines[|lines| - 1].price * lines[|lines| - 1].quantity
  }

  /** The total quantity the items ask of stock `sid`. */
  function Demand(products: map<Id, Product>, items: seq<OrderItem>, sid: Id): int
    decreases |items|
  {
    if items == [] then 0
    else
      var item := items[|items| - 1];
      Demand(products, items[..|items| - 1], sid)
        + (if item.productId in products && products[item.productId].stockId == sid then item.quantity else 0)
  }

  /** One step of the second loop: `$inc` the item's stock by minus the requested quantity;
      an update of a missing stock changes nothing. */
  function Decrement(stocks: map<Id, Stock>, products: map<Id, Product>, item: OrderItem): map<Id, Stock>
  {
    if item.productId in products && products[item.productId].stockId in stocks then
      var sid := products[item.productId].stockId;
      stocks[sid := stocks[sid].(quantity := stocks[sid].quantity - item.quantity)]
    else stocks
  }

  /** The second loop over all items, in request order. */
  function ApplyDecrements(stocks: map<Id, Stock>, products: map<Id, Product>, items: seq<OrderItem>): map<Id, Stock>
    decreases |items|
  {
    if items == [] then stocks
    else Decrement(ApplyDecrements(stocks, products, items[..|items| - 1]), products, items[|items| - 1])
  }

  /** Validation passes exactly when every item passes, and then yields one line per item, in order. */
  lemma {:induction false} CheckItemsPass(products: map<Id, Product>, stocks: map<Id, Stock>, items: seq<OrderItem>)
    ensures CheckItems(products, stocks, items).Ok? <==> forall j :: 0 <= j < |items| ==> CheckItem(products, stocks, items[j]).Ok?
    ensures CheckItems(products, stocks, items).Ok? ==>
      var lines := CheckItems(products, stocks, items).value;
      |lines| == |items| && forall j :: 0 <= j < |items| ==> lines[j] == CheckItem(products, stocks, items[j]).value
    decreases |items|
  {
    if items != [] {
      var front := items[..|items| - 1];
      CheckItemsPass(products, stocks, front);
      assert forall j :: 0 <= j < |front| ==> front[j] == items[j];
    }
  }

  /** The failure reported is that of the first failing item in request order. */
  lemma {:induction false} CheckItemsFirstFailure(products: map<Id, Product>, stocks: map<Id, Stock>, items: seq<OrderItem>, i: nat)
    requires i < |items|
    requires forall j :: 0 <= j < i ==> CheckItem(products, stocks, items[j]).Ok?
    requires CheckItem(products, stocks, items[i]).Fail?
    ensures var c := CheckItem(products, stocks, items[i]);
      CheckItems(products, stocks, items) == Fail(c.status, c.message)
    decreases |items|
  {
    var front := items[..|items| - 1];
    assert forall j :: 0 <= j < |front| ==> front[j] == items[j];
    if i < |items| - 1 {
      CheckItemsFirstFailure(products, stocks, front, i);
    } else {
      CheckItemsPass(products, stocks, front);
    }
  }

  /** Once a prefix of the items fails, the whole request fails the same way. */
  lemma {:induction false} FailureSticks(products: map<Id, Product>, stocks: map<Id, Stock>, items: seq<OrderItem>, n: nat)
    requires n <= |items|
    requires CheckItems(products, stocks, items[..n]).Fail?
    ensures CheckItems(products, stocks, items) == CheckItems(products, stocks, items[..n])
    decreases |items|
  {
    if n < |items| {
      var front := items[..|items| - 1];
      assert front[..n] == items[..n];
      FailureSticks(products, stocks, front, n);
    } else {
      assert items[..n] == items;
    }
  }

  /** One step of the first loop: after a passing prefix, item `i` either fails the whole
      request with its own error or extends the lines by its snapshot. */
  lemma CheckItemsStep(products: map<Id, Product>, stocks: map<Id, Stock>, items: seq<OrderItem>, i: nat, lines: seq<LineItem>)
    requires i < |items|
    requires CheckItems(products, stocks, items[..i]) == Ok(lines)
    ensures var c := CheckItem(products, stocks, items[i]);
      && (c.Fail? ==> CheckItems(products, stocks, items) == Fail(c.status, c.message))
      && (c.Ok? ==> CheckItems(products, stocks, items[..i + 1]) == Ok(lines + [c.value]))
  {
    assert items[..i + 1][..i] == items[..i];
    if CheckItem(products, stocks, items[i]).Fail? {
      FailureSticks(products, stocks, items, i + 1);
    }
  }

  /** One step of the running total. */
  lemma ItemsTotalStep(products: map<Id, Product>, items: seq<OrderItem>, i: nat)
    requires i < |items|
    ensures ItemsTotal(products, items[..i + 1]) == ItemsTotal(products, items[..i])
      + (if items[i].productId in products then products[items[i].productId].price * items[i].quantity else 0)
  {
    assert items[..i + 1][..i] == items[..i];
  }

  /** One step of the second loop. */
  lemma ApplyDecrementsStep(stocks: map<Id, Stock>, products: map<Id, Product>, items: seq<OrderItem>, i: nat)
    requires i < |items|
    ensures ApplyDecrements(stocks, products, items[..i + 1])
      == Decrement(ApplyDecrements(stocks, products, items[..i]), products, items[i])
  {
    assert items[..i + 1][..i] == items[..i];
  }

  /** The order's total is the sum of its lines' price times quantity. */
  lemma {:induction false} TotalMatchesLines(products: map<Id, Product>, stocks: map<Id, Stock>, items: seq<OrderItem>)
    requires CheckItems(products, stocks, items).Ok?
    ensures ItemsTotal(products, items) == LinesTotal(CheckItems(products, stocks, items).value)
    decreases |items|
  {
    if items != [] {
      var front := items[..|items| - 1];
      var lines := CheckItems(products, stocks, items).value;
      assert CheckItems(products, stocks, front).Ok?;
      TotalMatchesLines(products, stocks, front);
      assert lines[..|lines| - 1] == CheckItems(products, stocks, front).value;
    }
  }

  /** The second loop takes from each stock exactly what the items ask of it, keeps every other
      field, and touches no other stock; it neither adds nor removes stocks. */
  lemma {:induction false} DecrementsSubtractDemand(stocks: map<Id, Stock>, products: map<Id, Product>, items: seq<OrderItem>)
    ensures ApplyDecrements(stocks, products, items).Keys == stocks.Keys
    ensures forall sid :: sid in stocks ==>
      ApplyDecrements(stocks, products, items)[sid]
        == stocks[sid].(quantity := stocks[sid].quantity - Demand(products, items, sid))
    decreases |items|
  {
    if items != [] {
      DecrementsSubtractDemand(stocks, products, items[..|items| - 1]);
    }
  }

  /** A stock that no item asks for comes out of the second loop as it went in. */
  lemma UntouchedStockUnchanged(stocks: map<Id, Stock>, products: map<Id, Product>, items: seq<OrderItem>, sid: Id)
    requires sid in stocks
    requires forall j :: 0 <= j < |items| ==> !(items[j].productId in products && products[items[j].productId].stockId == sid)
    ensures sid in ApplyDecrements(stocks, products, items)
    ensures ApplyDecrements(stocks, products, items)[sid] == stocks[sid]
  {
    DecrementsSubtractDemand(stocks, products, items);
    NoDemand(products, items, sid);
  }

  lemma {:induction false} NoDemand(products: map<Id, Product>, items: seq<OrderItem>, sid: Id)
    requires forall j :: 0 <= j < |items| ==> !(items[j].productId in products && products[items[j].productId].stockId == sid)
    ensures Demand(products, items, sid) == 0
    decreases |items|
  {
    if items != [] {
      NoDemand(products, items[..|items| - 1], sid);
    }
  }

  /** Two items naming the same product each pass the check against the stored quantity,
      and together drive that stock below the schema's minimum of zero. */
  lemma OversellPassesCheck()
    ensures var stocks := map[0 := Stock("Pens", "Stationery", 5, 9)];
      var products := map[1 := Product("Pen", "blue", 2, 0, 0)];
      var items := [OrderItem(1, 3), OrderItem(1, 3)];
      && CheckItems(products, stocks, items).Ok?
      && 0 in ApplyDecrements(stocks, products, items)
      && ApplyDecrements(stocks, products, items)[0].quantity == -1
      && !IsValid(ToDoc(ApplyDecrements(stocks, products, items)[0]))
  {
    var stocks := map[0 := Stock("Pens", "Stationery", 5, 9)];
    var products := map[1 := Product("Pen", "blue", 2, 0, 0)];
    var items := [OrderItem(1, 3), OrderItem(1, 3)];
    assert items[..1] == [OrderItem(1, 3)];
    assert [OrderItem(1, 3)][..0] == [];
    StoredValidity(ApplyDecrements(stocks, products, items)[0]);
  }

  /** The quantity check as intended: against what is left of the stock after the items before it. */
  function CheckItemCumulative(products: map<Id, Product>, stocks: map<Id, Stock>, before: seq<OrderItem>, item: OrderItem): Response<LineItem>
  {
    if item.productId !in products then Fail(NotFound, "Product not found")
    else
      var p := products[item.productId];
      if p.stockId !in stocks then Fail(NotFound, "Stock not found")
      else if stocks[p.stockId].quantity - Demand(products, before, p.stockId) < item.quantity then
        Fail(BadRequest, "Not enough stock for " + p.name)
      else Ok(LineItem(item.productId, p.stockId, p.name, item.quantity, p.price))
  }

  /** The first loop with the intended check. */
  function CheckItemsCumulative(products: map<Id, Product>, stocks: map<Id, Stock>, items: seq<OrderItem>): Response<seq<LineItem>>
    decreases |items|
  {
    if items == [] then Ok([])
    else
      var front := items[..|items| - 1];
      var prefix := CheckItemsCumulative(products, stocks, front);
      if prefix.Fail? then prefix
      else
        var c := CheckItemCumulative(products, stocks, front, items[|items| - 1]);
        if c.Fail? then Fail(c.status, c.message) else Ok(prefix.value + [c.value])
  }

  /** With the intended check, an order that passes leaves every stock that satisfied the
      schema still satisfying it. */
  lemma {:induction false} CumulativeCheckKeepsStockValid(stocks: map<Id, Stock>, products: map<Id, Product>, items: seq<OrderItem>)
    requires forall sid :: sid in stocks ==> IsValid(ToDoc(stocks[sid]))
    requires CheckItemsCumulative(products, stocks, items).Ok?
    ensures forall sid :: sid in ApplyDecrements(stocks, products, items) ==>
      IsValid(ToDoc(ApplyDecrements(stocks, products, items)[sid]))
  {
    forall sid | sid in stocks ensures stocks[sid].quantity >= 0 {
      StoredValidity(stocks[sid]);
    }
    CumulativeDemandCovered(stocks, products, items);
    DecrementsSubtractDemand(stocks, products, items);
    forall sid | sid in ApplyDecrements(stocks, products, items)
      ensures IsValid(ToDoc(ApplyDecrements(stocks, products, items)[sid]))
    {
      StoredValidity(stocks[sid]);
      StoredValidity(ApplyDecrements(stocks, products, items)[sid]);
    }
  }

  lemma {:induction false} CumulativeDemandCovered(stocks: map<Id, Stock>, products: map<Id, Product>, items: seq<OrderItem>)
    requires forall sid :: sid in stocks ==> stocks[sid].quantity >= 0
    requires CheckItemsCumulative(products, stocks, items).Ok?
    ensures forall sid :: sid in stocks ==> stocks[sid].quantity - Demand(products, items, sid) >= 0
    decreases |items|
  {
    if items != [] {
      var front := items[..|items| - 1];
      CumulativeDemandCovered(stocks, products, front);
      var item := items[|items| - 1];
      assert CheckItemCumulative(products, stocks, front, item).Ok?;
    }
  }

  /** The intended check refuses the request that oversells under the check as written. */
  lemma CumulativeCheckRefusesOversell()
    ensures var stocks := map[0 := Stock("Pens", "Stationery", 5, 9)];
      var products := map[1 := Product("Pen", "blue", 2, 0, 0)];
      CheckItemsCumulative(products, stocks, [OrderItem(1, 3), OrderItem(1, 3)])
        == Fail(BadRequest, "Not enough stock for Pen")
  {
    var products := map[1 := Product("Pen", "blue", 2, 0, 0)];
    var items := [OrderItem(1, 3), OrderItem(1, 3)];
    assert items[..1] == [OrderItem(1, 3)];
    assert [OrderItem(1, 3)][..0] == [];
    assert Demand(products, [OrderItem(1, 3)], 0) == 3;
  }
}
