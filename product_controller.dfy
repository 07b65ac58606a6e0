/** Product CRUD: create and update behind a stock check, newest-first listing, lookup, delete. */
module ProductController {
  import opened Common
  import opened Records
  import opened Store
  import Listing

  function ProductCreatedAt(p: Product): int { p.createdAt }

  /** getProducts: every product, newest first. */
  function GetProducts(products: map<Id, Product>): (r: seq<(Id, Product)>)
    ensures |r| == |products|
    ensures forall i :: 0 <= i < |r| ==> r[i].0 in products && r[i].1 == products[r[i].0]
    ensures forall k :: k in products ==> exists i :: 0 <= i < |r| && r[i].0 == k
    ensures forall i, j :: 0 <= i < j < |r| ==> r[i].0 != r[j].0
    ensures forall i, j :: 0 <= i < j < |r| ==> r[i].1.createdAt >= r[j].1.createdAt
  {
    var r := Listing.Ordered(products, ProductCreatedAt);
    Listing.RanksNonIncreasing(r, ProductCreatedAt);
    r
  }

  /** getProductById: the stored product, or NotFound. */
  function GetProductById(products: map<Id, Product>, id: Id): (r: Response<Product>)
    ensures r.Ok? <==> id in products
    ensures r.Ok? ==> r.value == products[id]
    ensures r.Fail? ==> r == Fail(NotFound, "Product not found")
  {
    if id in products then Ok(products[id]) else Fail(NotFound, "Product not found")
  }

  /** The product after an update as the handler writes it: the name goes to `productName`,
      a path the schema does not have, so the stored name is kept. */
  function UpdatedProduct(p: Product, body: ProductInput): Product
  {
    p.(description := body.description, price := body.price, stockId := body.stockId)
  }

  /** The product after an update that writes the name to `name`, as `createProduct` does. */
  function IntendedUpdatedProduct(p: Product, body: ProductInput): (q: Product)
    ensures q == Product(body.name, body.description, body.price, body.stockId, p.createdAt)
  {
    p.(name := body.name, description := body.description, price := body.price, stockId := body.stockId)
  }

  /** The update as written and the intended one differ exactly when the body renames the product. */
  lemma UpdateDropsRename(p: Product, body: ProductInput)
    ensures UpdatedProduct(p, body) == IntendedUpdatedProduct(p, body) <==> body.name == p.name
    ensures UpdatedProduct(p, body).name == p.name
  {
    if body.name != p.name {
      assert UpdatedProduct(p, body).name != IntendedUpdatedProduct(p, body).name;
    }
  }

  /** A concrete rename that the handler as written loses. */
  lemma RenameIsLost()
    ensures var p := Product("Pen", "blue", 3, 0, 0);
      var body := ProductInput("Marker", "blue", 3, 0);
      UpdatedProduct(p, body).name == "Pen" && IntendedUpdatedProduct(p, body).name == "Marker"
  {
  }

  /** createProduct: the stock must exist; then one product is stored and answered. */
  method CreateProduct(db: Database, body: ProductInput, now: Timestamp) returns (r: Response<(Id, Product)>)
    requires db.Valid()
    modifies db
    ensures db.Valid()
    ensures body.stockId !in old(db.stocks) ==> r == Fail(NotFound, "Stock not found") && db.products == old(db.products)
    ensures body.stockId in old(db.stocks) ==>
      && r.Ok?
      && r.value.1 == Product(body.name, body.description, body.price, body.stockId, now)
      && r.value.0 !in old(db.products)
      && db.products == old(db.products)[r.value.0 := r.value.1]
    ensures r.Ok? ==> GetProductById(db.products, r.value.0) == Ok(r.value.1)
    ensures db.suppliers == old(db.suppliers) && db.stocks == old(db.stocks) && db.orders == old(db.orders)
  {
    if body.stockId !in db.stocks {
      return Fail(NotFound, "Stock not found");
    }
    var id := db.NewId();
    var product := Product(body.name, body.description, body.price, body.stockId, now);
    db.products := db.products[id := product];
    r := Ok((id, product));
  }

  /** updateProduct: the product is looked up first, then the new stock; the stored name is not changed. */
  method UpdateProduct(db: Database, id: Id, body: ProductInput) returns (r: Response<Product>)
    requires db.Valid()
    modifies db
    ensures db.Valid()
    ensures id !in old(db.products) ==> r == Fail(NotFound, "Product not found") && db.products == old(db.products)
    ensures id in old(db.products) && body.stockId !in old(db.stocks) ==>
      r == Fail(NotFound, "Stock not found") && db.products == old(db.products)
    ensures id in old(db.products) && body.stockId in old(db.stocks) ==>
      && r == Ok(UpdatedProduct(old(db.products)[id], body))
      && db.products == old(db.products)[id := r.value]
    ensures r.Ok? ==> GetProductById(db.products, id) == r && r.value.name == old(db.products)[id].name
    ensures db.suppliers == old(db.suppliers) && db.stocks == old(db.stocks) && db.orders == old(db.orders)
    ensures db.nextId == old(db.nextId)
  {
    if id !in db.products {
      return Fail(NotFound, "Product not found");
    }
    if body.stockId !in db.stocks {
      return Fail(NotFound, "Stock not found");
    }
    var updated := UpdatedProduct(db.products[id], body);
    db.products := db.products[id := updated];
    r := Ok(updated);
  }

  /** deleteProduct: removes the one product; its stock is left as it is. */
  method DeleteProduct(db: Database, id: Id) returns (r: Response<()>)
    requires db.Valid()
    modifies db
    ensures db.Valid()
    ensures id !in old(db.products) ==> r == Fail(NotFound, "Product not found") && db.products == old(db.products)
    ensures id in old(db.products) ==> r == Ok(()) && db.products == old(db.products) - {id}
    ensures GetProductById(db.products, id) == Fail(NotFound, "Product not found")
    ensures db.suppliers == old(db.suppliers) && db.stocks == old(db.stocks) && db.orders == old(db.orders)
    ensures db.nextId == old(db.nextId)
  {
    if id !in db.products {
      return Fail(NotFound, "Product not found");
    }
    db.products := db.products - {id};
    r := Ok(());
  }
}
