/**
 * The product endpoints of the inventory service: create (with its stock
 * row), list, get, partial update and delete. Delete is refused while any
 * order item names the product; otherwise the stock row goes with it.
 */
module Products {
  import opened Common
  import opened InventoryModels
  import opened OrderModels

  /** The create body; `safety_stock` and `stock` default to 0 when absent. */
  datatype ProductCreate = ProductCreate(sku: string, name: string, price: int,
                                         safetyStock: Option<int>, stock: Option<int>)

  /** The update body: an absent field is left as it is. There is no SKU and no stock. */
  datatype ProductUpdate = ProductUpdate(name: Option<string>, price: Option<int>, safetyStock: Option<int>)

  datatype ProductOut = ProductOut(id: int, sku: string, name: string, price: int, safetyStock: int, stock: int)

  /** `create_product`: an SKU already in use is 409 and changes nothing; otherwise one
      product row and its stock row are added under a fresh id, and the list cache entry
      is dropped. SKUs stay unique. */
  method CreateProduct(db: InventoryDb, body: ProductCreate) returns (r: Outcome<ProductOut>)
    requires db.Valid()
    modifies db
    ensures db.Valid()
    ensures SkuTaken(old(db.products), body.sku) ==>
              && r == Fail(409) && db.products == old(db.products) && db.stock == old(db.stock)
              && db.nextId == old(db.nextId) && db.dropped == old(db.dropped)
    ensures !SkuTaken(old(db.products), body.sku) ==>
              var id := old(db.nextId);
              var safety := body.safetyStock.GetOr(0);
              var stock := body.stock.GetOr(0);
              && id !in old(db.products)
              && r == Ok(ProductOut(id, body.sku, body.name, body.price, safety, stock))
              && db.products == old(db.products)[id := Product(body.sku, body.name, body.price, safety)]
              && db.stock == old(db.stock)[id := stock]
              && db.dropped == old(db.dropped) + {ProductsList}
    ensures db.published == old(db.published)
  {
    if SkuTaken(db.products, body.sku) {
      return Fail(409);
    }
    var id := db.nextId;
    var p := Product(body.sku, body.name, body.price, body.safetyStock.GetOr(0));
    db.products := db.products[id := p];
    db.nextId := db.nextId + 1;
    db.stock := db.stock[id := body.stock.GetOr(0)];
    db.dropped := db.dropped + {ProductsList};
    r := Ok(ProductOut(id, p.sku, p.name, p.price, p.safetyStock, db.stock[id]));
  }

  /** `list_products` read from the tables: one record per product joined with its stock row. */
  function ListProducts(db: InventoryDb): (r: map<int, ProductOut>)
    reads db
    ensures r.Keys == db.products.Keys * db.stock.Keys
    ensures forall id :: id in r ==>
      && r[id].id == id && r[id].stock == db.stock[id]
      && r[id].sku == db.products[id].sku && r[id].name == db.products[id].name
      && r[id].price == db.products[id].price && r[id].safetyStock == db.products[id].safetyStock
  {
    map id | id in db.products.Keys * db.stock.Keys ::
      var p := db.products[id];
      ProductOut(id, p.sku, p.name, p.price, p.safetyStock, db.stock[id])
  }

  /** `get_product`: the listed record of that product, or 404 when it is not listed. */
  function GetProduct(db: InventoryDb, productId: int): (r: Outcome<ProductOut>)
    reads db
    ensures r == if productId in ListProducts(db) then Ok(ListProducts(db)[productId]) else Fail(404)
  {
    if productId in db.products && productId in db.stock then
      var p := db.products[productId];
      Ok(ProductOut(productId, p.sku, p.name, p.price, p.safetyStock, db.stock[productId]))
    else Fail(404)
  }

  /** The product after a partial update: supplied fields replace, absent ones stay. */
  function Updated(p: Product, body: ProductUpdate): Product {
    p.(name := body.name.GetOr(p.name), price := body.price.GetOr(p.price),
       safetyStock := body.safetyStock.GetOr(p.safetyStock))
  }

  /** An update changes exactly the supplied fields and never the SKU. */
  lemma UpdatedChangesOnlySupplied(p: Product, body: ProductUpdate)
    ensures Updated(p, body).sku == p.sku
    ensures body.name.None? ==> Updated(p, body).name == p.name
    ensures body.name.Some? ==> Updated(p, body).name == body.name.value
    ensures body.price.None? ==> Updated(p, body).price == p.price
    ensures body.price.Some? ==> Updated(p, body).price == body.price.value
    ensures body.safetyStock.None? ==> Updated(p, body).safetyStock == p.safetyStock
    ensures body.safetyStock.Some? ==> Updated(p, body).safetyStock == body.safetyStock.value
    ensures body == ProductUpdate(None, None, None) ==> Updated(p, body) == p
  {
  }

  /** `update_product`: a missing product is 404 and changes nothing. Otherwise the supplied
      fields are committed and both cache entries dropped; the stock row is read only for
      the answer, so a product without one fails (500) after the commit. */
  method UpdateProduct(db: InventoryDb, productId: int, body: ProductUpdate) returns (r: Outcome<ProductOut>)
    modifies db
    ensures productId !in old(db.products) ==>
              r == Fail(404) && db.products == old(db.products) && db.dropped == old(db.dropped)
    ensures productId in old(db.products) ==>
              var p := Updated(old(db.products)[productId], body);
              && db.products == old(db.products)[productId := p]
              && db.dropped == old(db.dropped) + {ProductsList, ProductEntry(productId)}
              && r == (if productId in db.stock
                       then Ok(ProductOut(productId, p.sku, p.name, p.price, p.safetyStock, db.stock[productId]))
                       else Fail(500))
    ensures db.stock == old(db.stock) && db.nextId == old(db.nextId) && db.published == old(db.published)
    ensures old(db.Valid()) ==> db.Valid()
  {
    if productId !in db.products {
      return Fail(404);
    }
    var p := Updated(db.products[productId], body);
    db.products := db.products[productId := p];
    db.dropped := db.dropped + {ProductsList, ProductEntry(productId)};
    if productId !in db.stock {
      return Fail(500);
    }
    r := Ok(ProductOut(productId, p.sku, p.name, p.price, p.safetyStock, db.stock[productId]));
  }

  /** `delete_product`: a missing product is 404; a product named by any order item is 409;
      both change nothing. Otherwise the product and its stock row are removed. */
  method DeleteProduct(db: InventoryDb, productId: int, orderItems: seq<OrderItem>) returns (r: Outcome<string>)
    modifies db
    ensures productId !in old(db.products) ==> r == Fail(404)
    ensures productId in old(db.products) && CountReferences(orderItems, productId) > 0 ==> r == Fail(409)
    ensures r.Fail? ==> db.products == old(db.products) && db.stock == old(db.stock) && db.dropped == old(db.dropped)
    ensures r.Ok? <==> productId in old(db.products) && forall it :: it in orderItems ==> it.productId != productId
    ensures r.Ok? ==>
              && db.products == old(db.products) - {productId}
              && db.stock == old(db.stock) - {productId}
              && db.dropped == old(db.dropped) + {ProductsList, ProductEntry(productId)}
    ensures db.nextId == old(db.nextId) && db.published == old(db.published)
    ensures old(db.Valid()) ==> db.Valid()
  {
    if productId !in db.products {
      return Fail(404);
    }
    var references := CountReferences(orderItems, productId);
    if references > 0 {
      return Fail(409);
    }
    db.products := db.products - {productId};
    db.stock := db.stock - {productId};
    db.dropped := db.dropped + {ProductsList, ProductEntry(productId)};
    r := Ok("Product deleted successfully");
  }
}
