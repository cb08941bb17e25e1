/**
 * The stock endpoints of the inventory service: adjust by a signed amount,
 * read one product's stock, list all stock, list the low-stock products and
 * set an absolute stock. A product is low on stock when its stock is at most
 * its safety stock.
 */
module Stock {
  import opened Common
  import opened InventoryModels
  import opened Seqs

  datatype StockInfo = StockInfo(productId: int, sku: string, name: string,
                                 currentStock: int, safetyStock: int, isLowStock: bool)

  /** What an adjustment does to the `inventory` table: the new table, or the HTTP code.
      Only the target's row changes, and it never goes below zero. */
  function Adjust(products: map<int, Product>, stock: map<int, int>, productId: int, adjustment: int)
    : (r: Outcome<map<int, int>>)
    ensures r.Fail? <==> productId !in products || productId !in stock || stock[productId] + adjustment < 0
    ensures r.Fail? ==> r.code == (if productId !in products || productId !in stock then 404 else 400)
    ensures r.Ok? ==> r.value.Keys == stock.Keys
    ensures r.Ok? ==> r.value[productId] == stock[productId] + adjustment >= 0
    ensures r.Ok? ==> forall q :: q in stock && q != productId ==> r.value[q] == stock[q]
  {
    if productId !in products then Fail(404)
    else if productId !in stock then Fail(404)
    else if stock[productId] + adjustment < 0 then Fail(400)
    else Ok(stock[productId := stock[productId] + adjustment])
  }

  /** Every stock row is non-negative. */
  ghost predicate NonNegative(stock: map<int, int>) {
    forall q :: q in stock ==> stock[q] >= 0
  }

  /** An adjustment keeps the table non-negative, whatever its outcome. */
  lemma AdjustKeepsNonNegative(products: map<int, Product>, stock: map<int, int>, productId: int, adjustment: int)
    requires NonNegative(stock)
    ensures var r := Adjust(products, stock, productId, adjustment);
            r.Ok? ==> NonNegative(r.value)
  {
  }

  /** On a non-negative table, two adjustments of opposite sign on the same row cancel out. */
  lemma AdjustUndo(products: map<int, Product>, stock: map<int, int>, productId: int, adjustment: int)
    requires NonNegative(stock)
    requires Adjust(products, stock, productId, adjustment).Ok?
    ensures Adjust(products, Adjust(products, stock, productId, adjustment).value, productId, -adjustment) == Ok(stock)
  {
    var t := Adjust(products, stock, productId, adjustment).value;
    assert t[productId := t[productId] - adjustment] == stock;
  }

  /** The messages one adjustment publishes: a low-stock alert when it is applied and the new
      stock is at or below the safety stock, and nothing else. The stock-change message is
      built from `inventory.updated_at`, a column the `inventory` table does not have; the
      error that raises is swallowed before the message is sent. */
  function AdjustEvents(products: map<int, Product>, stock: map<int, int>, productId: int, adjustment: int)
    : (r: seq<Message>)
    ensures var a := Adjust(products, stock, productId, adjustment);
      && (r == [] <==> a.Fail? || a.value[productId] > products[productId].safetyStock)
      && (r != [] ==> var p := products[productId];
                      r == [LowStock(Alert(productId, p.sku, p.name, a.value[productId], p.safetyStock))])
  {
    match Adjust(products, stock, productId, adjustment)
    case Fail(_) => []
    case Ok(t) =>
      var p := products[productId];
      var n := t[productId];
      if n <= p.safetyStock then [LowStock(Alert(productId, p.sku, p.name, n, p.safetyStock))] else []
  }

  /** An adjustment never publishes a stock change. */
  lemma AdjustPublishesNoChange(products: map<int, Product>, stock: map<int, int>, productId: int, adjustment: int)
    ensures Filter(IsChange, AdjustEvents(products, stock, productId, adjustment)) == []
  {
    var e := AdjustEvents(products, stock, productId, adjustment);
    if e != [] {
      FilterAppend(IsChange, [], e);
    }
  }

  /** The messages an adjustment evidently means to publish: those above, then the stock
      change with the old and new level. */
  function IntendedAdjustEvents(products: map<int, Product>, stock: map<int, int>, productId: int,
                                adjustment: int): (r: seq<Message>)
    ensures var a := Adjust(products, stock, productId, adjustment);
      && (r == [] <==> a.Fail?)
      && (a.Ok? ==> var p := products[productId];
                    var n := a.value[productId];
                    r == AdjustEvents(products, stock, productId, adjustment)
                         + [StockChange(productId, p.sku, p.name, stock[productId], n, adjustment,
                                        n <= p.safetyStock)])
  {
    match Adjust(products, stock, productId, adjustment)
    case Fail(_) => []
    case Ok(t) =>
      var p := products[productId];
      var n := t[productId];
      AdjustEvents(products, stock, productId, adjustment)
      + [StockChange(productId, p.sku, p.name, stock[productId], n, adjustment, n <= p.safetyStock)]
  }

  /** The intended messages hold exactly one stock change per applied adjustment, and it
      reports the old level, the new level and their difference. */
  lemma IntendedAdjustEventsChanges(products: map<int, Product>, stock: map<int, int>, productId: int,
                                    adjustment: int)
    ensures var changes := Filter(IsChange, IntendedAdjustEvents(products, stock, productId, adjustment));
      && |changes| == (if Adjust(products, stock, productId, adjustment).Ok? then 1 else 0)
      && forall k :: 0 <= k < |changes| ==>
           changes[k].StockChange? && changes[k].productId == productId && changes[k].adjustment == adjustment
           && changes[k].oldStock + adjustment == changes[k].newStock
  {
    var a := Adjust(products, stock, productId, adjustment);
    if a.Ok? {
      var e := AdjustEvents(products, stock, productId, adjustment);
      var p := products[productId];
      var n := a.value[productId];
      var c := StockChange(productId, p.sku, p.name, stock[productId], n, adjustment, n <= p.safetyStock);
      FilterAppend(IsChange, e, [c]);
      AdjustPublishesNoChange(products, stock, productId, adjustment);
      assert Filter(IsChange, [c]) == [c];
    }
  }

  /** A product at stock 5 adjusted by +1: the handler publishes nothing, where the intended
      messages are the stock change from 5 to 6. */
  lemma StockChangeLost()
    ensures var products := map[1 := Product("A-1", "Widget", 1000, 0)];
            var stock := map[1 := 5];
      && AdjustEvents(products, stock, 1, 1) == []
      && IntendedAdjustEvents(products, stock, 1, 1) == [StockChange(1, "A-1", "Widget", 5, 6, 1, false)]
  {
    var products := map[1 := Product("A-1", "Widget", 1000, 0)];
    var stock := map[1 := 5];
    assert Adjust(products, stock, 1, 1).Ok? && Adjust(products, stock, 1, 1).value[1] == 6;
  }

  /** The cache keys one adjustment drops: none when it is refused, otherwise the product
      list and the product's entry. */
  function AdjustDropped(products: map<int, Product>, stock: map<int, int>, productId: int, adjustment: int)
    : (r: set<CacheKey>)
    ensures r == {} <==> Adjust(products, stock, productId, adjustment).Fail?
  {
    if Adjust(products, stock, productId, adjustment).Ok? then {ProductsList, ProductEntry(productId)} else {}
  }

  /** `adjust_stock`: a missing product or stock row is 404, a result below zero is 400,
      and neither changes anything. On success the row holds old stock + adjustment, the
      answer reports the low-stock flag, a low stock publishes its alert (the stock change
      is never sent, see `AdjustEvents`), and the list and product cache entries are
      dropped. */
  method AdjustStock(db: InventoryDb, productId: int, adjustment: int) returns (r: Outcome<StockInfo>)
    modifies db
    ensures var a := Adjust(old(db.products), old(db.stock), productId, adjustment);
      && (a.Fail? ==> r == Fail(a.code) && db.stock == old(db.stock)
                      && db.dropped == old(db.dropped) && db.published == old(db.published))
      && (a.Ok? ==>
            var p := old(db.products)[productId];
            var n := a.value[productId];
            var low := n <= p.safetyStock;
            && db.stock == a.value
            && r == Ok(StockInfo(productId, p.sku, p.name, n, p.safetyStock, low))
            && db.published == old(db.published)
                 + (if low then [LowStock(Alert(productId, p.sku, p.name, n, p.safetyStock))] else [])
            && db.dropped == old(db.dropped) + {ProductsList, ProductEntry(productId)})
    ensures db.published == old(db.published) + AdjustEvents(old(db.products), old(db.stock), productId, adjustment)
    ensures db.dropped == old(db.dropped) + AdjustDropped(old(db.products), old(db.stock), productId, adjustment)
    ensures db.products == old(db.products) && db.nextId == old(db.nextId)
    ensures old(db.Valid()) ==> db.Valid()
  {
    if productId !in db.products {
      return Fail(404);
    }
    var product := db.products[productId];
    if productId !in db.stock {
      return Fail(404);
    }
    var newStock := db.stock[productId] + adjustment;
    if newStock < 0 {
      return Fail(400);
    }
    db.stock := db.stock[productId := newStock];
    var isLowStock := newStock <= product.safetyStock;
    if isLowStock {
      db.published := db.published + [LowStock(Alert(productId, product.sku, product.name, newStock, product.safetyStock))];
    }
    db.dropped := db.dropped + {ProductsList, ProductEntry(productId)};
    r := Ok(StockInfo(productId, product.sku, product.name, db.stock[productId], product.safetyStock, isLowStock));
  }

  /** `get_stock`: 404 without a stock row; a stock row whose product is gone fails
      inside the handler (500). */
  function GetStock(db: InventoryDb, productId: int): (r: Outcome<StockInfo>)
    reads db
    ensures r.Fail? <==> productId !in db.stock || productId !in db.products
    ensures r.Fail? ==> r.code == (if productId !in db.stock then 404 else 500)
    ensures r.Ok? ==> r.value.productId == productId && r.value.currentStock == db.stock[productId]
    ensures r.Ok? ==> (r.value.isLowStock <==> db.stock[productId] <= db.products[productId].safetyStock)
  {
    if productId !in db.stock then Fail(404)
    else if productId !in db.products then Fail(500)
    else
      var p := db.products[productId];
      Ok(StockInfo(productId, p.sku, p.name, db.stock[productId], p.safetyStock, db.stock[productId] <= p.safetyStock))
  }

  /** `list_all_stock`: one entry per product joined with its stock row, each the answer
      `get_stock` gives for that product. */
  function ListAllStock(db: InventoryDb): (r: map<int, StockInfo>)
    reads db
    ensures r.Keys == db.products.Keys * db.stock.Keys
    ensures forall id :: id in r ==> GetStock(db, id) == Ok(r[id])
  {
    map id | id in db.products.Keys * db.stock.Keys ::
      var p := db.products[id];
      StockInfo(id, p.sku, p.name, db.stock[id], p.safetyStock, db.stock[id] <= p.safetyStock)
  }

  /** `get_low_stock_products`: exactly the joined products whose stock is at most their
      safety stock, i.e. the entries `list_all_stock` flags as low. */
  function GetLowStockProducts(db: InventoryDb): (r: map<int, Alert>)
    reads db
    ensures forall id :: id in r <==> id in db.products && id in db.stock && db.stock[id] <= db.products[id].safetyStock
    ensures forall id :: id in r <==> id in ListAllStock(db) && ListAllStock(db)[id].isLowStock
    ensures forall id :: id in r ==>
      var s := ListAllStock(db)[id];
      r[id] == Alert(id, s.sku, s.name, s.currentStock, s.safetyStock)
  {
    map id | id in db.products.Keys * db.stock.Keys && db.stock[id] <= db.products[id].safetyStock ::
      var p := db.products[id];
      Alert(id, p.sku, p.name, db.stock[id], p.safetyStock)
  }

  /** `set_stock`: a negative value is refused (400) before any lookup, a missing stock
      row is 404; otherwise the row holds `value`. The product is read only after the
      commit, so a stock row without its product fails (500) with the new value stored. */
  method SetStock(db: InventoryDb, productId: int, value: int) returns (r: Outcome<string>)
    modifies db
    ensures value < 0 ==> r == Fail(400)
    ensures value >= 0 && productId !in old(db.stock) ==> r == Fail(404)
    ensures value < 0 || productId !in old(db.stock) ==>
              db.stock == old(db.stock) && db.dropped == old(db.dropped) && db.published == old(db.published)
    ensures value >= 0 && productId in old(db.stock) ==> db.stock == old(db.stock)[productId := value]
    ensures value >= 0 && productId in old(db.stock) && productId !in db.products ==>
              r == Fail(500) && db.dropped == old(db.dropped) && db.published == old(db.published)
    ensures value >= 0 && productId in old(db.stock) && productId in db.products ==>
              var p := db.products[productId];
              && r == Ok("Stock set to " + IntToString(value) + " successfully")
              && db.published == old(db.published)
                   + (if value <= p.safetyStock then [LowStock(Alert(productId, p.sku, p.name, value, p.safetyStock))] else [])
              && db.dropped == old(db.dropped) + {ProductsList, ProductEntry(productId)}
    ensures db.products == old(db.products) && db.nextId == old(db.nextId)
    ensures old(db.Valid()) ==> db.Valid()
    ensures NonNegative(old(db.stock)) ==> NonNegative(db.stock)
  {
    if value < 0 {
      return Fail(400);
    }
    if productId !in db.stock {
      return Fail(404);
    }
    db.stock := db.stock[productId := value];
    if productId !in db.products {
      return Fail(500);
    }
    var product := db.products[productId];
    if value <= product.safetyStock {
      db.published := db.published + [LowStock(Alert(productId, product.sku, product.name, value, product.safetyStock))];
    }
    db.dropped := db.dropped + {ProductsList, ProductEntry(productId)};
    r := Ok("Stock set to " + IntToString(value) + " successfully");
  }
}
