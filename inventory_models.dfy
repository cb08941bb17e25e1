/**
 * The inventory service's tables, `products` and `inventory` (one stock row
 * per product, deleted with it by the foreign key's ON DELETE CASCADE), held
 * by one session object. Redis is kept only as a record of what the handlers
 * tell it: the cache keys they delete and the messages they publish.
 */
module InventoryModels {

  /** One row of `products`; the id is the key it is stored under. */
  datatype Product = Product(sku: string, name: string, price: int, safetyStock: int)   // price in cents

  /** The cache entries the handlers invalidate: `products:list:v1` and `product:{id}:v1`. */
  datatype CacheKey = ProductsList | ProductEntry(id: int)

  /** A low-stock alert, as listed by `/low-stock` and as published. */
  datatype Alert = Alert(productId: int, sku: string, name: string, currentStock: int, safetyStock: int)

  /** The messages of the Redis channels. A stock change is built by `adjust_stock` but never
      reaches its channel (see `Stock.AdjustEvents`); it is what `Stock.IntendedAdjustEvents`
      publishes. */
  datatype Message =
    | LowStock(alert: Alert)
    | StockChange(productId: int, sku: string, name: string, oldStock: int, newStock: int,
                  adjustment: int, isLowStock: bool)

  /** A stock-change message. */
  predicate IsChange(m: Message) {
    m.StockChange?
  }

  class InventoryDb {
    var products: map<int, Product>
    var stock: map<int, int>          // the `inventory` table: product id -> stock
    var nextId: int                   // the next auto-increment product id
    ghost var dropped: set<CacheKey>  // cache keys deleted so far
    ghost var published: seq<Message> // messages published so far

    /** Each product has its stock row, ids are below the next one, and SKUs are unique. */
    ghost predicate Valid()
      reads this
    {
      && stock.Keys == products.Keys
      && (forall id :: id in products ==> id < nextId)
      && UniqueSkus(products)
    }

    constructor ()
      ensures Valid() && products == map[] && stock == map[] && dropped == {} && published == []
    {
      products := map[];
      stock := map[];
      nextId := 1;
      dropped := {};
      published := [];
    }
  }

  /** The `unique=True` constraint on `products.sku`. */
  ghost predicate UniqueSkus(products: map<int, Product>) {
    forall a, b :: a in products && b in products && a != b ==> products[a].sku != products[b].sku
  }

  /** Whether some product already carries `sku` (`filter_by(sku=...).first()`). */
  predicate SkuTaken(products: map<int, Product>, sku: string) {
    exists id :: id in products && products[id].sku == sku
  }
}
