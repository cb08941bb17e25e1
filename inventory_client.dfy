/**
 * How the order service uses the inventory service: check one product's
 * stock, read its product record, reserve (adjust by -qty) and release
 * (adjust by +qty). The calls go straight to the inventory handlers; the
 * HTTP transport between the services is not part of this model.
 *
 * The second half describes the loops the order handlers run over a list of
 * items, as functions of the inventory tables: the check pass, the order
 * total, a run of reservations that stops at the first failure, and a run of
 * releases that swallows failures.
 */
module InventoryClient {
  import opened Common
  import opened InventoryModels
  import opened Stock
  import opened Seqs
  import Products

  /** One requested line: a product and a quantity. */
  datatype ItemIn = ItemIn(productId: int, qty: int)

  /** The request body validation: every quantity is positive (`conint(gt=0)`). */
  predicate Positive(items: seq<ItemIn>) {
    forall i :: 0 <= i < |items| ==> items[i].qty > 0
  }

  /** The failure of `check_stock` for one item, as a function of the tables:
      404 without a stock row, 500 for a stock row without its product (the inventory
      handler's own failure, passed on), 409 when the stock is below the quantity. */
  function CheckCode(products: map<int, Product>, stock: map<int, int>, it: ItemIn): (r: Option<int>)
    ensures r.None? <==> it.productId in products && it.productId in stock && stock[it.productId] >= it.qty
    ensures r.Some? ==> r.value == 404 || r.value == 409 || r.value == 500
    ensures r == Some(404) <==> it.productId !in stock
  {
    if it.productId !in stock then Some(404)
    else if it.productId !in products then Some(500)
    else if stock[it.productId] < it.qty then Some(409)
    else None
  }

  /** `check_stock`: the stock record when at least `qty` is on hand, or the failure code. */
  function CheckStock(db: InventoryDb, productId: int, qty: int): (r: Outcome<StockInfo>)
    reads db
    ensures r.Fail? <==> CheckCode(db.products, db.stock, ItemIn(productId, qty)).Some?
    ensures r.Fail? ==> r.code == CheckCode(db.products, db.stock, ItemIn(productId, qty)).value
    ensures r.Ok? ==> r.value.currentStock == db.stock[productId] >= qty
  {
    match GetStock(db, productId)
    // The client re-raises a 404 under its own message; the code itself is kept.
    case Fail(code) => Fail(code)
    case Ok(info) => if info.currentStock < qty then Fail(409) else Ok(info)
  }

  /** `get_product_info`: the product record, or 404 when the product is not listed. */
  function GetProductInfo(db: InventoryDb, productId: int): (r: Outcome<Products.ProductOut>)
    reads db
    ensures r.Ok? <==> productId in db.products && productId in db.stock
    ensures r.Fail? ==> r.code == 404
    ensures r.Ok? ==> r.value.price == db.products[productId].price && r.value.name == db.products[productId].name
                      && r.value.sku == db.products[productId].sku
  {
    match Products.GetProduct(db, productId)
    // As in `CheckStock`, a 404 is re-raised under the client's own message.
    case Fail(code) => Fail(code)
    case Ok(p) => Ok(p)
  }

  /** The code `reserve_stock` answers for a failed adjustment: an adjustment below
      zero (400) is reported as a conflict (409). */
  function ReserveCode(code: int): (r: int)
    ensures code == 400 ==> r == 409
    ensures code != 400 ==> r == code
  {
    if code == 404 then 404 else if code == 400 then 409 else code
  }

  /** `reserve_stock`: adjust by -qty, publishing and dropping what that adjustment does. */
  method ReserveStock(inv: InventoryDb, productId: int, qty: int) returns (r: Outcome<StockInfo>)
    modifies inv
    ensures var a := Adjust(old(inv.products), old(inv.stock), productId, -qty);
      && (a.Fail? ==> r == Fail(ReserveCode(a.code)) && inv.stock == old(inv.stock))
      && (a.Ok? ==>
            var p := old(inv.products)[productId];
            var n := a.value[productId];
            var low := n <= p.safetyStock;
            && inv.stock == a.value
            && r == Ok(StockInfo(productId, p.sku, p.name, n, p.safetyStock, low)))
    ensures inv.published == old(inv.published) + AdjustEvents(old(inv.products), old(inv.stock), productId, -qty)
    ensures inv.dropped == old(inv.dropped) + AdjustDropped(old(inv.products), old(inv.stock), productId, -qty)
    ensures inv.products == old(inv.products) && inv.nextId == old(inv.nextId)
    ensures old(inv.Valid()) ==> inv.Valid()
  {
    var res := AdjustStock(inv, productId, -qty);
    match res
    case Ok(info) => r := Ok(info);
    case Fail(code) => r := Fail(ReserveCode(code));
  }

  /** `release_stock`: adjust by +qty, publishing and dropping what that adjustment does;
      failures keep the inventory handler's code. */
  method ReleaseStock(inv: InventoryDb, productId: int, qty: int) returns (r: Outcome<StockInfo>)
    modifies inv
    ensures var a := Adjust(old(inv.products), old(inv.stock), productId, qty);
      && (a.Fail? ==> r == Fail(a.code) && inv.stock == old(inv.stock))
      && (a.Ok? ==>
            var p := old(inv.products)[productId];
            var n := a.value[productId];
            var low := n <= p.safetyStock;
            && inv.stock == a.value
            && r == Ok(StockInfo(productId, p.sku, p.name, n, p.safetyStock, low)))
    ensures inv.published == old(inv.published) + AdjustEvents(old(inv.products), old(inv.stock), productId, qty)
    ensures inv.dropped == old(inv.dropped) + AdjustDropped(old(inv.products), old(inv.stock), productId, qty)
    ensures inv.products == old(inv.products) && inv.nextId == old(inv.nextId)
    ensures old(inv.Valid()) ==> inv.Valid()
  {
    r := AdjustStock(inv, productId, qty);
  }

  // ---------------------------------------------------------------------------
  // Runs over a list of items

  /** The first failing check of a list of items, in list order. */
  function FirstCheckFailure(products: map<int, Product>, stock: map<int, int>, items: seq<ItemIn>)
    : (r: Option<int>)
    ensures r.None? <==> forall i :: 0 <= i < |items| ==> CheckCode(products, stock, items[i]).None?
  {
    if items == [] then None
    else if CheckCode(products, stock, items[0]).Some? then CheckCode(products, stock, items[0])
    else FirstCheckFailure(products, stock, items[1..])
  }

  /** The first failure is the code of the first item that fails. */
  lemma {:induction false} FirstCheckFailureAt(products: map<int, Product>, stock: map<int, int>,
                                               items: seq<ItemIn>, i: int)
    requires 0 <= i < |items| && CheckCode(products, stock, items[i]).Some?
    requires forall j :: 0 <= j < i ==> CheckCode(products, stock, items[j]).None?
    ensures FirstCheckFailure(products, stock, items) == CheckCode(products, stock, items[i])
  {
    if i > 0 {
      FirstCheckFailureAt(products, stock, items[1..], i - 1);
    }
  }

  /** The listed price of a product (only read for products the check found). */
  function Price(products: map<int, Product>, productId: int): int {
    if productId in products then products[productId].price else 0
  }

  /** The order total: the sum of price * qty over the items, at the listed prices. */
  function Total(products: map<int, Product>, items: seq<ItemIn>): int {
    if items == [] then 0
    else
      var it := items[|items| - 1];
      Total(products, items[..|items| - 1]) + Price(products, it.productId) * it.qty
  }

  /** How much of `productId` the items ask for altogether. */
  function QtyOf(items: seq<ItemIn>, productId: int): (n: int)
    ensures Positive(items) ==> n >= 0
  {
    if items == [] then 0
    else
      var it := items[|items| - 1];
      QtyOf(items[..|items| - 1], productId) + (if it.productId == productId then it.qty else 0)
  }

  /** Where a run of adjustments stopped: the table reached, the failure code of the
      adjustment that failed (if one did) and how many adjustments were applied. */
  datatype Run = Run(stock: map<int, int>, failure: Option<int>, done: nat)

  /** Adjust every item in turn (by +qty to release, by -qty to reserve), stopping at
      the first adjustment the inventory handler refuses. */
  function AdjustRun(products: map<int, Product>, stock: map<int, int>, items: seq<ItemIn>, release: bool)
    : (r: Run)
    ensures r.done <= |items|
    ensures r.failure.None? <==> r.done == |items|
    decreases |items|
  {
    if items == [] then Run(stock, None, 0)
    else
      var r := AdjustRun(products, stock, items[..|items| - 1], release);
      if r.failure.Some? then r
      else
        var it := items[|items| - 1];
        match Adjust(products, r.stock, it.productId, if release then it.qty else -it.qty)
        case Fail(code) => r.(failure := Some(code))
        case Ok(t) => Run(t, None, r.done + 1)
  }

  /** The messages a run publishes: those of each adjustment it applied, in order. */
  function RunEvents(products: map<int, Product>, stock: map<int, int>, items: seq<ItemIn>, release: bool)
    : seq<Message>
    decreases |items|
  {
    if items == [] then []
    else
      var prefix := items[..|items| - 1];
      var r := AdjustRun(products, stock, prefix, release);
      var it := items[|items| - 1];
      RunEvents(products, stock, prefix, release)
      + (if r.failure.Some? then []
         else AdjustEvents(products, r.stock, it.productId, if release then it.qty else -it.qty))
  }

  /** The cache keys a run drops: those of each adjustment it applied. */
  function RunDropped(products: map<int, Product>, stock: map<int, int>, items: seq<ItemIn>, release: bool)
    : set<CacheKey>
    decreases |items|
  {
    if items == [] then {}
    else
      var prefix := items[..|items| - 1];
      var r := AdjustRun(products, stock, prefix, release);
      var it := items[|items| - 1];
      RunDropped(products, stock, prefix, release)
      + (if r.failure.Some? then {}
         else AdjustDropped(products, r.stock, it.productId, if release then it.qty else -it.qty))
  }

  /** The last step of a run over the first `i + 1` items, when the first `i` ran without a
      refusal to the table `st`: the run's messages grow by that item's adjustment. */
  lemma {:induction false} RunEventsLast(products: map<int, Product>, stock: map<int, int>, items: seq<ItemIn>,
                                         release: bool, i: int, st: map<int, int>)
    requires 0 <= i < |items|
    requires AdjustRun(products, stock, items[..i], release) == Run(st, None, i)
    ensures RunEvents(products, stock, items[..i + 1], release)
            == RunEvents(products, stock, items[..i], release)
               + AdjustEvents(products, st, items[i].productId, if release then items[i].qty else -items[i].qty)
  {
    PrefixOfNext(items, i);
  }

  /** The last step of a run over the first `i + 1` items, when the first `i` ran without a
      refusal to the table `st`: the run's dropped keys grow by that item's adjustment. */
  lemma {:induction false} RunDroppedLast(products: map<int, Product>, stock: map<int, int>, items: seq<ItemIn>,
                                          release: bool, i: int, st: map<int, int>)
    requires 0 <= i < |items|
    requires AdjustRun(products, stock, items[..i], release) == Run(st, None, i)
    ensures RunDropped(products, stock, items[..i + 1], release)
            == RunDropped(products, stock, items[..i], release)
               + AdjustDropped(products, st, items[i].productId, if release then items[i].qty else -items[i].qty)
  {
    PrefixOfNext(items, i);
  }

  /** One step of a run whose prefix of `i` items ran without a refusal to the table `st`:
      the item's adjustment either extends the run or ends it with that refusal. */
  lemma {:induction false} RunNext(products: map<int, Product>, stock: map<int, int>, items: seq<ItemIn>, release: bool,
                i: int, st: map<int, int>)
    requires 0 <= i < |items|
    requires AdjustRun(products, stock, items[..i], release) == Run(st, None, i)
    ensures var it := items[i];
      var a := Adjust(products, st, it.productId, if release then it.qty else -it.qty);
      AdjustRun(products, stock, items[..i + 1], release)
      == (if a.Ok? then Run(a.value, None, i + 1) else Run(st, Some(a.code), i))
  {
    PrefixOfNext(items, i);
  }

  /** One step of a run loop, over the messages before and after the item's adjustment: from
      the invariant at `i`, the messages after that adjustment are those of the run over the
      first `i + 1` items. */
  lemma {:induction false} RunEventsStep(products: map<int, Product>, stock: map<int, int>, items: seq<ItemIn>, release: bool,
                      i: int, st: map<int, int>, pub0: seq<Message>, pub: seq<Message>)
    requires 0 <= i < |items|
    requires AdjustRun(products, stock, items[..i], release) == Run(st, None, i)
    requires pub == pub0 + RunEvents(products, stock, items[..i], release)
    ensures var it := items[i];
      pub + AdjustEvents(products, st, it.productId, if release then it.qty else -it.qty)
      == pub0 + RunEvents(products, stock, items[..i + 1], release)
  {
    RunEventsLast(products, stock, items, release, i, st);
    AppendExtends(pub0, pub, RunEvents(products, stock, items[..i], release),
                  AdjustEvents(products, st, items[i].productId, if release then items[i].qty else -items[i].qty));
  }

  /** One step of a run loop, over the dropped keys before and after the item's adjustment. */
  lemma {:induction false} RunDroppedStep(products: map<int, Product>, stock: map<int, int>, items: seq<ItemIn>, release: bool,
                       i: int, st: map<int, int>, dr0: set<CacheKey>, dr: set<CacheKey>)
    requires 0 <= i < |items|
    requires AdjustRun(products, stock, items[..i], release) == Run(st, None, i)
    requires dr == dr0 + RunDropped(products, stock, items[..i], release)
    ensures var it := items[i];
      dr + AdjustDropped(products, st, it.productId, if release then it.qty else -it.qty)
      == dr0 + RunDropped(products, stock, items[..i + 1], release)
  {
    RunDroppedLast(products, stock, items, release, i, st);
  }

  /** One step of a run loop, over the states before (`st`, `pub`, `dr`) and after (`st2`,
      `pub2`, `dr2`) the item's adjustment: from the invariant at `i`, either the invariant at
      `i + 1` or, after a refusal, the run's final state. */
  lemma {:induction false} RunAdvance(products: map<int, Product>, stock: map<int, int>, items: seq<ItemIn>, release: bool,
                   i: int, productId: int, amount: int, st: map<int, int>, st2: map<int, int>,
                   pub0: seq<Message>, pub: seq<Message>, pub2: seq<Message>,
                   dr0: set<CacheKey>, dr: set<CacheKey>, dr2: set<CacheKey>)
    requires 0 <= i < |items| && productId == items[i].productId
    requires amount == if release then items[i].qty else -items[i].qty
    requires AdjustRun(products, stock, items[..i], release) == Run(st, None, i)
    requires pub == pub0 + RunEvents(products, stock, items[..i], release)
    requires dr == dr0 + RunDropped(products, stock, items[..i], release)
    requires var a := Adjust(products, st, productId, amount);
      && (a.Fail? ==> st2 == st) && (a.Ok? ==> st2 == a.value)
    requires pub2 == pub + AdjustEvents(products, st, productId, amount)
    requires dr2 == dr + AdjustDropped(products, st, productId, amount)
    ensures var a := Adjust(products, st, productId, amount);
      AdjustRun(products, stock, items[..i + 1], release)
      == (if a.Ok? then Run(st2, None, i + 1) else Run(st2, Some(a.code), i))
    ensures pub2 == pub0 + RunEvents(products, stock, items[..i + 1], release)
    ensures dr2 == dr0 + RunDropped(products, stock, items[..i + 1], release)
  {
    RunEventsStep(products, stock, items, release, i, st, pub0, pub);
    RunDroppedStep(products, stock, items, release, i, st, dr0, dr);
    RunNext(products, stock, items, release, i, st);
  }

  /** A run over the lines never publishes a stock change. */
  lemma RunPublishesNoChange(products: map<int, Product>, stock: map<int, int>, items: seq<ItemIn>, release: bool)
    ensures Filter(IsChange, RunEvents(products, stock, items, release)) == []
  {
    RunEventsAllLow(products, stock, items, release);
    FilterNone(IsChange, RunEvents(products, stock, items, release));
  }

  /** Every message a run publishes is a low-stock alert. */
  lemma {:induction false} RunEventsAllLow(products: map<int, Product>, stock: map<int, int>, items: seq<ItemIn>,
                                           release: bool)
    ensures forall m | m in RunEvents(products, stock, items, release) :: m.LowStock?
    decreases |items|
  {
    if items != [] {
      RunEventsAllLow(products, stock, items[..|items| - 1], release);
    }
  }

  /** A run publishes at most one message (a low-stock alert) per line it adjusted. */
  lemma {:induction false} RunEventsPerLine(products: map<int, Product>, stock: map<int, int>,
                                            items: seq<ItemIn>, release: bool)
    ensures |RunEvents(products, stock, items, release)| <= AdjustRun(products, stock, items, release).done
    decreases |items|
  {
    if items != [] {
      RunEventsPerLine(products, stock, items[..|items| - 1], release);
    }
  }

  /** A run drops the product list exactly when it applied an adjustment, and the entry of
      exactly the products of the items it applied. */
  lemma {:induction false} RunDroppedKeys(products: map<int, Product>, stock: map<int, int>, items: seq<ItemIn>,
                                          release: bool)
    ensures var r := AdjustRun(products, stock, items, release);
      && (ProductsList in RunDropped(products, stock, items, release) <==> r.done > 0)
      && forall id :: ProductEntry(id) in RunDropped(products, stock, items, release) <==>
                      exists i :: 0 <= i < r.done && items[i].productId == id
    decreases |items|
  {
    if items != [] {
      var prefix := items[..|items| - 1];
      var p := AdjustRun(products, stock, prefix, release);
      var it := items[|items| - 1];
      RunDroppedKeys(products, stock, prefix, release);
      var r := AdjustRun(products, stock, items, release);
      assert forall i :: 0 <= i < p.done ==> prefix[i] == items[i];
      forall id ensures ProductEntry(id) in RunDropped(products, stock, items, release) <==>
                        exists i :: 0 <= i < r.done && items[i].productId == id {
        if exists i :: 0 <= i < r.done && items[i].productId == id {
          var i :| 0 <= i < r.done && items[i].productId == id;
          if i < p.done {
            assert prefix[i].productId == id;
          }
        }
        if exists i :: 0 <= i < p.done && prefix[i].productId == id {
          var i :| 0 <= i < p.done && prefix[i].productId == id;
          assert items[i].productId == id;
        }
      }
    }
  }

  /** Once a prefix of the run has failed, the items after it change nothing. */
  lemma {:induction false} AdjustRunStops(products: map<int, Product>, stock: map<int, int>,
                                          items: seq<ItemIn>, release: bool, k: int)
    requires 0 <= k <= |items|
    requires AdjustRun(products, stock, items[..k], release).failure.Some?
    ensures AdjustRun(products, stock, items, release) == AdjustRun(products, stock, items[..k], release)
    ensures RunEvents(products, stock, items, release) == RunEvents(products, stock, items[..k], release)
    ensures RunDropped(products, stock, items, release) == RunDropped(products, stock, items[..k], release)
    decreases |items|
  {
    if k < |items| {
      var prefix := items[..|items| - 1];
      assert prefix[..k] == items[..k];
      AdjustRunStops(products, stock, prefix, release, k);
    } else {
      assert items[..k] == items;
    }
  }

  /** A failed run holds exactly the table the successful prefix before the failing item
      produced, and the failing item's adjustment is refused there. */
  lemma {:induction false} AdjustRunFailurePrefix(products: map<int, Product>, stock: map<int, int>,
                                                  items: seq<ItemIn>, release: bool)
    requires AdjustRun(products, stock, items, release).failure.Some?
    ensures var r := AdjustRun(products, stock, items, release);
      && AdjustRun(products, stock, items[..r.done], release) == Run(r.stock, None, r.done)
      && var it := items[r.done];
         var a := Adjust(products, r.stock, it.productId, if release then it.qty else -it.qty);
         a.Fail? && r.failure == Some(a.code)
    decreases |items|
  {
    var prefix := items[..|items| - 1];
    var r := AdjustRun(products, stock, prefix, release);
    if r.failure.Some? {
      AdjustRunFailurePrefix(products, stock, prefix, release);
      assert prefix[..r.done] == items[..r.done];
      assert prefix[r.done] == items[r.done];
    } else {
      assert items[..r.done] == prefix;
    }
  }

  /** The stock `items` ask for is on hand: every item names a listed product with a stock
      row holding at least the total quantity asked of that product. */
  ghost predicate Reservable(products: map<int, Product>, stock: map<int, int>, items: seq<ItemIn>) {
    forall i :: 0 <= i < |items| ==>
      var p := items[i].productId;
      p in products && p in stock && stock[p] >= QtyOf(items, p)
  }

  /** The table with each product's total requested quantity taken off. */
  ghost function Reduced(stock: map<int, int>, items: seq<ItemIn>): map<int, int> {
    map p | p in stock :: stock[p] - QtyOf(items, p)
  }

  /** The table with each product's total requested quantity put back. */
  ghost function Raised(stock: map<int, int>, items: seq<ItemIn>): map<int, int> {
    map p | p in stock :: stock[p] + QtyOf(items, p)
  }

  lemma ReservableShrinks(products: map<int, Product>, stock: map<int, int>, items: seq<ItemIn>)
    requires |items| > 0 && Positive(items) && Reservable(products, stock, items)
    ensures Reservable(products, stock, items[..|items| - 1])
  {
    var prefix := items[..|items| - 1];
    forall i | 0 <= i < |prefix|
      ensures prefix[i].productId in products && prefix[i].productId in stock
      ensures stock[prefix[i].productId] >= QtyOf(prefix, prefix[i].productId)
    {
      assert prefix[i] == items[i];
      assert QtyOf(items, items[i].productId) >= QtyOf(prefix, items[i].productId);
    }
  }

  /** A run of reservations succeeds exactly when the stock is reservable, and then takes
      each product's total requested quantity off its row. So whether it succeeds does not
      depend on the order of the items, although an item-by-item check can pass when the
      run fails (see `DuplicateItemLeaks`). */
  lemma {:induction false} ReserveRunSpec(products: map<int, Product>, stock: map<int, int>, items: seq<ItemIn>)
    requires Positive(items)
    ensures AdjustRun(products, stock, items, false).failure.None? <==> Reservable(products, stock, items)
    ensures AdjustRun(products, stock, items, false).failure.None? ==>
              AdjustRun(products, stock, items, false).stock == Reduced(stock, items)
    decreases |items|
  {
    if items != [] {
      var prefix := items[..|items| - 1];
      assert Positive(prefix) by {
        forall i | 0 <= i < |prefix| ensures prefix[i].qty > 0 {
          assert prefix[i] == items[i];
        }
      }
      ReserveRunSpec(products, stock, prefix);
      if AdjustRun(products, stock, prefix, false).failure.None? {
        ReserveStep(products, stock, items);
      } else if Reservable(products, stock, items) {
        ReservableShrinks(products, stock, items);
      }
    }
  }

  /** One reservation after a successful prefix: it succeeds exactly when the whole list is
      reservable, and lands on the reduced table. */
  lemma ReserveStep(products: map<int, Product>, stock: map<int, int>, items: seq<ItemIn>)
    requires |items| > 0
    requires AdjustRun(products, stock, items[..|items| - 1], false) == Run(Reduced(stock, items[..|items| - 1]), None, |items| - 1)
    requires Reservable(products, stock, items[..|items| - 1])
    ensures AdjustRun(products, stock, items, false).failure.None? <==> Reservable(products, stock, items)
    ensures AdjustRun(products, stock, items, false).failure.None? ==>
              AdjustRun(products, stock, items, false).stock == Reduced(stock, items)
  {
    var prefix := items[..|items| - 1];
    var x := items[|items| - 1];
    var a := Adjust(products, Reduced(stock, prefix), x.productId, -x.qty);
    if a.Ok? {
      ReserveStepOk(products, stock, items);
    } else {
      QtyOfLast(items, x.productId);
    }
  }

  lemma QtyOfLast(items: seq<ItemIn>, q: int)
    requires |items| > 0
    ensures QtyOf(items, q) == QtyOf(items[..|items| - 1], q) + (if items[|items| - 1].productId == q then items[|items| - 1].qty else 0)
  {
  }

  lemma ReserveStepOk(products: map<int, Product>, stock: map<int, int>, items: seq<ItemIn>)
    requires |items| > 0
    requires Reservable(products, stock, items[..|items| - 1])
    requires Adjust(products, Reduced(stock, items[..|items| - 1]), items[|items| - 1].productId,
                    -items[|items| - 1].qty).Ok?
    ensures Reservable(products, stock, items)
    ensures Adjust(products, Reduced(stock, items[..|items| - 1]), items[|items| - 1].productId,
                   -items[|items| - 1].qty).value == Reduced(stock, items)
  {
    var prefix := items[..|items| - 1];
    var x := items[|items| - 1];
    var a := Adjust(products, Reduced(stock, prefix), x.productId, -x.qty);
    forall i | 0 <= i < |items|
      ensures items[i].productId in products && items[i].productId in stock
      ensures stock[items[i].productId] >= QtyOf(items, items[i].productId)
    {
      var q := items[i].productId;
      if i < |prefix| {
        assert prefix[i] == items[i];
      }
      QtyOfLast(items, q);
    }
    forall q | q in stock ensures a.value[q] == Reduced(stock, items)[q] {
      QtyOfLast(items, q);
    }
    assert a.value == Reduced(stock, items);
  }

  /** With items that each name a different product, passing the check of every item is
      enough for the run of reservations to succeed. */
  lemma {:induction false} DistinctItemsReserve(products: map<int, Product>, stock: map<int, int>, items: seq<ItemIn>)
    requires Positive(items)
    requires forall i, j :: 0 <= i < j < |items| ==> items[i].productId != items[j].productId
    requires FirstCheckFailure(products, stock, items).None?
    ensures AdjustRun(products, stock, items, false).failure.None?
  {
    forall i | 0 <= i < |items|
      ensures QtyOf(items, items[i].productId) == items[i].qty
    {
      QtyOfDistinct(items, i);
    }
    ReserveRunSpec(products, stock, items);
  }

  lemma {:induction false} QtyOfDistinct(items: seq<ItemIn>, i: int)
    requires 0 <= i < |items|
    requires forall a, b :: 0 <= a < b < |items| ==> items[a].productId != items[b].productId
    ensures QtyOf(items, items[i].productId) == items[i].qty
    decreases |items|
  {
    var prefix := items[..|items| - 1];
    if i < |prefix| {
      assert prefix[i] == items[i];
      QtyOfDistinct(prefix, i);
    } else {
      QtyOfAbsent(prefix, items[i].productId);
    }
  }

  lemma {:induction false} QtyOfAbsent(items: seq<ItemIn>, productId: int)
    requires forall a :: 0 <= a < |items| ==> items[a].productId != productId
    ensures QtyOf(items, productId) == 0
    decreases |items|
  {
    if items != [] {
      QtyOfAbsent(items[..|items| - 1], productId);
    }
  }

  /** Release every item in turn (+qty), ignoring any release the inventory handler refuses. */
  function ReleaseIgnoringErrors(products: map<int, Product>, stock: map<int, int>, items: seq<ItemIn>)
    : (r: map<int, int>)
    ensures r.Keys == stock.Keys
    decreases |items|
  {
    if items == [] then stock
    else
      var t := ReleaseIgnoringErrors(products, stock, items[..|items| - 1]);
      var it := items[|items| - 1];
      match Adjust(products, t, it.productId, it.qty)
      case Ok(u) => u
      case Fail(_) => t
  }

  /** The messages releasing every item publishes, refused releases publishing none. */
  function ReleaseEvents(products: map<int, Product>, stock: map<int, int>, items: seq<ItemIn>): seq<Message>
    decreases |items|
  {
    if items == [] then []
    else
      var prefix := items[..|items| - 1];
      var it := items[|items| - 1];
      ReleaseEvents(products, stock, prefix)
      + AdjustEvents(products, ReleaseIgnoringErrors(products, stock, prefix), it.productId, it.qty)
  }

  /** The cache keys releasing every item drops, refused releases dropping none. */
  function ReleaseDropped(products: map<int, Product>, stock: map<int, int>, items: seq<ItemIn>): set<CacheKey>
    decreases |items|
  {
    if items == [] then {}
    else
      var prefix := items[..|items| - 1];
      var it := items[|items| - 1];
      ReleaseDropped(products, stock, prefix)
      + AdjustDropped(products, ReleaseIgnoringErrors(products, stock, prefix), it.productId, it.qty)
  }

  /** When no release is refused, releasing while ignoring refusals and the run that stops
      at the first refusal reach the same table, publish the same messages and drop the
      same keys. */
  lemma {:induction false} ReleaseMatchesRun(products: map<int, Product>, stock: map<int, int>, items: seq<ItemIn>)
    requires AdjustRun(products, stock, items, true).failure.None?
    ensures ReleaseIgnoringErrors(products, stock, items) == AdjustRun(products, stock, items, true).stock
    ensures ReleaseEvents(products, stock, items) == RunEvents(products, stock, items, true)
    ensures ReleaseDropped(products, stock, items) == RunDropped(products, stock, items, true)
    decreases |items|
  {
    if items != [] {
      var prefix := items[..|items| - 1];
      assert AdjustRun(products, stock, prefix, true).failure.None?;
      ReleaseMatchesRun(products, stock, prefix);
    }
  }

  /** Releasing listed products with non-negative rows puts each product's total
      requested quantity back. */
  lemma {:induction false} ReleaseRaises(products: map<int, Product>, stock: map<int, int>, items: seq<ItemIn>)
    requires Positive(items)
    requires forall i :: 0 <= i < |items| ==>
      items[i].productId in products && items[i].productId in stock && stock[items[i].productId] >= 0
    ensures ReleaseIgnoringErrors(products, stock, items) == Raised(stock, items)
    decreases |items|
  {
    if items != [] {
      var prefix := items[..|items| - 1];
      var x := items[|items| - 1];
      assert forall i :: 0 <= i < |prefix| ==> prefix[i] == items[i];
      ReleaseRaises(products, stock, prefix);
      var t := ReleaseIgnoringErrors(products, stock, prefix);
      assert t[x.productId] == stock[x.productId] + QtyOf(prefix, x.productId) >= 0;
      var a := Adjust(products, t, x.productId, x.qty);
      assert a.Ok?;
      forall q | q in stock ensures a.value[q] == Raised(stock, items)[q] {
        assert QtyOf(items, q) == QtyOf(prefix, q) + (if x.productId == q then x.qty else 0);
      }
      assert a.value == Raised(stock, items);
    }
  }

  /** Releasing what a successful run of reservations took restores the table exactly:
      the compensation `create_order` runs when saving the order fails. */
  lemma ReleaseUndoesReserve(products: map<int, Product>, stock: map<int, int>, items: seq<ItemIn>)
    requires Positive(items)
    requires AdjustRun(products, stock, items, false).failure.None?
    ensures ReleaseIgnoringErrors(products, AdjustRun(products, stock, items, false).stock, items) == stock
  {
    ReserveRunSpec(products, stock, items);
    var t := Reduced(stock, items);
    forall i | 0 <= i < |items|
      ensures items[i].productId in products && items[i].productId in t && t[items[i].productId] >= 0
    {
      assert Reservable(products, stock, items);
    }
    ReleaseRaises(products, t, items);
    var back := Raised(t, items);
    assert back.Keys == stock.Keys;
    forall p | p in stock ensures back[p] == stock[p] {
    }
  }

  /** After a failed run of reservations, releasing the items it did reserve restores
      the table. */
  lemma ReleaseUndoesPartialReserve(products: map<int, Product>, stock: map<int, int>, items: seq<ItemIn>)
    requires Positive(items)
    requires AdjustRun(products, stock, items, false).failure.Some?
    ensures var r := AdjustRun(products, stock, items, false);
            ReleaseIgnoringErrors(products, r.stock, items[..r.done]) == stock
  {
    var r := AdjustRun(products, stock, items, false);
    AdjustRunFailurePrefix(products, stock, items, false);
    assert forall i :: 0 <= i < r.done ==> items[..r.done][i] == items[i];
    ReleaseUndoesReserve(products, stock, items[..r.done]);
  }

  /** The same product listed twice: each item passes the check on its own (5 >= 3),
      the second reservation is refused (409 once mapped), and the first one stays
      taken: the row drops from 5 to 2. */
  lemma DuplicateItemLeaks(p: Product)
    ensures var products := map[1 := p];
            var stock := map[1 := 5];
            var items := [ItemIn(1, 3), ItemIn(1, 3)];
            var r := AdjustRun(products, stock, items, false);
            && FirstCheckFailure(products, stock, items).None?
            && r.failure == Some(400) && ReserveCode(r.failure.value) == 409
            && r.done == 1 && r.stock == map[1 := 2]
  {
    var products := map[1 := p];
    var stock := map[1 := 5];
    var items := [ItemIn(1, 3), ItemIn(1, 3)];
    assert items[..1] == [ItemIn(1, 3)];
    assert [ItemIn(1, 3)][..0] == [];
    assert map[1 := 5][1 := 2] == map[1 := 2];
  }

  // ---------------------------------------------------------------------------
  // The loops the order handlers run

  /** The check pass of `create_order`: every item's stock is checked and its product read
      in list order, summing price * qty; it stops at the first failure. Nothing changes. */
  method CheckItems(inv: InventoryDb, items: seq<ItemIn>) returns (failure: Option<int>, total: int)
    ensures failure == FirstCheckFailure(inv.products, inv.stock, items)
    ensures failure.None? ==> total == Total(inv.products, items)
  {
    total := 0;
    var i := 0;
    while i < |items|
      invariant 0 <= i <= |items|
      invariant forall j :: 0 <= j < i ==> CheckCode(inv.products, inv.stock, items[j]).None?
      invariant total == Total(inv.products, items[..i])
    {
      var item := items[i];
      var stockInfo := CheckStock(inv, item.productId, item.qty);
      if stockInfo.Fail? {
        FirstCheckFailureAt(inv.products, inv.stock, items, i);
        return Some(stockInfo.code), total;
      }
      var info := GetProductInfo(inv, item.productId);
      assert info.Ok?;   // the stock row passed the check, so the product is listed
      PrefixOfNext(items, i);
      total := total + info.value.price * item.qty;
      i := i + 1;
    }
    assert items[..i] == items;
    failure := None;
  }

  /** One pass of the reservation loop: reserve item `i` after the first `i` were reserved
      without a refusal, and account for it in the run over the items. */
  method ReserveNext(inv: InventoryDb, ghost products: map<int, Product>, ghost stock: map<int, int>,
                     items: seq<ItemIn>, i: nat, ghost pub0: seq<Message>, ghost dr0: set<CacheKey>)
    returns (res: Outcome<StockInfo>)
    requires i < |items| && inv.products == products
    requires AdjustRun(products, stock, items[..i], false) == Run(inv.stock, None, i)
    requires inv.published == pub0 + RunEvents(products, stock, items[..i], false)
    requires inv.dropped == dr0 + RunDropped(products, stock, items[..i], false)
    modifies inv
    ensures inv.products == products && inv.nextId == old(inv.nextId) && inv.stock.Keys == old(inv.stock).Keys
    ensures var run := AdjustRun(products, stock, items[..i + 1], false);
      && (res.Ok? ==> run == Run(inv.stock, None, i + 1))
      && (res.Fail? ==> run.failure.Some? && run == Run(inv.stock, run.failure, i)
                        && res.code == ReserveCode(run.failure.value))
    ensures inv.published == pub0 + RunEvents(products, stock, items[..i + 1], false)
    ensures inv.dropped == dr0 + RunDropped(products, stock, items[..i + 1], false)
  {
    ghost var st, pub, dr := inv.stock, inv.published, inv.dropped;
    res := ReserveStock(inv, items[i].productId, items[i].qty);
    RunAdvance(products, stock, items, false, i, items[i].productId, -items[i].qty, st, inv.stock,
               pub0, pub, inv.published, dr0, dr, inv.dropped);
  }

  /** The reservation pass of `create_order`: reserve every item in turn and stop at the
      first refusal, whose (mapped) code is returned. */
  method ReserveItems(inv: InventoryDb, items: seq<ItemIn>) returns (failure: Option<int>, done: nat)
    modifies inv
    ensures var run := AdjustRun(old(inv.products), old(inv.stock), items, false);
      && inv.stock == run.stock && done == run.done
      && failure == (if run.failure.Some? then Some(ReserveCode(run.failure.value)) else None)
    ensures inv.published == old(inv.published) + RunEvents(old(inv.products), old(inv.stock), items, false)
    ensures inv.dropped == old(inv.dropped) + RunDropped(old(inv.products), old(inv.stock), items, false)
    ensures inv.products == old(inv.products) && inv.nextId == old(inv.nextId)
    ensures old(inv.Valid()) ==> inv.Valid()
  {
    ghost var products := inv.products;
    ghost var stock := inv.stock;
    var i := 0;
    while i < |items|
      invariant 0 <= i <= |items|
      invariant inv.products == products && inv.nextId == old(inv.nextId)
      invariant AdjustRun(products, stock, items[..i], false) == Run(inv.stock, None, i)
      invariant inv.published == old(inv.published) + RunEvents(products, stock, items[..i], false)
      invariant inv.dropped == old(inv.dropped) + RunDropped(products, stock, items[..i], false)
      invariant inv.stock.Keys == stock.Keys
    {
      var res := ReserveNext(inv, products, stock, items, i, old(inv.published), old(inv.dropped));
      if res.Fail? {
        AdjustRunStops(products, stock, items, false, i + 1);
        return Some(res.code), i;
      }
      i := i + 1;
    }
    assert items[..i] == items;
    failure, done := None, i;
  }

  /** One pass of the release loop of the rollback: release item `i`, whatever the answer,
      and account for it in the releases over the items. */
  method ReleaseIgnoringNext(inv: InventoryDb, ghost products: map<int, Product>, ghost stock: map<int, int>,
                             items: seq<ItemIn>, i: nat, ghost pub0: seq<Message>, ghost dr0: set<CacheKey>)
    requires i < |items| && inv.products == products
    requires inv.stock == ReleaseIgnoringErrors(products, stock, items[..i])
    requires inv.published == pub0 + ReleaseEvents(products, stock, items[..i])
    requires inv.dropped == dr0 + ReleaseDropped(products, stock, items[..i])
    modifies inv
    ensures inv.products == products && inv.nextId == old(inv.nextId) && inv.stock.Keys == old(inv.stock).Keys
    ensures inv.stock == ReleaseIgnoringErrors(products, stock, items[..i + 1])
    ensures inv.published == pub0 + ReleaseEvents(products, stock, items[..i + 1])
    ensures inv.dropped == dr0 + ReleaseDropped(products, stock, items[..i + 1])
  {
    PrefixOfNext(items, i);
    ghost var pub := inv.published;
    var _ := ReleaseStock(inv, items[i].productId, items[i].qty);
    assert inv.published == pub0 + ReleaseEvents(products, stock, items[..i + 1]) by {
      assert pub + AdjustEvents(products, ReleaseIgnoringErrors(products, stock, items[..i]), items[i].productId,
                                items[i].qty)
             == pub0 + ReleaseEvents(products, stock, items[..i + 1]);
    }
  }

  /** Release every item in turn, swallowing each refusal (`except: pass`). */
  method ReleaseItems(inv: InventoryDb, items: seq<ItemIn>)
    modifies inv
    ensures inv.stock == ReleaseIgnoringErrors(old(inv.products), old(inv.stock), items)
    ensures inv.published == old(inv.published) + ReleaseEvents(old(inv.products), old(inv.stock), items)
    ensures inv.dropped == old(inv.dropped) + ReleaseDropped(old(inv.products), old(inv.stock), items)
    ensures inv.products == old(inv.products) && inv.nextId == old(inv.nextId)
    ensures old(inv.Valid()) ==> inv.Valid()
  {
    ghost var products := inv.products;
    ghost var stock := inv.stock;
    var i := 0;
    while i < |items|
      invariant 0 <= i <= |items|
      invariant inv.products == products && inv.nextId == old(inv.nextId)
      invariant inv.stock == ReleaseIgnoringErrors(products, stock, items[..i])
      invariant inv.published == old(inv.published) + ReleaseEvents(products, stock, items[..i])
      invariant inv.dropped == old(inv.dropped) + ReleaseDropped(products, stock, items[..i])
      invariant inv.stock.Keys == stock.Keys
    {
      ReleaseIgnoringNext(inv, products, stock, items, i, old(inv.published), old(inv.dropped));
      i := i + 1;
    }
    assert items[..i] == items;
  }

  /** One pass of the release loop of `cancel_order`: release item `i` after the first `i`
      were released without a refusal, and account for it in the run over the items. */
  method ReleaseNext(inv: InventoryDb, ghost products: map<int, Product>, ghost stock: map<int, int>,
                     items: seq<ItemIn>, i: nat, ghost pub0: seq<Message>, ghost dr0: set<CacheKey>)
    returns (res: Outcome<StockInfo>)
    requires i < |items| && inv.products == products
    requires AdjustRun(products, stock, items[..i], true) == Run(inv.stock, None, i)
    requires inv.published == pub0 + RunEvents(products, stock, items[..i], true)
    requires inv.dropped == dr0 + RunDropped(products, stock, items[..i], true)
    modifies inv
    ensures inv.products == products && inv.nextId == old(inv.nextId) && inv.stock.Keys == old(inv.stock).Keys
    ensures var run := AdjustRun(products, stock, items[..i + 1], true);
      && (res.Ok? ==> run == Run(inv.stock, None, i + 1))
      && (res.Fail? ==> run.failure.Some? && run == Run(inv.stock, run.failure, i))
    ensures inv.published == pub0 + RunEvents(products, stock, items[..i + 1], true)
    ensures inv.dropped == dr0 + RunDropped(products, stock, items[..i + 1], true)
  {
    ghost var st, pub, dr := inv.stock, inv.published, inv.dropped;
    res := ReleaseStock(inv, items[i].productId, items[i].qty);
    RunAdvance(products, stock, items, true, i, items[i].productId, items[i].qty, st, inv.stock,
               pub0, pub, inv.published, dr0, dr, inv.dropped);
  }

  /** Release every item in turn, stopping at the first refusal; says whether all succeeded. */
  method ReleaseEach(inv: InventoryDb, items: seq<ItemIn>) returns (ok: bool)
    modifies inv
    ensures var run := AdjustRun(old(inv.products), old(inv.stock), items, true);
            inv.stock == run.stock && ok == run.failure.None?
    ensures inv.published == old(inv.published) + RunEvents(old(inv.products), old(inv.stock), items, true)
    ensures inv.dropped == old(inv.dropped) + RunDropped(old(inv.products), old(inv.stock), items, true)
    ensures inv.products == old(inv.products) && inv.nextId == old(inv.nextId)
    ensures old(inv.Valid()) ==> inv.Valid()
  {
    ghost var products := inv.products;
    ghost var stock := inv.stock;
    var i := 0;
    while i < |items|
      invariant 0 <= i <= |items|
      invariant inv.products == products && inv.nextId == old(inv.nextId)
      invariant AdjustRun(products, stock, items[..i], true) == Run(inv.stock, None, i)
      invariant inv.published == old(inv.published) + RunEvents(products, stock, items[..i], true)
      invariant inv.dropped == old(inv.dropped) + RunDropped(products, stock, items[..i], true)
      invariant inv.stock.Keys == stock.Keys
    {
      var res := ReleaseNext(inv, products, stock, items, i, old(inv.published), old(inv.dropped));
      if res.Fail? {
        AdjustRunStops(products, stock, items, true, i + 1);
        return false;
      }
      i := i + 1;
    }
    assert items[..i] == items;
    ok := true;
  }
}
