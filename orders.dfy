/**
 * The order endpoints: create (check every item, reserve every item, then
 * save the order with its item rows, releasing the reservations if saving
 * fails), get, update, change status, workflow summary, cancel (release the
 * stock, then move to CANCELLED) and delete.
 *
 * Each handler takes the order store and the inventory service's store; a
 * failure of the database while saving a new order is the `saveFails`
 * parameter. `CreateOrderAtomic` and `CancelOrderChecked` are the corrected
 * versions of `CreateOrder` and `CancelOrder`.
 */
module Orders {
  import opened Common
  import opened OrderModels
  import opened InventoryModels
  import opened InventoryClient
  import Workflow = OrderWorkflow

  datatype OrderCreate = OrderCreate(items: seq<ItemIn>, customerName: Option<string>, customerEmail: Option<string>,
                                     shippingAddress: Option<string>, notes: Option<string>)

  datatype OrderUpdate = OrderUpdate(customerName: Option<string>, customerEmail: Option<string>,
                                     shippingAddress: Option<string>, notes: Option<string>)

  datatype StatusChange = StatusChange(status: string, notes: Option<string>)

  datatype ItemOut = ItemOut(id: int, productId: int, productName: string, productSku: string,
                             qty: int, unitPrice: int, subtotal: int)

  datatype OrderOut = OrderOut(id: int, status: string, total: int,
                               customerName: Option<string>, customerEmail: Option<string>,
                               shippingAddress: Option<string>, notes: Option<string>,
                               createdAt: Time, updatedAt: Time, paidAt: Option<Time>, shippedAt: Option<Time>,
                               items: seq<ItemOut>)

  /** The label of an item whose product the inventory service cannot return. */
  function FallbackName(productId: int): string {
    "Product " + IntToString(productId)
  }

  /** One item of an order as `get_order` shows it: labelled from the product record,
      or with the fallback labels when the product cannot be read. */
  function ItemView(inv: InventoryDb, line: OrderItem): (r: ItemOut)
    reads inv
    ensures r.id == line.id && r.productId == line.productId && r.qty == line.qty && r.unitPrice == line.unitPrice
    ensures r.subtotal == line.unitPrice * line.qty
    ensures line.productId in inv.products && line.productId in inv.stock ==>
              r.productName == inv.products[line.productId].name && r.productSku == inv.products[line.productId].sku
    ensures !(line.productId in inv.products && line.productId in inv.stock) ==>
              r.productName == FallbackName(line.productId) && r.productSku == "N/A"
  {
    match GetProductInfo(inv, line.productId)
    case Ok(p) => ItemOut(line.id, line.productId, p.name, p.sku, line.qty, line.unitPrice, line.unitPrice * line.qty)
    case Fail(_) => ItemOut(line.id, line.productId, FallbackName(line.productId), "N/A",
                            line.qty, line.unitPrice, line.unitPrice * line.qty)
  }

  function ItemViews(inv: InventoryDb, lines: seq<OrderItem>): (r: seq<ItemOut>)
    reads inv
    ensures |r| == |lines| && forall i :: 0 <= i < |lines| ==> r[i] == ItemView(inv, lines[i])
  {
    if lines == [] then [] else [ItemView(inv, lines[0])] + ItemViews(inv, lines[1..])
  }

  /** `get_order`: 404 for a missing order; otherwise the stored fields and one entry per
      item row of the order, in table order. */
  function GetOrder(db: OrderDb, inv: InventoryDb, orderId: int): (r: Outcome<OrderOut>)
    reads db, inv
    ensures r.Fail? <==> orderId !in db.orders
    ensures r.Fail? ==> r.code == 404
    ensures r.Ok? ==>
      var o := db.orders[orderId];
      var lines := ItemsOf(db.items, orderId);
      && r.value.id == orderId && r.value.status == o.status && r.value.total == o.total
      && r.value.customerName == o.customerName && r.value.customerEmail == o.customerEmail
      && r.value.shippingAddress == o.shippingAddress && r.value.notes == o.notes
      && r.value.createdAt == o.createdAt && r.value.updatedAt == o.updatedAt
      && r.value.paidAt == o.paidAt && r.value.shippedAt == o.shippedAt
      && |r.value.items| == |lines|
      && forall i :: 0 <= i < |lines| ==> r.value.items[i] == ItemView(inv, lines[i])
  {
    if orderId !in db.orders then Fail(404)
    else
      var o := db.orders[orderId];
      Ok(OrderOut(orderId, o.status, o.total, o.customerName, o.customerEmail, o.shippingAddress, o.notes,
                  o.createdAt, o.updatedAt, o.paidAt, o.shippedAt, ItemViews(inv, ItemsOf(db.items, orderId))))
  }

  // ---------------------------------------------------------------------------
  // create_order

  /** The row of a new order. */
  function NewOrder(body: OrderCreate, total: int, now: Time): Order {
    Order(Workflow.Name(Workflow.Created), total, body.customerName, body.customerEmail, body.shippingAddress,
          body.notes, now, now, None, None)
  }

  /** The item rows of a new order: consecutive ids from `firstItemId`, each carrying the
      listed price of its product as the unit price. */
  function Rows(orderId: int, firstItemId: int, products: map<int, Product>, items: seq<ItemIn>): seq<OrderItem> {
    seq(|items|, i requires 0 <= i < |items| =>
      OrderItem(firstItemId + i, orderId, items[i].productId, items[i].qty, Price(products, items[i].productId)))
  }

  /** The rows' subtotals add up to the order total. */
  lemma {:induction false} RowsTotal(orderId: int, firstItemId: int, products: map<int, Product>, items: seq<ItemIn>)
    ensures LinesTotal(Rows(orderId, firstItemId, products, items)) == Total(products, items)
    decreases |items|
  {
    if items != [] {
      var prefix := items[..|items| - 1];
      var rows := Rows(orderId, firstItemId, products, items);
      assert rows[..|rows| - 1] == Rows(orderId, firstItemId, products, prefix);
      RowsTotal(orderId, firstItemId, products, prefix);
    }
  }

  /** The rows of a new order are exactly its item rows in the extended table, their
      subtotals add up to its total, and each snapshots its product's listed price. */
  lemma NewOrderRows(priorItems: seq<OrderItem>, orderId: int, firstItemId: int, products: map<int, Product>,
                     items: seq<ItemIn>)
    requires forall i :: 0 <= i < |priorItems| ==> priorItems[i].orderId < orderId
    ensures var rows := Rows(orderId, firstItemId, products, items);
      && ItemsOf(priorItems + rows, orderId) == rows
      && LinesTotal(ItemsOf(priorItems + rows, orderId)) == Total(products, items)
      && |rows| == |items|
      && forall i :: 0 <= i < |rows| ==>
           rows[i].productId == items[i].productId && rows[i].qty == items[i].qty
           && rows[i].unitPrice == Price(products, items[i].productId)
  {
    var rows := Rows(orderId, firstItemId, products, items);
    assert forall i :: 0 <= i < |rows| ==> rows[i].orderId == orderId;
    AppendedItems(priorItems, rows, orderId);
    RowsTotal(orderId, firstItemId, products, items);
    assert LinesTotal(ItemsOf(priorItems + rows, orderId)) == LinesTotal(rows);
  }

  /** Rows of a fresh order id appended to the table are exactly that order's items. */
  lemma AppendedItems(priorItems: seq<OrderItem>, rows: seq<OrderItem>, orderId: int)
    requires forall i :: 0 <= i < |priorItems| ==> priorItems[i].orderId < orderId
    requires forall i :: 0 <= i < |rows| ==> rows[i].orderId == orderId
    ensures ItemsOf(priorItems + rows, orderId) == rows
  {
    ItemsOfAppend(priorItems, rows, orderId);
    ItemsOfNone(priorItems, orderId);
    ItemsOfAll(rows, orderId);
    assert [] + rows == rows;
  }

  /** Save the new order and its item rows; when saving fails the transaction is rolled back
      and every item is released, ignoring refusals. */
  method SaveOrder(db: OrderDb, inv: InventoryDb, body: OrderCreate, total: int, saveFails: bool, now: Time)
    returns (r: Outcome<OrderOut>)
    requires db.Valid()
    modifies db, inv
    ensures db.Valid()
    ensures saveFails ==>
      && r == Fail(500) && unchanged(db)
      && inv.stock == ReleaseIgnoringErrors(old(inv.products), old(inv.stock), body.items)
    ensures !saveFails ==>
      var id := old(db.nextOrderId);
      && id !in old(db.orders)
      && inv.stock == old(inv.stock)
      && db.orders == old(db.orders)[id := NewOrder(body, total, now)]
      && db.items == old(db.items) + Rows(id, old(db.nextItemId), inv.products, body.items)
      && db.nextOrderId == id + 1 && db.nextItemId == old(db.nextItemId) + |body.items|
      && r.Ok? && r == GetOrder(db, inv, id)
    ensures inv.published
            == (if saveFails then old(inv.published) + ReleaseEvents(old(inv.products), old(inv.stock), body.items)
                else old(inv.published))
    ensures inv.dropped
            == (if saveFails then old(inv.dropped) + ReleaseDropped(old(inv.products), old(inv.stock), body.items)
                else old(inv.dropped))
    ensures inv.products == old(inv.products) && inv.nextId == old(inv.nextId)
    ensures old(inv.Valid()) ==> inv.Valid()
  {
    if saveFails {
      ReleaseItems(inv, body.items);
      return Fail(500);
    }
    var id := db.nextOrderId;
    db.orders := db.orders[id := NewOrder(body, total, now)];
    db.nextOrderId := id + 1;
    var rows := Rows(id, db.nextItemId, inv.products, body.items);
    var i := 0;
    while i < |body.items|
      invariant 0 <= i <= |body.items|
      invariant db.orders == old(db.orders)[id := NewOrder(body, total, now)] && db.nextOrderId == id + 1
      invariant db.items == old(db.items) + rows[..i]
      invariant db.nextItemId == old(db.nextItemId) + i
      invariant db.Valid() && unchanged(inv)
    {
      var item := body.items[i];
      var line := OrderItem(db.nextItemId, id, item.productId, item.qty, Price(inv.products, item.productId));
      assert line == rows[i];
      assert rows[..i + 1] == rows[..i] + [line];
      db.items := db.items + [line];
      db.nextItemId := db.nextItemId + 1;
      i := i + 1;
    }
    assert rows[..i] == rows;
    r := GetOrder(db, inv, id);
  }

  /** `create_order` as written. A non-positive quantity is refused by the request
      validation (422) and an empty list with 400, both before any inventory call. Every
      item is then checked before any is reserved; a failed check answers its code. A refused
      reservation answers its code and leaves the earlier reservations taken (see
      `DuplicateItemLeaks`). Once all are reserved the order is saved with status CREATED,
      the sum of price * qty as its total and the listed prices as unit prices; if saving
      fails, every reservation is released and the stock is back where it was. */
  method CreateOrder(db: OrderDb, inv: InventoryDb, body: OrderCreate, saveFails: bool, now: Time)
    returns (r: Outcome<OrderOut>)
    requires db.Valid()
    modifies db, inv
    ensures db.Valid() && inv.products == old(inv.products)
    ensures !Positive(body.items) ==> r == Fail(422) && unchanged(db) && inv.stock == old(inv.stock)
    ensures Positive(body.items) && body.items == [] ==> r == Fail(400) && unchanged(db) && inv.stock == old(inv.stock)
    ensures var check := FirstCheckFailure(old(inv.products), old(inv.stock), body.items);
      Positive(body.items) && check.Some? ==> r == Fail(check.value) && unchanged(db) && inv.stock == old(inv.stock)
    ensures var check := FirstCheckFailure(old(inv.products), old(inv.stock), body.items);
            var run := AdjustRun(old(inv.products), old(inv.stock), body.items, false);
      Positive(body.items) && body.items != [] && check.None? && run.failure.Some? ==>
        r == Fail(ReserveCode(run.failure.value)) && unchanged(db) && inv.stock == run.stock
    ensures var check := FirstCheckFailure(old(inv.products), old(inv.stock), body.items);
            var run := AdjustRun(old(inv.products), old(inv.stock), body.items, false);
      Positive(body.items) && body.items != [] && check.None? && run.failure.None? && saveFails ==>
        r == Fail(500) && unchanged(db) && inv.stock == old(inv.stock)
    ensures var check := FirstCheckFailure(old(inv.products), old(inv.stock), body.items);
            var run := AdjustRun(old(inv.products), old(inv.stock), body.items, false);
            var id := old(db.nextOrderId);
      Positive(body.items) && body.items != [] && check.None? && run.failure.None? && !saveFails ==>
        && inv.stock == Reduced(old(inv.stock), body.items)
        && id !in old(db.orders)
        && db.orders == old(db.orders)[id := NewOrder(body, Total(inv.products, body.items), now)]
        && db.items == old(db.items) + Rows(id, old(db.nextItemId), inv.products, body.items)
        && db.orders[id].total == LinesTotal(ItemsOf(db.items, id))
        && r.Ok? && r == GetOrder(db, inv, id)
    ensures var reserving := Positive(body.items) && body.items != []
                             && FirstCheckFailure(old(inv.products), old(inv.stock), body.items).None?;
            var run := AdjustRun(old(inv.products), old(inv.stock), body.items, false);
      && inv.published
         == (if !reserving then old(inv.published)
             else if run.failure.None? && saveFails
             then old(inv.published) + RunEvents(old(inv.products), old(inv.stock), body.items, false)
                  + ReleaseEvents(old(inv.products), run.stock, body.items)
             else old(inv.published) + RunEvents(old(inv.products), old(inv.stock), body.items, false))
      && inv.dropped
         == (if !reserving then old(inv.dropped)
             else if run.failure.None? && saveFails
             then old(inv.dropped) + RunDropped(old(inv.products), old(inv.stock), body.items, false)
                  + ReleaseDropped(old(inv.products), run.stock, body.items)
             else old(inv.dropped) + RunDropped(old(inv.products), old(inv.stock), body.items, false))
    ensures inv.nextId == old(inv.nextId) && (old(inv.Valid()) ==> inv.Valid())
  {
    if !Positive(body.items) {
      return Fail(422);
    }
    if body.items == [] {
      return Fail(400);
    }
    var failure, total := CheckItems(inv, body.items);
    if failure.Some? {
      return Fail(failure.value);
    }
    var reserveFailure, done := ReserveItems(inv, body.items);
    if reserveFailure.Some? {
      return Fail(reserveFailure.value);
    }
    ReserveRunSpec(old(inv.products), old(inv.stock), body.items);
    ReleaseUndoesReserve(old(inv.products), old(inv.stock), body.items);
    NewOrderRows(db.items, db.nextOrderId, db.nextItemId, inv.products, body.items);
    r := SaveOrder(db, inv, body, total, saveFails, now);
  }

  /** `create_order` corrected: a refused reservation releases the reservations made before
      it, so every failure leaves the stock as it was. */
  method CreateOrderAtomic(db: OrderDb, inv: InventoryDb, body: OrderCreate, saveFails: bool, now: Time)
    returns (r: Outcome<OrderOut>)
    requires db.Valid()
    modifies db, inv
    ensures db.Valid() && inv.products == old(inv.products)
    ensures r.Fail? ==> unchanged(db) && inv.stock == old(inv.stock)
    ensures r.Ok? <==>
      && Positive(body.items) && body.items != []
      && FirstCheckFailure(old(inv.products), old(inv.stock), body.items).None?
      && Reservable(old(inv.products), old(inv.stock), body.items)
      && !saveFails
    ensures r.Ok? ==>
      var id := old(db.nextOrderId);
      && inv.stock == Reduced(old(inv.stock), body.items)
      && id !in old(db.orders)
      && db.orders == old(db.orders)[id := NewOrder(body, Total(inv.products, body.items), now)]
      && db.items == old(db.items) + Rows(id, old(db.nextItemId), inv.products, body.items)
      && db.orders[id].total == LinesTotal(ItemsOf(db.items, id))
      && r == GetOrder(db, inv, id)
    ensures var reserving := Positive(body.items) && body.items != []
                             && FirstCheckFailure(old(inv.products), old(inv.stock), body.items).None?;
            var run := AdjustRun(old(inv.products), old(inv.stock), body.items, false);
      && inv.published
         == (if !reserving then old(inv.published)
             else if run.failure.Some?
             then old(inv.published) + RunEvents(old(inv.products), old(inv.stock), body.items, false)
                  + ReleaseEvents(old(inv.products), run.stock, body.items[..run.done])
             else if saveFails
             then old(inv.published) + RunEvents(old(inv.products), old(inv.stock), body.items, false)
                  + ReleaseEvents(old(inv.products), run.stock, body.items)
             else old(inv.published) + RunEvents(old(inv.products), old(inv.stock), body.items, false))
      && inv.dropped
         == (if !reserving then old(inv.dropped)
             else if run.failure.Some?
             then old(inv.dropped) + RunDropped(old(inv.products), old(inv.stock), body.items, false)
                  + ReleaseDropped(old(inv.products), run.stock, body.items[..run.done])
             else if saveFails
             then old(inv.dropped) + RunDropped(old(inv.products), old(inv.stock), body.items, false)
                  + ReleaseDropped(old(inv.products), run.stock, body.items)
             else old(inv.dropped) + RunDropped(old(inv.products), old(inv.stock), body.items, false))
    ensures inv.nextId == old(inv.nextId) && (old(inv.Valid()) ==> inv.Valid())
  {
    if !Positive(body.items) {
      return Fail(422);
    }
    if body.items == [] {
      return Fail(400);
    }
    var failure, total := CheckItems(inv, body.items);
    if failure.Some? {
      return Fail(failure.value);
    }
    ReserveRunSpec(old(inv.products), old(inv.stock), body.items);
    var reserveFailure, done := ReserveItems(inv, body.items);
    if reserveFailure.Some? {
      ReleaseUndoesPartialReserve(old(inv.products), old(inv.stock), body.items);
      ReleaseItems(inv, body.items[..done]);
      return Fail(reserveFailure.value);
    }
    ReleaseUndoesReserve(old(inv.products), old(inv.stock), body.items);
    NewOrderRows(db.items, db.nextOrderId, db.nextItemId, inv.products, body.items);
    r := SaveOrder(db, inv, body, total, saveFails, now);
  }

  // ---------------------------------------------------------------------------
  // update_order, update_order_status, get_order_workflow

  /** The order after an edit: each supplied field replaces the stored one. */
  function Edited(o: Order, body: OrderUpdate, now: Time): Order {
    o.(customerName := if body.customerName.Some? then body.customerName else o.customerName,
       customerEmail := if body.customerEmail.Some? then body.customerEmail else o.customerEmail,
       shippingAddress := if body.shippingAddress.Some? then body.shippingAddress else o.shippingAddress,
       notes := if body.notes.Some? then body.notes else o.notes,
       updatedAt := now)
  }

  /** An edit changes exactly the supplied fields (an empty string counts as supplied) and
      refreshes `updated_at`; status, total and the other timestamps stay. */
  lemma EditedChangesOnlySupplied(o: Order, body: OrderUpdate, now: Time)
    ensures var e := Edited(o, body, now);
      && e.status == o.status && e.total == o.total && e.createdAt == o.createdAt
      && e.paidAt == o.paidAt && e.shippedAt == o.shippedAt && e.updatedAt == now
      && e.customerName == (if body.customerName.None? then o.customerName else body.customerName)
      && e.customerEmail == (if body.customerEmail.None? then o.customerEmail else body.customerEmail)
      && e.shippingAddress == (if body.shippingAddress.None? then o.shippingAddress else body.shippingAddress)
      && e.notes == (if body.notes.None? then o.notes else body.notes)
  {
  }

  /** `update_order`: 404 for a missing order, 400 unless it is CREATED; otherwise the edit
      is stored and the order returned. */
  method UpdateOrder(db: OrderDb, inv: InventoryDb, orderId: int, body: OrderUpdate, now: Time)
    returns (r: Outcome<OrderOut>)
    modifies db
    ensures orderId !in old(db.orders) ==> r == Fail(404) && unchanged(db)
    ensures orderId in old(db.orders) && old(db.orders)[orderId].status != "CREATED" ==>
              r == Fail(400) && unchanged(db)
    ensures orderId in old(db.orders) && old(db.orders)[orderId].status == "CREATED" ==>
              && db.orders == old(db.orders)[orderId := Edited(old(db.orders)[orderId], body, now)]
              && r.Ok? && r == GetOrder(db, inv, orderId)
    ensures db.items == old(db.items) && db.nextOrderId == old(db.nextOrderId) && db.nextItemId == old(db.nextItemId)
    ensures old(db.Valid()) ==> db.Valid()
  {
    if orderId !in db.orders {
      return Fail(404);
    }
    var o := db.orders[orderId];
    if o.status != Workflow.Name(Workflow.Created) {
      return Fail(400);
    }
    db.orders := db.orders[orderId := Edited(o, body, now)];
    r := GetOrder(db, inv, orderId);
  }

  /** `update_order_status`: every refusal of the workflow, a missing order included, is 400;
      otherwise the updated order is returned. */
  method UpdateOrderStatus(db: OrderDb, inv: InventoryDb, orderId: int, body: StatusChange, now: Time, stamp: string)
    returns (r: Outcome<OrderOut>)
    modifies db
    ensures var u := Workflow.StatusUpdate(old(db.orders), orderId, body.status, body.notes, now, stamp);
      && (u.Failure? ==> r == Fail(400) && unchanged(db))
      && (u.Success? ==> db.orders == old(db.orders)[orderId := u.value] && r.Ok? && r == GetOrder(db, inv, orderId))
    ensures orderId !in old(db.orders) ==> r == Fail(400)
    ensures db.items == old(db.items) && db.nextOrderId == old(db.nextOrderId) && db.nextItemId == old(db.nextItemId)
    ensures old(db.Valid()) ==> db.Valid()
  {
    var u := Workflow.UpdateOrderStatus(db, orderId, body.status, body.notes, now, stamp);
    if u.Failure? {
      return Fail(400);
    }
    r := GetOrder(db, inv, orderId);
  }

  /** `get_order_workflow`: 404 for a missing order; a stored status that names no status
      escapes the handler (500); otherwise the workflow summary. */
  function GetOrderWorkflow(db: OrderDb, orderId: int): (r: Outcome<Workflow.WorkflowInfo>)
    reads db
    ensures r.Fail? <==> orderId !in db.orders || Workflow.Parse(db.orders[orderId].status).None?
    ensures r.Fail? ==> r.code == (if orderId !in db.orders then 404 else 500)
    ensures r.Ok? ==> r.value.id == orderId && r.value.currentStatus == db.orders[orderId].status
    ensures r.Ok? ==> Success(r.value.validTransitions) == Workflow.GetValidTransitions(db.orders[orderId].status)
  {
    if orderId !in db.orders then Fail(404)
    else
      match Workflow.GetOrderWorkflowInfo(orderId, db.orders[orderId])
      case Failure(_) => Fail(500)
      case Success(info) => Ok(info)
  }

  // ---------------------------------------------------------------------------
  // cancel_order

  /** The item rows of an order as quantities to hand back. */
  function Demands(lines: seq<OrderItem>): (r: seq<ItemIn>)
    ensures |r| == |lines|
    ensures forall i :: 0 <= i < |lines| ==> r[i].productId == lines[i].productId && r[i].qty == lines[i].qty
  {
    seq(|lines|, i requires 0 <= i < |lines| => ItemIn(lines[i].productId, lines[i].qty))
  }

  /** The statuses `cancel_order` lets through. */
  predicate MayCancel(status: string) {
    status == "CREATED" || status == "PAID"
  }

  const CancelNote := "Order cancelled by user"

  /** `cancel_order` as written: 404 for a missing order, 400 unless it is CREATED or PAID.
      Then each item row is released in turn, and only then is CANCELLED requested from
      the workflow; a refused release or a refused move is 500, with the releases made so far
      kept. For a PAID order the move is always refused (see `CancelPaidReleasesThenFails`). */
  method CancelOrder(db: OrderDb, inv: InventoryDb, orderId: int, now: Time, stamp: string)
    returns (r: Outcome<string>)
    modifies db, inv
    ensures orderId !in old(db.orders) ==> r == Fail(404) && unchanged(db) && inv.stock == old(inv.stock)
    ensures orderId in old(db.orders) && !MayCancel(old(db.orders)[orderId].status) ==>
              r == Fail(400) && unchanged(db) && inv.stock == old(inv.stock)
    ensures orderId in old(db.orders) && MayCancel(old(db.orders)[orderId].status) ==>
      var run := AdjustRun(old(inv.products), old(inv.stock), Demands(ItemsOf(old(db.items), orderId)), true);
      var u := Workflow.StatusUpdate(old(db.orders), orderId, "CANCELLED", Some(CancelNote), now, stamp);
      && inv.stock == run.stock
      && (run.failure.Some? || u.Failure? ==> r == Fail(500) && unchanged(db))
      && (run.failure.None? && u.Success? ==>
            r == Ok("Order cancelled successfully") && db.orders == old(db.orders)[orderId := u.value])
    ensures db.items == old(db.items) && db.nextOrderId == old(db.nextOrderId) && db.nextItemId == old(db.nextItemId)
    ensures var releasing := orderId in old(db.orders) && MayCancel(old(db.orders)[orderId].status);
            var demands := Demands(ItemsOf(old(db.items), orderId));
      && inv.published
         == (if releasing then old(inv.published) + RunEvents(old(inv.products), old(inv.stock), demands, true)
             else old(inv.published))
      && inv.dropped
         == (if releasing then old(inv.dropped) + RunDropped(old(inv.products), old(inv.stock), demands, true)
             else old(inv.dropped))
    ensures inv.products == old(inv.products) && inv.nextId == old(inv.nextId)
    ensures old(inv.Valid()) ==> inv.Valid()
  {
    if orderId !in db.orders {
      return Fail(404);
    }
    var o := db.orders[orderId];
    if !MayCancel(o.status) {
      return Fail(400);
    }
    var ok := ReleaseEach(inv, Demands(ItemsOf(db.items, orderId)));
    if !ok {
      return Fail(500);
    }
    var u := Workflow.UpdateOrderStatus(db, orderId, Workflow.Name(Workflow.Cancelled), Some(CancelNote), now, stamp);
    if u.Failure? {
      return Fail(500);
    }
    r := Ok("Order cancelled successfully");
  }

  /** The workflow never lets a PAID order move to CANCELLED. */
  lemma PaidCannotCancel(orders: map<int, Order>, orderId: int, note: Option<string>, now: Time, stamp: string)
    requires orderId in orders && orders[orderId].status == "PAID"
    ensures Workflow.StatusUpdate(orders, orderId, "CANCELLED", note, now, stamp).Failure?
  {
    Workflow.StatusUpdateSpec(orders, orderId, "CANCELLED", note, now, stamp);
  }

  /** A PAID order (id 7) with one item row of 2 units of product 3, whose row holds 5:
      the release succeeds and raises the row to 7, then the move to CANCELLED is refused,
      so `cancel_order` answers 500 with the order still PAID and the stock 2 units higher. */
  lemma CancelPaidReleasesThenFails(o: Order, p: Product, now: Time, stamp: string)
    requires o.status == "PAID"
    ensures var orders := map[7 := o];
            var items := [OrderItem(1, 7, 3, 2, 100)];
            var run := AdjustRun(map[3 := p], map[3 := 5], Demands(ItemsOf(items, 7)), true);
            && MayCancel(orders[7].status)
            && run == Run(map[3 := 7], None, 1)
            && Workflow.StatusUpdate(orders, 7, "CANCELLED", Some(CancelNote), now, stamp).Failure?
  {
    var items := [OrderItem(1, 7, 3, 2, 100)];
    assert ItemsOf(items, 7) == items by {
      assert items[1..] == [];
    }
    var d := Demands(items);
    assert d == [ItemIn(3, 2)];
    assert d[..0] == [];
    assert map[3 := 5][3 := 7] == map[3 := 7];
    PaidCannotCancel(map[7 := o], 7, Some(CancelNote), now, stamp);
  }

  /** Of the two statuses `cancel_order` lets through, the workflow moves only CREATED to
      CANCELLED. */
  lemma CancellableIsCreated(status: string)
    requires MayCancel(status)
    ensures Workflow.CanTransition(status, Workflow.Name(Workflow.Cancelled)) == Success(true) <==> status == "CREATED"
  {
  }

  /** `cancel_order` corrected: the workflow is asked before any stock is released, so an
      order the workflow will not cancel (a PAID one included) is refused with 400 and
      nothing changes. Stock is handed back only for an order that then becomes CANCELLED,
      unless a release itself is refused (500). */
  method CancelOrderChecked(db: OrderDb, inv: InventoryDb, orderId: int, now: Time, stamp: string)
    returns (r: Outcome<string>)
    modifies db, inv
    ensures orderId !in old(db.orders) ==> r == Fail(404)
    ensures orderId in old(db.orders) && old(db.orders)[orderId].status != "CREATED" ==> r == Fail(400)
    ensures r.Fail? && r.code != 500 ==> unchanged(db) && inv.stock == old(inv.stock)
    ensures r == Fail(500) ==> unchanged(db)
    ensures r.Ok? <==>
      && orderId in old(db.orders) && old(db.orders)[orderId].status == "CREATED"
      && AdjustRun(old(inv.products), old(inv.stock), Demands(ItemsOf(old(db.items), orderId)), true).failure.None?
    ensures r.Ok? ==>
      && inv.stock == AdjustRun(old(inv.products), old(inv.stock), Demands(ItemsOf(old(db.items), orderId)), true).stock
      && db.orders.Keys == old(db.orders).Keys
      && db.orders[orderId] == Workflow.StatusUpdated(old(db.orders)[orderId], "CANCELLED", Some(CancelNote), now, stamp)
      && db.orders[orderId].status == "CANCELLED"
      && forall id :: id in old(db.orders) && id != orderId ==> db.orders[id] == old(db.orders)[id]
    ensures db.items == old(db.items) && db.nextOrderId == old(db.nextOrderId) && db.nextItemId == old(db.nextItemId)
    ensures var releasing := orderId in old(db.orders) && old(db.orders)[orderId].status == "CREATED";
            var demands := Demands(ItemsOf(old(db.items), orderId));
      && inv.published
         == (if releasing then old(inv.published) + RunEvents(old(inv.products), old(inv.stock), demands, true)
             else old(inv.published))
      && inv.dropped
         == (if releasing then old(inv.dropped) + RunDropped(old(inv.products), old(inv.stock), demands, true)
             else old(inv.dropped))
    ensures inv.products == old(inv.products) && inv.nextId == old(inv.nextId)
    ensures old(inv.Valid()) ==> inv.Valid()
  {
    if orderId !in db.orders {
      return Fail(404);
    }
    var o := db.orders[orderId];
    if !MayCancel(o.status) {
      return Fail(400);
    }
    CancellableIsCreated(o.status);
    if Workflow.CanTransition(o.status, Workflow.Name(Workflow.Cancelled)) != Success(true) {
      return Fail(400);
    }
    var ok := ReleaseEach(inv, Demands(ItemsOf(db.items, orderId)));
    if !ok {
      return Fail(500);
    }
    Workflow.StatusUpdateSpec(db.orders, orderId, "CANCELLED", Some(CancelNote), now, stamp);
    var u := Workflow.UpdateOrderStatus(db, orderId, Workflow.Name(Workflow.Cancelled), Some(CancelNote), now, stamp);
    if u.Failure? {
      assert false;
    }
    r := Ok("Order cancelled successfully");
  }

  // ---------------------------------------------------------------------------
  // delete_order

  /** Removing one order's rows keeps every other order's rows, in order. */
  lemma {:induction false} WithoutOrderKeepsOthers(items: seq<OrderItem>, orderId: int, other: int)
    requires other != orderId
    ensures ItemsOf(WithoutOrder(items, orderId), other) == ItemsOf(items, other)
    ensures ItemsOf(WithoutOrder(items, orderId), orderId) == []
  {
    if items != [] {
      WithoutOrderKeepsOthers(items[1..], orderId, other);
      var head := if items[0].orderId != orderId then [items[0]] else [];
      ItemsOfAppend(head, WithoutOrder(items[1..], orderId), other);
      ItemsOfAppend(head, WithoutOrder(items[1..], orderId), orderId);
      assert ItemsOf(head, orderId) == [] by {
        if head != [] {
          assert head[1..] == [];
        }
      }
      assert ItemsOf(head, other) == (if items[0].orderId == other then [items[0]] else []) by {
        if head != [] {
          assert head[1..] == [];
        }
      }
    }
  }

  /** `delete_order`: 404 for a missing order, 400 for a SHIPPED one; any other status,
      including one that names no status, deletes the order and all its item rows. No stock
      is released. */
  method DeleteOrder(db: OrderDb, orderId: int) returns (r: Outcome<string>)
    modifies db
    ensures orderId !in old(db.orders) ==> r == Fail(404) && unchanged(db)
    ensures orderId in old(db.orders) && old(db.orders)[orderId].status == "SHIPPED" ==> r == Fail(400) && unchanged(db)
    ensures r.Ok? <==> orderId in old(db.orders) && old(db.orders)[orderId].status != "SHIPPED"
    ensures r.Ok? ==>
      && db.orders == old(db.orders) - {orderId}
      && db.items == WithoutOrder(old(db.items), orderId)
      && ItemsOf(db.items, orderId) == []
      && forall other :: other != orderId ==> ItemsOf(db.items, other) == ItemsOf(old(db.items), other)
    ensures db.nextOrderId == old(db.nextOrderId) && db.nextItemId == old(db.nextItemId)
    ensures old(db.Valid()) ==> db.Valid()
  {
    if orderId !in db.orders {
      return Fail(404);
    }
    if db.orders[orderId].status == Workflow.Name(Workflow.Shipped) {
      return Fail(400);
    }
    ghost var before := db.items;
    db.items := WithoutOrder(db.items, orderId);
    db.orders := db.orders - {orderId};
    forall other | other != orderId
      ensures ItemsOf(db.items, other) == ItemsOf(before, other)
    {
      WithoutOrderKeepsOthers(before, orderId, other);
    }
    WithoutOrderKeepsOthers(before, orderId, orderId + 1);
    r := Ok("Order deleted successfully");
  }
}
