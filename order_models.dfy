/**
 * The order service's tables: `orders` and `order_items`, held by one
 * session object. The store hands out ids the way the auto-increment
 * primary keys do.
 */
module OrderModels {
  import opened Common
  import opened Seqs

  /** A clock reading supplied by the caller (the service reads the Sydney wall clock). */
  type Time = nat

  /** One row of `orders`. `status` is free text in the table; the workflow parses it. */
  datatype Order = Order(
    status: string,
    total: int,                       // cents
    customerName: Option<string>,
    customerEmail: Option<string>,
    shippingAddress: Option<string>,
    notes: Option<string>,
    createdAt: Time,
    updatedAt: Time,
    paidAt: Option<Time>,
    shippedAt: Option<Time>)

  /** One row of `order_items`: `unitPrice` is the product price when the order was placed. */
  datatype OrderItem = OrderItem(id: int, orderId: int, productId: int, qty: int, unitPrice: int)

  class OrderDb {
    var orders: map<int, Order>
    var items: seq<OrderItem>       // table rows in insertion order
    var nextOrderId: int
    var nextItemId: int

    /** Every id handed out so far lies below the next one; item rows only name
        order ids already handed out. */
    ghost predicate Valid()
      reads this
    {
      && (forall id :: id in orders ==> id < nextOrderId)
      && (forall i :: 0 <= i < |items| ==> items[i].id < nextItemId && items[i].orderId < nextOrderId)
    }

    constructor ()
      ensures Valid() && orders == map[] && items == []
    {
      orders := map[];
      items := [];
      nextOrderId := 1;
      nextItemId := 1;
    }
  }

  /** The rows of order `orderId`. */
  function InOrder(orderId: int): OrderItem -> bool {
    (it: OrderItem) => it.orderId == orderId
  }

  /** The rows of every other order. */
  function OutsideOrder(orderId: int): OrderItem -> bool {
    (it: OrderItem) => it.orderId != orderId
  }

  /** The rows of `order_items` that belong to order `orderId`, in table order. */
  function ItemsOf(items: seq<OrderItem>, orderId: int): (r: seq<OrderItem>)
    ensures r == Filter(InOrder(orderId), items)
    ensures |r| <= |items|
    ensures forall i :: 0 <= i < |r| ==> r[i].orderId == orderId && r[i] in items
    ensures forall it :: it in items && it.orderId == orderId ==> it in r
  {
    if items == [] then []
    else (if items[0].orderId == orderId then [items[0]] else []) + ItemsOf(items[1..], orderId)
  }

  /** `order_items` with the rows of order `orderId` removed (the bulk delete). */
  function WithoutOrder(items: seq<OrderItem>, orderId: int): (r: seq<OrderItem>)
    ensures r == Filter(OutsideOrder(orderId), items)
    ensures forall it :: it in r <==> it in items && it.orderId != orderId
  {
    if items == [] then []
    else (if items[0].orderId != orderId then [items[0]] else []) + WithoutOrder(items[1..], orderId)
  }

  /** How many rows of `order_items` name product `productId` (`SELECT COUNT(*) ... WHERE product_id = :pid`). */
  function CountReferences(items: seq<OrderItem>, productId: int): (n: nat)
    ensures n == 0 <==> forall it :: it in items ==> it.productId != productId
  {
    if items == [] then 0
    else (if items[0].productId == productId then 1 else 0) + CountReferences(items[1..], productId)
  }

  /** Sum of the subtotals `unit_price * qty` of some item rows. */
  function LinesTotal(lines: seq<OrderItem>): int {
    if lines == [] then 0
    else LinesTotal(lines[..|lines| - 1]) + lines[|lines| - 1].unitPrice * lines[|lines| - 1].qty
  }

  /** Selecting one order's rows distributes over appending rows. */
  lemma {:induction false} ItemsOfAppend(a: seq<OrderItem>, b: seq<OrderItem>, orderId: int)
    ensures ItemsOf(a + b, orderId) == ItemsOf(a, orderId) + ItemsOf(b, orderId)
  {
    if a == [] {
      assert a + b == b;
    } else {
      assert (a + b)[0] == a[0];
      assert (a + b)[1..] == a[1..] + b;
      ItemsOfAppend(a[1..], b, orderId);
    }
  }

  /** Rows of other orders contribute nothing; rows all of one order are kept whole. */
  lemma {:induction false} ItemsOfNone(items: seq<OrderItem>, orderId: int)
    requires forall i :: 0 <= i < |items| ==> items[i].orderId != orderId
    ensures ItemsOf(items, orderId) == []
  {
    if items != [] {
      ItemsOfNone(items[1..], orderId);
    }
  }

  lemma {:induction false} ItemsOfAll(items: seq<OrderItem>, orderId: int)
    requires forall i :: 0 <= i < |items| ==> items[i].orderId == orderId
    ensures ItemsOf(items, orderId) == items
  {
    if items != [] {
      ItemsOfAll(items[1..], orderId);
      assert [items[0]] + items[1..] == items;
    }
  }
}
