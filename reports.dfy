/**
 * The figures the dashboard computes in the browser: the two stock alert
 * lists, the alert and stock-status counts of the dashboard and of the
 * inventory report, the per-status and per-customer tallies of the order
 * report with its five top customers, and the badge class of an order status.
 */
module Reports {
  import opened Common
  import opened Seqs
  import opened StableSort
  import opened ViewState
  import Workflow = OrderWorkflow

  // ---------------------------------------------------------------------------
  // Stock alerts and stock counts

  /** Out of stock: the stock (0 when missing) is 0. */
  predicate IsOut(p: ProductRow) { StockOf(p) == 0 }

  /** The counts' low stock: some stock left, at or below the safety stock. */
  predicate IsLow(p: ProductRow) { StockOf(p) > 0 && StockOf(p) <= SafetyOf(p) }

  /** The alert list's low stock: any stock other than 0 at or below the safety stock. */
  predicate IsLowAlert(p: ProductRow) { StockOf(p) != 0 && StockOf(p) <= SafetyOf(p) }

  /** What the inventory report counts as in stock: neither out nor low. */
  predicate IsRest(p: ProductRow) { !IsOut(p) && !IsLow(p) }

  const OutRows: ProductRow -> bool := p => IsOut(p)
  const LowRows: ProductRow -> bool := p => IsLow(p)
  const LowAlertRows: ProductRow -> bool := p => IsLowAlert(p)
  const RestRows: ProductRow -> bool := p => IsRest(p)
  const InStockRows: ProductRow -> bool := p => Classify(p) == InStock

  /** `loadStockAlerts`: one pass sorting each product into the out-of-stock list, the
      low-stock list or neither. The lists hold exactly the rows with the Out of Stock and
      the Low Stock badge, in their order, and together with the In Stock rows they
      account for every product once. */
  method StockAlerts(data: seq<ProductRow>) returns (outItems: seq<ProductRow>, lowItems: seq<ProductRow>)
    ensures outItems == Filter(OutRows, data) && lowItems == Filter(LowAlertRows, data)
    ensures forall p :: p in outItems <==> p in data && Classify(p) == OutOfStock
    ensures forall p :: p in lowItems <==> p in data && Classify(p) == LowStock
    ensures |outItems| + |lowItems| + |Filter(InStockRows, data)| == |data|
  {
    outItems := [];
    lowItems := [];
    var i := 0;
    while i < |data|
      invariant 0 <= i <= |data|
      invariant outItems == Filter(OutRows, data[..i])
      invariant lowItems == Filter(LowAlertRows, data[..i])
    {
      var product := data[i];
      assert data[..i + 1] == data[..i] + [product];
      FilterAppend(OutRows, data[..i], [product]);
      FilterAppend(LowAlertRows, data[..i], [product]);
      assert [product][1..] == [];
      var stock := product.stock.GetOr(0);
      var safetyStock := product.safetyStock.GetOr(0);
      if stock == 0 {
        outItems := outItems + [product];
      } else if stock <= safetyStock {
        lowItems := lowItems + [product];
      }
      i := i + 1;
    }
    assert data[..|data|] == data;
    forall p ensures p in outItems <==> p in data && Classify(p) == OutOfStock {
      FilterMembership(OutRows, data, p);
    }
    forall p ensures p in lowItems <==> p in data && Classify(p) == LowStock {
      FilterMembership(LowAlertRows, data, p);
    }
    FilterPartition3(OutRows, LowAlertRows, InStockRows, data);
  }

  /** `totalStockAlerts` of the dashboard: the out-of-stock count plus the low-stock count.
      The remaining products are the ones the inventory report calls in stock. */
  function AlertCount(products: seq<ProductRow>): (n: nat)
    ensures n + |Filter(RestRows, products)| == |products|
  {
    FilterPartition3(OutRows, LowRows, RestRows, products);
    |Filter(OutRows, products)| + |Filter(LowRows, products)|
  }

  /** `inStockCount` of the inventory report: the products minus the out-of-stock and
      low-stock counts. It counts exactly the products that are neither, so it is never
      negative. */
  function InStockCount(products: seq<ProductRow>): (n: int)
    ensures n == |Filter(RestRows, products)| && n >= 0
  {
    FilterPartition3(OutRows, LowRows, RestRows, products);
    |products| - |Filter(OutRows, products)| - |Filter(LowRows, products)|
  }

  /** With no negative stock, the counts agree with the badges and the alert lists: the
      alert count is the length of both lists together and the in-stock count is the
      number of In Stock badges. */
  lemma CountsMatchBadges(products: seq<ProductRow>)
    requires forall i :: 0 <= i < |products| ==> StockOf(products[i]) >= 0
    ensures AlertCount(products) == |Filter(OutRows, products)| + |Filter(LowAlertRows, products)|
    ensures InStockCount(products) == |Filter(InStockRows, products)|
  {
    FilterAgree(LowRows, LowAlertRows, products);
    FilterAgree(RestRows, InStockRows, products);
  }

  /** A negative stock breaks that agreement: the row is listed as a low-stock alert, yet
      the alert count leaves it out and the inventory report counts it as in stock. */
  lemma NegativeStockMiscounted(p: ProductRow)
    requires p.stock == Some(-1) && p.safetyStock == Some(0)
    ensures Filter(LowAlertRows, [p]) == [p] && Classify(p) == LowStock
    ensures AlertCount([p]) == 0 && InStockCount([p]) == 1
  {
    assert [p][1..] == [];
    assert Filter(OutRows, [p]) == [];
    assert Filter(LowRows, [p]) == [];
  }

  // ---------------------------------------------------------------------------
  // Order report

  /** An order as the order list hands it to the page. */
  datatype OrderRow = OrderRow(status: string, total: int, customerName: Option<string>)

  /** The value kept per key: how many orders and the sum of their totals. */
  datatype Tally = Tally(count: nat, total: int)

  /** A JavaScript object used as a dictionary: entries in the order their keys first
      appeared. */
  type Table = seq<(string, Tally)>

  /** The entry under `k`, or an empty tally when there is none. */
  function Lookup(t: Table, k: string): Tally {
    if t == [] then Tally(0, 0) else if t[0].0 == k then t[0].1 else Lookup(t[1..], k)
  }

  predicate HasKey(t: Table, k: string) {
    exists i :: 0 <= i < |t| && t[i].0 == k
  }

  predicate DistinctKeys(t: Table) {
    forall i, j :: 0 <= i < j < |t| ==> t[i].0 != t[j].0
  }

  function CountSum(t: Table): nat {
    if t == [] then 0 else t[0].1.count + CountSum(t[1..])
  }

  function TotalSum(t: Table): int {
    if t == [] then 0 else t[0].1.total + TotalSum(t[1..])
  }

  /** `acc[k].count++; acc[k].total += amount`, creating the entry at the end when missing. */
  function Add(t: Table, k: string, amount: int): Table {
    if t == [] then [(k, Tally(1, amount))]
    else if t[0].0 == k then [(k, Tally(t[0].1.count + 1, t[0].1.total + amount))] + t[1..]
    else [t[0]] + Add(t[1..], k, amount)
  }

  /** Adding to a present key keeps every key in place; adding a new one appends it. */
  lemma {:induction false} AddShape(t: Table, k: string, amount: int)
    ensures HasKey(t, k) ==> |Add(t, k, amount)| == |t| && forall i :: 0 <= i < |t| ==> Add(t, k, amount)[i].0 == t[i].0
    ensures !HasKey(t, k) ==> Add(t, k, amount) == t + [(k, Tally(1, amount))]
  {
    if t != [] && t[0].0 != k {
      AddShape(t[1..], k, amount);
      if HasKey(t, k) {
        var i :| 0 <= i < |t| && t[i].0 == k;
        assert t[1..][i - 1].0 == k;
        var r := Add(t, k, amount);
        forall i | 0 <= i < |t| ensures r[i].0 == t[i].0 {
          if i > 0 {
            assert r[i] == Add(t[1..], k, amount)[i - 1];
          }
        }
      } else {
        assert [t[0]] + (t[1..] + [(k, Tally(1, amount))]) == t + [(k, Tally(1, amount))];
      }
    } else if t != [] {
      assert HasKey(t, k) by { assert t[0].0 == k; }
    }
  }

  /** Adding changes only the tally under `k`, by one order of that amount. */
  lemma {:induction false} AddLookup(t: Table, k: string, amount: int, j: string)
    ensures Lookup(Add(t, k, amount), j) ==
            if j == k then Tally(Lookup(t, k).count + 1, Lookup(t, k).total + amount) else Lookup(t, j)
  {
    if t != [] && t[0].0 != k {
      AddLookup(t[1..], k, amount, j);
    }
  }

  lemma {:induction false} AddSums(t: Table, k: string, amount: int)
    ensures CountSum(Add(t, k, amount)) == CountSum(t) + 1
    ensures TotalSum(Add(t, k, amount)) == TotalSum(t) + amount
  {
    if t != [] && t[0].0 != k {
      AddSums(t[1..], k, amount);
    }
  }

  /** Adding keeps the keys distinct and adds exactly the key `k`. */
  lemma AddKeys(t: Table, k: string, amount: int)
    requires DistinctKeys(t)
    ensures DistinctKeys(Add(t, k, amount))
    ensures forall j :: HasKey(Add(t, k, amount), j) <==> j == k || HasKey(t, j)
  {
    AddShape(t, k, amount);
    var r := Add(t, k, amount);
    if HasKey(t, k) {
      forall j ensures HasKey(r, j) <==> j == k || HasKey(t, j) {
        if HasKey(r, j) {
          var i :| 0 <= i < |r| && r[i].0 == j;
          assert t[i].0 == j;
        }
        if HasKey(t, j) {
          var i :| 0 <= i < |t| && t[i].0 == j;
          assert r[i].0 == j;
        }
      }
    } else {
      assert r[|t|].0 == k;
      forall j ensures HasKey(r, j) <==> j == k || HasKey(t, j) {
        if HasKey(r, j) {
          var i :| 0 <= i < |r| && r[i].0 == j;
          if i < |t| {
            assert t[i].0 == j;
          }
        }
        if HasKey(t, j) {
          var i :| 0 <= i < |t| && t[i].0 == j;
          assert r[i].0 == j;
        }
      }
    }
  }

  /** The sum of the order totals (`totalRevenue`). */
  function SumTotals(orders: seq<OrderRow>): int {
    if orders == [] then 0 else SumTotals(orders[..|orders| - 1]) + orders[|orders| - 1].total
  }

  /** `orders.reduce(...)` into a dictionary keyed by `key`, one order at a time. */
  function GroupBy(orders: seq<OrderRow>, key: OrderRow -> string): Table {
    if orders == [] then []
    else
      var n := |orders| - 1;
      Add(GroupBy(orders[..n], key), key(orders[n]), orders[n].total)
  }

  /** The orders whose key is `k`. */
  function KeyIs(key: OrderRow -> string, k: string): OrderRow -> bool {
    o => key(o) == k
  }

  /** Some order has the key `k`. */
  predicate Occurs(orders: seq<OrderRow>, key: OrderRow -> string, k: string) {
    exists i :: 0 <= i < |orders| && key(orders[i]) == k
  }

  /** The grouping holds each key once, exactly the keys of the orders, and together the
      entries count every order once and add up to the revenue. */
  lemma {:induction false} GroupByShape(orders: seq<OrderRow>, key: OrderRow -> string)
    ensures DistinctKeys(GroupBy(orders, key))
    ensures forall k :: HasKey(GroupBy(orders, key), k) <==> exists i :: 0 <= i < |orders| && key(orders[i]) == k
    ensures CountSum(GroupBy(orders, key)) == |orders|
    ensures TotalSum(GroupBy(orders, key)) == SumTotals(orders)
  {
    if orders != [] {
      var n := |orders| - 1;
      var init := orders[..n];
      GroupByShape(init, key);
      AddKeys(GroupBy(init, key), key(orders[n]), orders[n].total);
      AddSums(GroupBy(init, key), key(orders[n]), orders[n].total);
      forall k ensures Occurs(orders, key, k) <==> k == key(orders[n]) || Occurs(init, key, k) {
        if exists i :: 0 <= i < |orders| && key(orders[i]) == k {
          var i :| 0 <= i < |orders| && key(orders[i]) == k;
          if i < n {
            assert key(init[i]) == k;
          }
        }
        if exists i :: 0 <= i < |init| && key(init[i]) == k {
          var i :| 0 <= i < |init| && key(init[i]) == k;
          assert key(orders[i]) == k;
        }
      }
    }
  }

  /** The entry under each key counts the orders with that key and sums their totals. */
  lemma {:induction false} GroupByLookup(orders: seq<OrderRow>, key: OrderRow -> string, k: string)
    ensures Lookup(GroupBy(orders, key), k) ==
            Tally(|Filter(KeyIs(key, k), orders)|, SumTotals(Filter(KeyIs(key, k), orders)))
  {
    if orders != [] {
      var n := |orders| - 1;
      var init := orders[..n];
      var last := orders[n];
      GroupByLookup(init, key, k);
      AddLookup(GroupBy(init, key), key(last), last.total, k);
      assert orders == init + [last];
      FilterSnoc(KeyIs(key, k), init, last);
      var f := Filter(KeyIs(key, k), init);
      assert GroupBy(orders, key) == Add(GroupBy(init, key), key(last), last.total);
      if key(last) == k {
        assert KeyIs(key, k)(last);
        SumTotalsSnoc(f, last);
        assert Filter(KeyIs(key, k), orders) == f + [last];
      } else {
        assert Filter(KeyIs(key, k), orders) == f;
      }
    }
  }

  lemma SumTotalsSnoc(orders: seq<OrderRow>, last: OrderRow)
    ensures SumTotals(orders + [last]) == SumTotals(orders) + last.total
  {
    assert (orders + [last])[..|orders|] == orders;
  }

  const StatusKey: OrderRow -> string := (o: OrderRow) => o.status

  /** `acc[customer]` for a customer name: a missing name becomes the key "null". */
  function CustomerKey(o: OrderRow): string {
    o.customerName.GetOr("null")
  }

  const ByCustomer: OrderRow -> string := o => CustomerKey(o)

  /** `statusCounts`: for each status present, the number of orders in it. */
  function StatusCounts(orders: seq<OrderRow>): (t: Table)
    ensures DistinctKeys(t) && CountSum(t) == |orders|
    ensures forall s :: HasKey(t, s) <==> exists i :: 0 <= i < |orders| && orders[i].status == s
  {
    GroupByShape(orders, StatusKey);
    GroupBy(orders, StatusKey)
  }

  /** Each status's count is the number of orders in that status. */
  lemma StatusCountsCount(orders: seq<OrderRow>, s: string)
    ensures Lookup(StatusCounts(orders), s).count == |Filter(KeyIs(StatusKey, s), orders)|
  {
    GroupByLookup(orders, StatusKey, s);
  }

  /** The names every JavaScript object inherits from `Object.prototype`. For such a
      name `acc[customer]` is already truthy, so `customerOrders` never gets an entry of
      its own for it and the order's count and total land on the inherited value. */
  const InheritedNames: set<string> := {
    "constructor", "hasOwnProperty", "isPrototypeOf", "propertyIsEnumerable",
    "toLocaleString", "toString", "valueOf", "__proto__",
    "__defineGetter__", "__defineSetter__", "__lookupGetter__", "__lookupSetter__"
  }

  /** The orders whose customer is not one of the names `inherited`. */
  function OwnCustomer(inherited: set<string>): OrderRow -> bool {
    (o: OrderRow) => CustomerKey(o) !in inherited
  }

  /** The customers of the orders kept are exactly the customers outside `inherited`;
      when no order is left out, no order is lost. */
  lemma OwnCustomersOccur(orders: seq<OrderRow>, inherited: set<string>)
    ensures forall c :: Occurs(Filter(OwnCustomer(inherited), orders), ByCustomer, c) <==>
              c !in inherited && exists i :: 0 <= i < |orders| && CustomerKey(orders[i]) == c
    ensures (forall i :: 0 <= i < |orders| ==> CustomerKey(orders[i]) !in inherited) ==>
              Filter(OwnCustomer(inherited), orders) == orders
  {
    var own := Filter(OwnCustomer(inherited), orders);
    forall c ensures Occurs(own, ByCustomer, c) <==>
                     c !in inherited && exists i :: 0 <= i < |orders| && CustomerKey(orders[i]) == c {
      if Occurs(own, ByCustomer, c) {
        var i :| 0 <= i < |own| && ByCustomer(own[i]) == c;
        FilterMembership(OwnCustomer(inherited), orders, own[i]);
        var j :| 0 <= j < |orders| && orders[j] == own[i];
      }
      if c !in inherited && exists i :: 0 <= i < |orders| && CustomerKey(orders[i]) == c {
        var i :| 0 <= i < |orders| && CustomerKey(orders[i]) == c;
        FilterMembership(OwnCustomer(inherited), orders, orders[i]);
        var j :| 0 <= j < |own| && own[j] == orders[i];
        assert ByCustomer(own[j]) == c;
      }
    }
    if forall i :: 0 <= i < |orders| ==> CustomerKey(orders[i]) !in inherited {
      FilterAll(OwnCustomer(inherited), orders);
    }
  }

  /** Grouping the orders of customers outside `inherited` gives entries for exactly those
      customers. */
  lemma OwnCustomers(orders: seq<OrderRow>, inherited: set<string>)
    ensures forall c :: HasKey(GroupBy(Filter(OwnCustomer(inherited), orders), ByCustomer), c) <==>
              c !in inherited && exists i :: 0 <= i < |orders| && CustomerKey(orders[i]) == c
  {
    var own := Filter(OwnCustomer(inherited), orders);
    GroupByShape(own, ByCustomer);
    OwnCustomersOccur(orders, inherited);
    forall c ensures HasKey(GroupBy(own, ByCustomer), c) <==> Occurs(own, ByCustomer, c) {
    }
  }

  /** The entry of a customer outside `inherited` counts and sums exactly that customer's
      orders; a customer in `inherited` has no entry. */
  lemma OwnCustomerEntry(orders: seq<OrderRow>, inherited: set<string>, c: string)
    ensures var t := GroupBy(Filter(OwnCustomer(inherited), orders), ByCustomer);
      && (c !in inherited ==>
            Lookup(t, c) == Tally(|Filter(KeyIs(ByCustomer, c), orders)|, SumTotals(Filter(KeyIs(ByCustomer, c), orders))))
      && (c in inherited ==> Lookup(t, c) == Tally(0, 0))
  {
    var own := Filter(OwnCustomer(inherited), orders);
    GroupByLookup(own, ByCustomer, c);
    if c in inherited {
      FilterDisjoint(KeyIs(ByCustomer, c), OwnCustomer(inherited), orders);
    } else {
      FilterWithin(KeyIs(ByCustomer, c), OwnCustomer(inherited), orders);
    }
  }

  /** `customerOrders`: per customer, the number of orders and the sum of their totals.
      Orders of a customer named like an inherited property add no entry. */
  function CustomerTotals(orders: seq<OrderRow>): (t: Table)
    ensures var own := Filter(OwnCustomer(InheritedNames), orders);
      && DistinctKeys(t)
      && CountSum(t) == |own| && TotalSum(t) == SumTotals(own)
    ensures (forall i :: 0 <= i < |orders| ==> CustomerKey(orders[i]) !in InheritedNames) ==>
              CountSum(t) == |orders| && TotalSum(t) == SumTotals(orders)
    ensures forall c :: HasKey(t, c) <==>
              c !in InheritedNames && exists i :: 0 <= i < |orders| && CustomerKey(orders[i]) == c
  {
    var own := Filter(OwnCustomer(InheritedNames), orders);
    GroupByShape(own, ByCustomer);
    OwnCustomersOccur(orders, InheritedNames);
    OwnCustomers(orders, InheritedNames);
    GroupBy(own, ByCustomer)
  }

  /** Each customer's entry counts and sums exactly that customer's orders; a customer
      named like an inherited property reads as no orders at all. */
  lemma CustomerTotalsEntry(orders: seq<OrderRow>, c: string)
    ensures c !in InheritedNames ==>
              Lookup(CustomerTotals(orders), c) ==
              Tally(|Filter(KeyIs(ByCustomer, c), orders)|, SumTotals(Filter(KeyIs(ByCustomer, c), orders)))
    ensures c in InheritedNames ==> Lookup(CustomerTotals(orders), c) == Tally(0, 0)
  {
    OwnCustomerEntry(orders, InheritedNames, c);
  }

  /** An order whose customer is named like an inherited property leaves the customer
      tally as it was: that customer never reaches the top customers. */
  lemma {:induction false} InheritedCustomerIgnored(orders: seq<OrderRow>, o: OrderRow)
    requires CustomerKey(o) in InheritedNames
    ensures CustomerTotals(orders + [o]) == CustomerTotals(orders)
  {
    var own := OwnCustomer(InheritedNames);
    FilterAppend(own, orders, [o]);
    assert Filter(own, [o]) == [];
    assert Filter(own, orders + [o]) == Filter(own, orders);
  }

  /** The comparator `b[1].total - a[1].total`: larger totals first. */
  const ByTotal: ((string, Tally)) -> Key := (e: (string, Tally)) => Num(e.1.total)

  /** `topCustomers`: the customer entries sorted by total, largest first, at most five. */
  function TopCustomers(orders: seq<OrderRow>): seq<(string, Tally)> {
    var sorted := SortBy(ByTotal, true, CustomerTotals(orders));
    if |sorted| <= 5 then sorted else sorted[..5]
  }

  /** The top customers are the first entries of a permutation of all customer entries
      sorted by total, largest first: at most five, non-increasing, and no customer left
      out has a larger total than one shown. */
  lemma TopCustomersSpec(orders: seq<OrderRow>)
    ensures var all := CustomerTotals(orders);
            var sorted := SortBy(ByTotal, true, all);
            var top := TopCustomers(orders);
      && multiset(sorted) == multiset(all)
      && |top| == (if |all| <= 5 then |all| else 5)
      && top == sorted[..|top|]
      && (forall i, j :: 0 <= i < j < |top| ==> top[j].1.total <= top[i].1.total)
      && (forall i, j :: 0 <= i < |top| <= j < |sorted| ==> sorted[j].1.total <= top[i].1.total)
  {
    var all := CustomerTotals(orders);
    var sorted := SortBy(ByTotal, true, all);
    SortByPermutation(ByTotal, true, all);
    SortByLength(ByTotal, true, all);
    SortBySorted(ByTotal, true, all);
    forall i, j | 0 <= i < j < |sorted| ensures sorted[j].1.total <= sorted[i].1.total {
      assert !Before(ByTotal, true, sorted[j], sorted[i]);
    }
  }

  // ---------------------------------------------------------------------------
  // Order status badges

  /** `getStatusClass`: the badge class of an order status. */
  function StatusClass(status: string): (c: string)
    ensures c == "bg-secondary" <==> status !in ["CREATED", "PAID", "SHIPPED", "CANCELLED"]
  {
    if status == "CREATED" then "bg-primary"
    else if status == "PAID" then "bg-success"
    else if status == "SHIPPED" then "bg-info"
    else if status == "CANCELLED" then "bg-danger"
    else "bg-secondary"
  }

  /** Of the workflow's statuses, only REFUNDED has no colour of its own; the four others
      each get a different one. */
  lemma StatusClassOfWorkflow(s: Workflow.OrderStatus, t: Workflow.OrderStatus)
    ensures StatusClass(Workflow.Name(s)) == "bg-secondary" <==> s == Workflow.Refunded
    ensures s != t && s != Workflow.Refunded && t != Workflow.Refunded ==>
              StatusClass(Workflow.Name(s)) != StatusClass(Workflow.Name(t))
  {
  }
}
