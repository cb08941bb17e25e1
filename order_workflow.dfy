/**
 * The order status workflow: five statuses, a fixed transition table, the
 * guarded status update and the workflow summary of an order.
 * Statuses are stored as text; parsing text that names no status is the
 * `ValueError` the service raises.
 */
module OrderWorkflow {
  import opened Common
  import opened OrderModels

  datatype OrderStatus = Created | Paid | Shipped | Cancelled | Refunded

  /** The stored text of a status (the enum's value). */
  function Name(s: OrderStatus): string {
    match s
    case Created => "CREATED"
    case Paid => "PAID"
    case Shipped => "SHIPPED"
    case Cancelled => "CANCELLED"
    case Refunded => "REFUNDED"
  }

  /** `OrderStatus(text)`: the status named by `text`, or none (a `ValueError`). */
  function Parse(text: string): (r: Option<OrderStatus>)
    ensures r.Some? ==> Name(r.value) == text
    ensures r.None? ==> forall s: OrderStatus :: Name(s) != text
  {
    if text == "CREATED" then Some(Created)
    else if text == "PAID" then Some(Paid)
    else if text == "SHIPPED" then Some(Shipped)
    else if text == "CANCELLED" then Some(Cancelled)
    else if text == "REFUNDED" then Some(Refunded)
    else None
  }

  lemma ParseName(s: OrderStatus)
    ensures Parse(Name(s)) == Some(s)
  {
  }

  /** The transition table: the statuses each status may move to, in table order. */
  function Transitions(s: OrderStatus): seq<OrderStatus> {
    match s
    case Created => [Paid, Cancelled]
    case Paid => [Shipped, Refunded]
    case Shipped => [Refunded]
    case Cancelled => []
    case Refunded => []
  }

  /** One allowed move of the workflow. */
  predicate Step(from: OrderStatus, to: OrderStatus) {
    to in Transitions(from)
  }

  datatype WorkflowError =
    | OrderNotFound(id: int)
    | NotAStatus(text: string)
    | TransitionRefused(from: string, to: string, valid: seq<string>)

  function Names(ss: seq<OrderStatus>): (r: seq<string>)
    ensures |r| == |ss| && forall i :: 0 <= i < |ss| ==> r[i] == Name(ss[i])
  {
    if ss == [] then [] else [Name(ss[0])] + Names(ss[1..])
  }

  /** `can_transition`: the current status is parsed first, then the target. */
  function CanTransition(current: string, target: string): (r: Result<bool, WorkflowError>)
    ensures r.Failure? <==> Parse(current).None? || Parse(target).None?
    ensures r.Failure? ==> r.error == NotAStatus(if Parse(current).None? then current else target)
    ensures r.Success? ==> (r.value <==> Step(Parse(current).value, Parse(target).value))
  {
    match Parse(current)
    case None => Failure(NotAStatus(current))
    case Some(c) =>
      match Parse(target)
      case None => Failure(NotAStatus(target))
      case Some(t) => Success(t in Transitions(c))
  }

  /** `get_valid_transitions`: the texts of the statuses the current one may move to. */
  function GetValidTransitions(current: string): (r: Result<seq<string>, WorkflowError>)
    ensures r.Failure? <==> Parse(current).None?
    ensures r.Failure? ==> r.error == NotAStatus(current)
  {
    match Parse(current)
    case None => Failure(NotAStatus(current))
    case Some(c) => Success(Names(Transitions(c)))
  }

  /** The table is exactly CREATED->{PAID, CANCELLED}, PAID->{SHIPPED, REFUNDED},
      SHIPPED->{REFUNDED}; CANCELLED and REFUNDED are terminal. */
  lemma TransitionTableExact(from: OrderStatus, to: OrderStatus)
    ensures Step(from, to) <==>
      || (from == Created && (to == Paid || to == Cancelled))
      || (from == Paid && (to == Shipped || to == Refunded))
      || (from == Shipped && to == Refunded)
  {
  }

  /** `can_transition(c, t)` holds iff `t` is listed by `get_valid_transitions(c)`;
      both refuse a current status that names no status. */
  lemma CanTransitionIffListed(current: string, target: string)
    ensures CanTransition(current, target) == Success(true) <==>
            GetValidTransitions(current).Success? && target in GetValidTransitions(current).value
    ensures Parse(current).None? ==> CanTransition(current, target).Failure? && GetValidTransitions(current).Failure?
  {
    if GetValidTransitions(current).Success? && target in GetValidTransitions(current).value {
      var c := Parse(current).value;
      var ns := Names(Transitions(c));
      var i :| 0 <= i < |ns| && ns[i] == target;
      assert Parse(target) == Some(Transitions(c)[i]) by {
        ParseName(Transitions(c)[i]);
      }
    }
  }

  /** A rank that every allowed move raises: the table has no self-loops and no cycles. */
  function Rank(s: OrderStatus): (n: nat)
    ensures n <= 3
  {
    match s
    case Created => 0
    case Paid => 1
    case Shipped => 2
    case Cancelled => 3
    case Refunded => 3
  }

  lemma StepRaisesRank(from: OrderStatus, to: OrderStatus)
    requires Step(from, to)
    ensures Rank(from) < Rank(to)
  {
  }

  /** A history of statuses in which every consecutive pair is an allowed move. */
  predicate IsRun(p: seq<OrderStatus>) {
    forall i :: 0 < i < |p| ==> Step(p[i - 1], p[i])
  }

  lemma {:induction false} RunRaisesRank(p: seq<OrderStatus>)
    requires |p| > 0 && IsRun(p)
    ensures Rank(p[|p| - 1]) >= Rank(p[0]) + |p| - 1
  {
    if |p| > 1 {
      var q := p[..|p| - 1];
      assert IsRun(q);
      RunRaisesRank(q);
      StepRaisesRank(p[|p| - 2], p[|p| - 1]);
    }
  }

  /** No run returns to where it started: the transition relation is acyclic. */
  lemma RunIsAcyclic(p: seq<OrderStatus>)
    requires |p| >= 2 && IsRun(p)
    ensures p[0] != p[|p| - 1]
  {
    RunRaisesRank(p);
  }

  /** At most three successful status updates can follow any status. */
  lemma RunHasAtMostThreeSteps(p: seq<OrderStatus>)
    requires |p| > 0 && IsRun(p)
    ensures |p| - 1 <= 3
    ensures |p| - 1 == 3 ==> p[0] == Created && p[1] == Paid && p[2] == Shipped && p[3] == Refunded
  {
    RunRaisesRank(p);
    if |p| == 4 {
      assert IsRun(p[..3]);
      RunRaisesRank(p[..3]);
      assert IsRun(p[..2]);
      RunRaisesRank(p[..2]);
    }
  }

  /** The notes after an update: a non-empty note is appended with its time stamp. */
  function AppendedNotes(prior: Option<string>, note: Option<string>, stamp: string): Option<string> {
    if !Truthy(note) then prior
    else if Truthy(prior) then Some(prior.value + "\n[" + stamp + "] " + note.value)
    else Some("[" + stamp + "] " + note.value)
  }

  /** Notes only grow: the old notes (and a newline) are a prefix and the new note ends them;
      without a note they are unchanged. */
  lemma AppendedNotesGrow(prior: Option<string>, note: Option<string>, stamp: string)
    ensures var r := AppendedNotes(prior, note, stamp);
      && (!Truthy(note) ==> r == prior)
      && (Truthy(note) ==> r.Some? && |r.value| >= |note.value| && r.value[|r.value| - |note.value|..] == note.value)
      && (Truthy(note) && Truthy(prior) ==> |prior.value| < |r.value| && r.value[..|prior.value| + 1] == prior.value + "\n")
      && (Truthy(note) && !Truthy(prior) ==> r.value[..1] == "[")
  {
  }

  /** The order after a permitted move to `newStatus` at time `now`. */
  function StatusUpdated(o: Order, newStatus: string, note: Option<string>, now: Time, stamp: string): Order {
    o.(status := newStatus,
       updatedAt := now,
       paidAt := if newStatus == Name(Paid) then Some(now) else o.paidAt,
       shippedAt := if newStatus == Name(Shipped) then Some(now) else o.shippedAt,
       notes := AppendedNotes(o.notes, note, stamp))
  }

  /** `update_order_status` as a function of the order table: the updated order or the error. */
  function StatusUpdate(orders: map<int, Order>, orderId: int, newStatus: string, note: Option<string>,
                        now: Time, stamp: string): Result<Order, WorkflowError>
  {
    if orderId !in orders then Failure(OrderNotFound(orderId))
    else
      var o := orders[orderId];
      match CanTransition(o.status, newStatus)
      case Failure(e) => Failure(e)
      case Success(false) => Failure(TransitionRefused(o.status, newStatus, GetValidTransitions(o.status).value))
      case Success(true) => Success(StatusUpdated(o, newStatus, note, now, stamp))
  }

  /** An update succeeds exactly when the order exists and the table allows the move;
      it then sets the status, refreshes `updated_at`, stamps `paid_at` only on PAID and
      `shipped_at` only on SHIPPED, and leaves every other field alone. */
  lemma StatusUpdateSpec(orders: map<int, Order>, orderId: int, newStatus: string, note: Option<string>,
                         now: Time, stamp: string)
    ensures var r := StatusUpdate(orders, orderId, newStatus, note, now, stamp);
      && (r.Success? <==> orderId in orders && CanTransition(orders[orderId].status, newStatus) == Success(true))
      && (orderId !in orders ==> r == Failure(OrderNotFound(orderId)))
      && (r.Success? ==>
            var o := orders[orderId];
            && Step(Parse(o.status).value, Parse(newStatus).value)
            && r.value.status == newStatus && r.value.updatedAt == now
            && r.value.paidAt == (if newStatus == "PAID" then Some(now) else o.paidAt)
            && r.value.shippedAt == (if newStatus == "SHIPPED" then Some(now) else o.shippedAt)
            && r.value.notes == AppendedNotes(o.notes, note, stamp)
            && r.value.total == o.total && r.value.createdAt == o.createdAt
            && r.value.customerName == o.customerName && r.value.customerEmail == o.customerEmail
            && r.value.shippingAddress == o.shippingAddress)
  {
  }

  /** `update_order_status` on the session: a refused update raises before any field changes. */
  method UpdateOrderStatus(db: OrderDb, orderId: int, newStatus: string, note: Option<string>,
                           now: Time, stamp: string) returns (r: Result<Order, WorkflowError>)
    modifies db
    ensures r == StatusUpdate(old(db.orders), orderId, newStatus, note, now, stamp)
    ensures db.orders == if r.Success? then old(db.orders)[orderId := r.value] else old(db.orders)
    ensures db.items == old(db.items) && db.nextOrderId == old(db.nextOrderId) && db.nextItemId == old(db.nextItemId)
    ensures r.Failure? ==> unchanged(db)
  {
    if orderId !in db.orders {
      return Failure(OrderNotFound(orderId));
    }
    var o := db.orders[orderId];
    var can := CanTransition(o.status, newStatus);
    if can.Failure? {
      return Failure(can.error);
    }
    if !can.value {
      var valid := GetValidTransitions(o.status);
      return Failure(TransitionRefused(o.status, newStatus, valid.value));
    }
    var updated := StatusUpdated(o, newStatus, note, now, stamp);
    db.orders := db.orders[orderId := updated];
    r := Success(updated);
  }

  datatype WorkflowInfo = WorkflowInfo(
    id: int,
    status: string,
    currentStatus: string,
    validTransitions: seq<string>,
    createdAt: Time,
    paidAt: Option<Time>,
    shippedAt: Option<Time>,
    updatedAt: Time,
    notes: Option<string>)

  /** `get_order_workflow_info`: fails like `get_valid_transitions` on a stored status
      that names no status. */
  function GetOrderWorkflowInfo(id: int, o: Order): (r: Result<WorkflowInfo, WorkflowError>)
    ensures r.Failure? <==> Parse(o.status).None?
    ensures r.Success? ==> r.value.status == o.status && r.value.currentStatus == o.status
    ensures r.Success? ==> Success(r.value.validTransitions) == GetValidTransitions(o.status)
    ensures r.Success? ==> forall t :: t in r.value.validTransitions <==> CanTransition(o.status, t) == Success(true)
  {
    match GetValidTransitions(o.status)
    case Failure(e) => Failure(e)
    case Success(valid) =>
      CanTransitionListedAll(o.status);
      Success(WorkflowInfo(id, o.status, o.status, valid, o.createdAt, o.paidAt, o.shippedAt, o.updatedAt, o.notes))
  }

  lemma CanTransitionListedAll(current: string)
    ensures forall t :: CanTransition(current, t) == Success(true) <==>
                        GetValidTransitions(current).Success? && t in GetValidTransitions(current).value
  {
    forall t {
      CanTransitionIffListed(current, t);
    }
  }
}
