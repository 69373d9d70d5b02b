/** admin/manage_orders.php: an administrator deletes orders (GET
    `delete`), changes an order's status or its payment status (POST
    `update_status`, `update_payment`, each behind the CSRF check), and lists
    the orders with optional status and payment filters. Each branch sets the
    page's success or error banner; a successful update notifies the order's
    owner. */
module ManageOrders {
  import opened Util
  import opened Php
  import opened Constants
  import opened Schema
  import opened Security
  import opened Notify
  import opened NotifyText

  // ------------------------------------------------------------------
  // The request and the banners
  // ------------------------------------------------------------------

  /** The POST body of the update forms: `csrf_token` (or ''), intval of
      `order_id`, whether `update_status` / `update_payment` is set, and
      the posted `status` / `payment_status` (or ''). */
  datatype OrderPost = OrderPost(
    csrfToken: string,
    orderId: int,
    updateStatus: bool,
    status: string,
    updatePayment: bool,
    paymentStatus: string)

  const InvalidOrderId := "Invalid order ID."
  const InvalidStatus := "Invalid status selected."
  const InvalidPayment := "Invalid payment status selected."
  const CsrfFailed := "Security token validation failed. Please refresh and try again."
  const DeletedText := " deleted successfully."
  const StatusUpdatedText := " status updated to "
  const PaymentUpdatedText := " payment updated to "
  const DatabaseErrorPrefix := "Database error: "
  const FailedDelete := "Failed to delete order: "
  const FailedStatus := "Failed to update status: "
  const FailedPayment := "Failed to update payment status: "

  function DeletedMessage(id: int): string {
    OrderRef(id) + DeletedText
  }

  function StatusUpdatedMessage(id: int, s: OrderStatus): string {
    OrderRef(id) + StatusUpdatedText + StatusName(s) + "."
  }

  function PaymentUpdatedMessage(id: int, p: PaymentStatus): string {
    OrderRef(id) + PaymentUpdatedText + PaymentName(p) + "."
  }

  // ------------------------------------------------------------------
  // The table statements
  // ------------------------------------------------------------------

  /** DELETE FROM orders WHERE id = ?. */
  function WithoutOrder(rows: seq<Order>, id: int): (r: seq<Order>)
    ensures forall o :: o in r <==> o in rows && o.id != id
  {
    Filter(rows, (o: Order) => o.id != id)
  }

  /** UPDATE orders SET status = ? WHERE id = ?: the rows keep their
      order and every column but the status; the rows with that id get the
      new status. */
  function WithStatus(rows: seq<Order>, id: int, s: OrderStatus): (r: seq<Order>)
    ensures |r| == |rows|
    ensures forall i :: 0 <= i < |r| ==> r[i].(status := rows[i].status) == rows[i]
    ensures forall i :: 0 <= i < |r| ==> r[i].id == rows[i].id
    ensures forall i :: 0 <= i < |r| ==> r[i].status == if rows[i].id == id then s else rows[i].status
  {
    seq(|rows|, i requires 0 <= i < |rows| => if rows[i].id == id then rows[i].(status := s) else rows[i])
  }

  /** UPDATE orders SET payment_status = ? WHERE id = ?. */
  function WithPayment(rows: seq<Order>, id: int, p: PaymentStatus): (r: seq<Order>)
    ensures |r| == |rows|
    ensures forall i :: 0 <= i < |r| ==> r[i].(paymentStatus := rows[i].paymentStatus) == rows[i]
    ensures forall i :: 0 <= i < |r| ==> r[i].id == rows[i].id
    ensures forall i :: 0 <= i < |r| ==> r[i].paymentStatus == if rows[i].id == id then p else rows[i].paymentStatus
  {
    seq(|rows|, i requires 0 <= i < |rows| => if rows[i].id == id then rows[i].(paymentStatus := p) else rows[i])
  }

  /** An update that keeps every row's id keeps the ids below the
      counter. */
  lemma IdsStayBelow(before: seq<Order>, after: seq<Order>, next: int)
    requires |after| == |before|
    requires forall i :: 0 <= i < |after| ==> after[i].id == before[i].id
    requires forall o <- before :: 0 < o.id < next
    ensures forall o <- after :: 0 < o.id < next
  {
    forall o <- after
      ensures 0 < o.id < next
    {
      var i :| 0 <= i < |after| && after[i] == o;
      assert before[i] in before;
    }
  }

  /** SELECT user_id FROM orders WHERE id = ? followed by `if
      ($orderData['user_id'])`: the owner to notify, when the row exists and
      its user id is neither NULL nor 0. */
  function OwnerOf(rows: seq<Order>, id: int): (r: Option<int>)
    ensures r.Some? ==> r.value != 0 && exists i :: 0 <= i < |rows| && rows[i].id == id && rows[i].userId == r
    ensures (forall i :: 0 <= i < |rows| ==> rows[i].id != id) ==> r.None?
  {
    match FindOrder(rows, id)
    case None => None
    case Some(o) => if o.userId.Some? && o.userId.value != 0 then o.userId else None
  }

  /** The notification a status update adds: one 'order' row for the
      owner when the database takes the INSERT (`notified`), none when
      there is no owner or it does not. */
  function StatusAlert(rows: seq<Order>, id: int, s: OrderStatus, nextId: int, now: int, notified: bool)
    : seq<Notification>
  {
    var owner := OwnerOf(rows, id);
    if owner.Some? && notified then
      [Notification(nextId, owner, "order", StatusTitle(id), StatusMessage(StatusName(s)), Some(CustomerOrderLink), false, now)]
    else []
  }

  /** The notification a payment update adds: a 'payment' row with the
      order's total, only for Paid, only when there is an owner, and only
      when the database takes the INSERT. */
  function PaymentAlert(rows: seq<Order>, id: int, p: PaymentStatus, nextId: int, now: int, notified: bool)
    : seq<Notification>
  {
    var owner := OwnerOf(rows, id);
    if p == Paid && owner.Some? && notified then
      [Notification(nextId, owner, "payment", PaymentTitle(id), PaymentMessage(FindOrder(rows, id).value.totalCost),
                    Some(CustomerOrderLink), false, now)]
    else []
  }

  // ------------------------------------------------------------------
  // The branches as functions of the tables they touch
  // ------------------------------------------------------------------

  /** The tables this page changes. */
  datatype OrderTables = OrderTables(orders: seq<Order>, notifications: seq<Notification>, nextNotificationId: int)

  /** One branch: the tables after it and its banner. */
  datatype Step = Step(tables: OrderTables, outcome: Outcome)

  /** The database's answers to an update branch: how the UPDATE went, and
      whether the owner's notification INSERT that may follow it is taken
      (the page ignores that result). */
  datatype Answer = Answer(write: WriteResult, notified: bool)

  /** The answers to the three branches of one request. */
  datatype Answers = Answers(delete: WriteResult, status: Answer, payment: Answer)

  /** The delete branch on intval($_GET['delete']). */
  function DeleteStep(t: OrderTables, id: int, write: WriteResult): Step {
    if id <= 0 then Step(t, Refused(InvalidOrderId))
    else
      match write
      case PrepareFailed(e) => Step(t, Refused(DatabaseErrorPrefix + e))
      case ExecuteFailed(e) => Step(t, Refused(FailedDelete + e))
      case Stored => Step(t.(orders := WithoutOrder(t.orders, id)), Done(DeletedMessage(id)))
  }

  /** The update_status branch after the CSRF check. */
  function StatusStep(t: OrderTables, id: int, status: string, now: int, a: Answer): Step {
    var s := ValidateOrderStatus(status);
    if s.None? then Step(t, Refused(InvalidStatus))
    else if id <= 0 then Step(t, Refused(InvalidOrderId))
    else
      match a.write
      case PrepareFailed(e) => Step(t, Refused(DatabaseErrorPrefix + e))
      case ExecuteFailed(e) => Step(t, Refused(FailedStatus + e))
      case Stored => Step(StatusApplied(t, id, s.value, now, a.notified), Done(StatusUpdatedMessage(id, s.value)))
  }

  /** The UPDATE of a valid status and the notification that follows it. */
  function StatusApplied(t: OrderTables, id: int, s: OrderStatus, now: int, notified: bool): OrderTables {
    var rows := WithStatus(t.orders, id, s);
    var alert := StatusAlert(rows, id, s, t.nextNotificationId, now, notified);
    OrderTables(rows, t.notifications + alert, t.nextNotificationId + |alert|)
  }

  /** The update_payment branch after the CSRF check. */
  function PaymentStep(t: OrderTables, id: int, payment: string, now: int, a: Answer): Step {
    var p := ValidatePaymentStatus(payment);
    if p.None? then Step(t, Refused(InvalidPayment))
    else if id <= 0 then Step(t, Refused(InvalidOrderId))
    else
      match a.write
      case PrepareFailed(e) => Step(t, Refused(DatabaseErrorPrefix + e))
      case ExecuteFailed(e) => Step(t, Refused(FailedPayment + e))
      case Stored => Step(PaymentApplied(t, id, p.value, now, a.notified), Done(PaymentUpdatedMessage(id, p.value)))
  }

  /** The UPDATE of a valid payment status and the notification that
      follows it. */
  function PaymentApplied(t: OrderTables, id: int, p: PaymentStatus, now: int, notified: bool): OrderTables {
    var rows := WithPayment(t.orders, id, p);
    var alert := PaymentAlert(rows, id, p, t.nextNotificationId, now, notified);
    OrderTables(rows, t.notifications + alert, t.nextNotificationId + |alert|)
  }

  /** The request after the administrator check: the tables and the
      response. */
  datatype Handled = Handled(tables: OrderTables, response: Response)

  /** The branches in page order on the session token `token`: delete,
      then update_status, then update_payment; a failed CSRF check ends
      the request with 403 after what already ran. */
  function Process(t: OrderTables, token: Option<string>, delete: Option<int>, post: Option<OrderPost>, now: int,
                   answers: Answers): Handled
  {
    var d := if delete.Some? then DeleteStep(t, delete.value, answers.delete) else Step(t, Done(""));
    var b1 := if delete.Some? then Show(Banners(None, None), d.outcome) else Banners(None, None);
    if post.None? then Handled(d.tables, Page(b1.success, b1.error))
    else
      var f := post.value;
      if f.updateStatus && !ValidateCsrfToken(f.csrfToken, token) then Handled(d.tables, Halt(403, CsrfFailed))
      else
        var st := if f.updateStatus then StatusStep(d.tables, f.orderId, f.status, now, answers.status)
                  else Step(d.tables, Done(""));
        var b2 := if f.updateStatus then Show(b1, st.outcome) else b1;
        if f.updatePayment && !ValidateCsrfToken(f.csrfToken, token) then Handled(st.tables, Halt(403, CsrfFailed))
        else
          var pt := if f.updatePayment then PaymentStep(st.tables, f.orderId, f.paymentStatus, now, answers.payment)
                    else Step(st.tables, Done(""));
          var b3 := if f.updatePayment then Show(b2, pt.outcome) else b2;
          Handled(pt.tables, Page(b3.success, b3.error))
  }

  // ------------------------------------------------------------------
  // What the branches promise
  // ------------------------------------------------------------------

  /** A delete the database runs, with a positive id, removes exactly the
      rows with that id and touches no other table; any other id is
      refused, a failed statement reports the database's error, and
      neither changes anything. */
  lemma DeleteRemovesExactlyThatOrder(t: OrderTables, id: int, write: WriteResult)
    ensures var r := DeleteStep(t, id, write);
      && (r.outcome.Done? <==> id > 0 && write == Stored)
      && (r.outcome.Done? ==>
          && r.outcome == Done(DeletedMessage(id))
          && (forall o :: o in r.tables.orders <==> o in t.orders && o.id != id)
          && r.tables.notifications == t.notifications && r.tables.nextNotificationId == t.nextNotificationId)
      && (id <= 0 ==> r.outcome == Refused(InvalidOrderId))
      && (id > 0 && write.PrepareFailed? ==> r.outcome == Refused(DatabaseErrorPrefix + write.error))
      && (id > 0 && write.ExecuteFailed? ==> r.outcome == Refused(FailedDelete + write.reason))
      && (r.outcome.Refused? ==> r.tables == t)
  {
  }

  /** A status update succeeds exactly for a valid status, a positive id
      and an UPDATE the database runs (checked in that order); a refused
      one names the first failing check, or the database's error, and
      changes nothing. */
  lemma StatusChecksInOrder(t: OrderTables, id: int, status: string, now: int, a: Answer)
    ensures var r := StatusStep(t, id, status, now, a);
      && (r.outcome.Done? <==> status in ValidOrderStatuses && id > 0 && a.write == Stored)
      && (status !in ValidOrderStatuses ==> r.outcome == Refused(InvalidStatus))
      && (status in ValidOrderStatuses && id <= 0 ==> r.outcome == Refused(InvalidOrderId))
      && (status in ValidOrderStatuses && id > 0 && a.write.PrepareFailed? ==>
            r.outcome == Refused(DatabaseErrorPrefix + a.write.error))
      && (status in ValidOrderStatuses && id > 0 && a.write.ExecuteFailed? ==>
            r.outcome == Refused(FailedStatus + a.write.reason))
      && (r.outcome.Refused? ==> r.tables == t)
  {
  }

  /** The same for a payment update. */
  lemma PaymentChecksInOrder(t: OrderTables, id: int, payment: string, now: int, a: Answer)
    ensures var r := PaymentStep(t, id, payment, now, a);
      && (r.outcome.Done? <==> payment in ValidPaymentStatuses && id > 0 && a.write == Stored)
      && (payment !in ValidPaymentStatuses ==> r.outcome == Refused(InvalidPayment))
      && (payment in ValidPaymentStatuses && id <= 0 ==> r.outcome == Refused(InvalidOrderId))
      && (payment in ValidPaymentStatuses && id > 0 && a.write.PrepareFailed? ==>
            r.outcome == Refused(DatabaseErrorPrefix + a.write.error))
      && (payment in ValidPaymentStatuses && id > 0 && a.write.ExecuteFailed? ==>
            r.outcome == Refused(FailedPayment + a.write.reason))
      && (r.outcome.Refused? ==> r.tables == t)
  {
  }

  /** The owner the page finds after an update is the owner before it:
      neither update touches user_id. */
  lemma UpdatesKeepOwner(rows: seq<Order>, id: int, s: OrderStatus, p: PaymentStatus)
    ensures OwnerOf(WithStatus(rows, id, s), id) == OwnerOf(rows, id)
    ensures OwnerOf(WithPayment(rows, id, p), id) == OwnerOf(rows, id)
    ensures FindOrder(WithPayment(rows, id, p), id).Some? ==>
      FindOrder(WithPayment(rows, id, p), id).value.totalCost == FindOrder(rows, id).value.totalCost
  {
    StatusKeepsOwner(rows, id, s);
    PaymentKeepsOwner(rows, id, p);
  }

  lemma {:induction false} StatusKeepsOwner(rows: seq<Order>, id: int, s: OrderStatus)
    ensures var a := FindOrder(WithStatus(rows, id, s), id);
            var b := FindOrder(rows, id);
            a.Some? == b.Some? && (a.Some? ==> a.value.userId == b.value.userId)
  {
    if rows != [] {
      var w := WithStatus(rows, id, s);
      assert w[1..] == WithStatus(rows[1..], id, s) by {
        forall k | 0 <= k < |w| - 1
          ensures w[1..][k] == WithStatus(rows[1..], id, s)[k]
        {
        }
      }
      StatusKeepsOwner(rows[1..], id, s);
    }
  }

  lemma {:induction false} PaymentKeepsOwner(rows: seq<Order>, id: int, p: PaymentStatus)
    ensures var a := FindOrder(WithPayment(rows, id, p), id);
            var b := FindOrder(rows, id);
            a.Some? == b.Some? && (a.Some? ==> a.value.userId == b.value.userId && a.value.totalCost == b.value.totalCost)
  {
    if rows != [] {
      var w := WithPayment(rows, id, p);
      assert w[1..] == WithPayment(rows[1..], id, p) by {
        forall k | 0 <= k < |w| - 1
          ensures w[1..][k] == WithPayment(rows[1..], id, p)[k]
        {
        }
      }
      PaymentKeepsOwner(rows[1..], id, p);
    }
  }

  /** A successful status update changes only the status of the rows with
      that id, keeps every notification, and adds one 'order' notification
      for the owner, none when the order has no owner or the database does
      not take the INSERT; the banner reports success either way. */
  lemma StatusUpdateChangesOnlyTheStatus(t: OrderTables, id: int, s: OrderStatus, now: int, notified: bool)
    requires id > 0
    ensures StatusStep(t, id, StatusName(s), now, Answer(Stored, notified)).outcome == Done(StatusUpdatedMessage(id, s))
    ensures var r := StatusStep(t, id, StatusName(s), now, Answer(Stored, notified)).tables;
      && |r.orders| == |t.orders|
      && (forall i :: 0 <= i < |r.orders| ==>
            r.orders[i] == if t.orders[i].id == id then t.orders[i].(status := s) else t.orders[i])
      && r.notifications[..|t.notifications|] == t.notifications
      && |r.notifications| == |t.notifications| + (if OwnerOf(t.orders, id).Some? && notified then 1 else 0)
      && r.nextNotificationId == t.nextNotificationId + |r.notifications| - |t.notifications|
      && (OwnerOf(t.orders, id).Some? && notified ==>
            r.notifications[|t.notifications|]
            == Notification(t.nextNotificationId, OwnerOf(t.orders, id), "order", StatusTitle(id),
                            StatusMessage(StatusName(s)), Some(CustomerOrderLink), false, now))
  {
    ValidatorsInvertNames();
    assert ValidateOrderStatus(StatusName(s)) == Some(s);
    var rows := WithStatus(t.orders, id, s);
    UpdatesKeepOwner(t.orders, id, s, Paid);
    forall i | 0 <= i < |rows|
      ensures rows[i] == if t.orders[i].id == id then t.orders[i].(status := s) else t.orders[i]
    {
      assert rows[i].(status := t.orders[i].status) == t.orders[i];
    }
  }

  /** Setting the status an order already has leaves the table as it was
      and still notifies the owner. */
  lemma NoOpStatusUpdateStillNotifies(t: OrderTables, id: int, s: OrderStatus, now: int)
    requires id > 0
    requires forall o <- t.orders :: o.id == id ==> o.status == s
    requires OwnerOf(t.orders, id).Some?
    ensures var r := StatusStep(t, id, StatusName(s), now, Answer(Stored, true));
      && r.outcome == Done(StatusUpdatedMessage(id, s))
      && r.tables.orders == t.orders
      && |r.tables.notifications| == |t.notifications| + 1
  {
    StatusUpdateChangesOnlyTheStatus(t, id, s, now, true);
    var r := StatusStep(t, id, StatusName(s), now, Answer(Stored, true)).tables;
    forall i | 0 <= i < |t.orders|
      ensures r.orders[i] == t.orders[i]
    {
      if t.orders[i].id == id {
        assert t.orders[i] in t.orders;
      }
    }
  }

  /** Updating an id no row has reports success when the database runs
      the UPDATE, yet changes no row and notifies nobody. */
  lemma MissingOrderNotifiesNobody(t: OrderTables, id: int, status: string, payment: string, now: int,
                                   a: Answer, b: Answer)
    requires id > 0
    requires forall o <- t.orders :: o.id != id
    ensures var r := StatusStep(t, id, status, now, a);
      (status in ValidOrderStatuses && a.write == Stored ==> r.outcome.Done?) && r.tables == t
    ensures var r := PaymentStep(t, id, payment, now, b);
      (payment in ValidPaymentStatuses && b.write == Stored ==> r.outcome.Done?) && r.tables == t
  {
    var s := ValidateOrderStatus(status);
    if s.Some? {
      var rows := WithStatus(t.orders, id, s.value);
      assert rows == t.orders;
      assert OwnerOf(rows, id).None?;
    }
    var p := ValidatePaymentStatus(payment);
    if p.Some? {
      var rows := WithPayment(t.orders, id, p.value);
      assert rows == t.orders;
      assert OwnerOf(rows, id).None?;
    }
  }

  /** A successful payment update changes only the payment status of the
      rows with that id; it notifies exactly when the new value is Paid, the
      order has an owner and the database takes the INSERT, with the
      order's total in the message. */
  lemma PaymentUpdateNotifiesOnlyWhenPaid(t: OrderTables, id: int, p: PaymentStatus, now: int, notified: bool)
    requires id > 0
    ensures var r := PaymentStep(t, id, PaymentName(p), now, Answer(Stored, notified));
      && r.outcome == Done(PaymentUpdatedMessage(id, p))
      && |r.tables.orders| == |t.orders|
      && (forall i :: 0 <= i < |t.orders| ==>
            r.tables.orders[i] == if t.orders[i].id == id then t.orders[i].(paymentStatus := p) else t.orders[i])
      && r.tables.notifications[..|t.notifications|] == t.notifications
      && (|r.tables.notifications| == |t.notifications| + 1 <==> p == Paid && OwnerOf(t.orders, id).Some? && notified)
      && (|r.tables.notifications| == |t.notifications| + 1 || r.tables.notifications == t.notifications)
      && (p == Paid && OwnerOf(t.orders, id).Some? && notified ==>
            r.tables.notifications[|t.notifications|]
            == Notification(t.nextNotificationId, OwnerOf(t.orders, id), "payment", PaymentTitle(id),
                            PaymentMessage(FindOrder(t.orders, id).value.totalCost), Some(CustomerOrderLink), false, now))
  {
    ValidatorsInvertNames();
    assert ValidatePaymentStatus(PaymentName(p)) == Some(p);
    var rows := WithPayment(t.orders, id, p);
    UpdatesKeepOwner(t.orders, id, Pending, p);
    forall i | 0 <= i < |rows|
      ensures rows[i] == if t.orders[i].id == id then t.orders[i].(paymentStatus := p) else t.orders[i]
    {
      assert rows[i].(paymentStatus := t.orders[i].paymentStatus) == t.orders[i];
    }
  }

  /** Marking an owned order Paid twice notifies twice; the second update
      leaves the orders as the first left them. */
  lemma PaidTwiceNotifiesTwice(t: OrderTables, id: int, now1: int, now2: int)
    requires id > 0
    requires OwnerOf(t.orders, id).Some?
    ensures var r1 := PaymentStep(t, id, "Paid", now1, Answer(Stored, true)).tables;
            var r2 := PaymentStep(r1, id, "Paid", now2, Answer(Stored, true)).tables;
      && r2.orders == r1.orders
      && |r2.notifications| == |t.notifications| + 2
  {
    PaymentUpdateNotifiesOnlyWhenPaid(t, id, Paid, now1, true);
    var r1 := PaymentStep(t, id, "Paid", now1, Answer(Stored, true)).tables;
    UpdatesKeepOwner(t.orders, id, Pending, Paid);
    PaymentUpdateNotifiesOnlyWhenPaid(r1, id, Paid, now2, true);
    var r2 := PaymentStep(r1, id, "Paid", now2, Answer(Stored, true)).tables;
    forall i | 0 <= i < |r1.orders|
      ensures r2.orders[i] == r1.orders[i]
    {
      if r1.orders[i].id == id {
        assert r1.orders[i].paymentStatus == Paid;
      }
    }
  }

  /** A failed CSRF check ends the request with 403 before the update it
      guards, whatever the posted status and id; only a delete in the same
      request has happened. */
  lemma CsrfCheckedBeforeTheUpdate(t: OrderTables, token: Option<string>, delete: Option<int>, post: OrderPost,
                                   now: int, answers: Answers)
    requires post.updateStatus || post.updatePayment
    requires !ValidateCsrfToken(post.csrfToken, token)
    ensures var h := Process(t, token, delete, Some(post), now, answers);
      && h.response == Halt(403, CsrfFailed)
      && h.tables == (if delete.Some? then DeleteStep(t, delete.value, answers.delete).tables else t)
  {
  }

  // ------------------------------------------------------------------
  // The listing
  // ------------------------------------------------------------------

  /** The status filter the query applies: a non-empty value from
      VALID_ORDER_STATUSES, otherwise none. */
  function StatusFilter(filter: string): (r: Option<OrderStatus>)
    ensures r.Some? <==> filter in ValidOrderStatuses
  {
    if IsEmpty(filter) then None else ValidateOrderStatus(filter)
  }

  /** The payment filter the query applies. */
  function PaymentFilter(filter: string): (r: Option<PaymentStatus>)
    ensures r.Some? <==> filter in ValidPaymentStatuses
  {
    if IsEmpty(filter) then None else ValidatePaymentStatus(filter)
  }

  /** A listed row: the order with COALESCE(o.customer_name, u.name) and
      COALESCE(o.customer_email, u.email) from its LEFT JOINed user. */
  datatype ListedOrder = ListedOrder(order: Order, customer: Option<string>, email: Option<string>)

  function Listed(o: Order, users: seq<User>): ListedOrder {
    var u := if o.userId.Some? then FindUser(users, o.userId.value) else None;
    ListedOrder(o,
      if o.customerName.Some? then o.customerName else if u.Some? then Some(u.value.name) else None,
      if o.customerEmail.Some? then o.customerEmail else if u.Some? then Some(u.value.email) else None)
  }

  /** The WHERE clause: the search (when given; `like` stands for the LIKE
      match on customer and id), then the status and payment filters that
      apply. */
  predicate Selected(o: Order, users: seq<User>, search: string, like: (ListedOrder, string) -> bool,
                     status: Option<OrderStatus>, payment: Option<PaymentStatus>)
  {
    && (IsEmpty(search) || like(Listed(o, users), search))
    && (status.None? || o.status == status.value)
    && (payment.None? || o.paymentStatus == payment.value)
  }

  function Selection(users: seq<User>, search: string, like: (ListedOrder, string) -> bool,
                     status: Option<OrderStatus>, payment: Option<PaymentStatus>): Order -> bool
  {
    (o: Order) => Selected(o, users, search, like, status, payment)
  }

  function CreatedAt(o: Order): int {
    o.createdAt
  }

  /** The rows of the query, newest first, on the filters that apply. */
  function Listing(orders: seq<Order>, users: seq<User>, search: string, like: (ListedOrder, string) -> bool,
                   status: Option<OrderStatus>, payment: Option<PaymentStatus>): seq<ListedOrder>
  {
    var sorted := SortDesc(Filter(orders, Selection(users, search, like, status, payment)), CreatedAt);
    seq(|sorted|, i requires 0 <= i < |sorted| => Listed(sorted[i], users))
  }

  /** The page's list for the posted filter values. */
  function OrderListing(orders: seq<Order>, users: seq<User>, search: string, like: (ListedOrder, string) -> bool,
                        statusFilter: string, paymentFilter: string): seq<ListedOrder>
  {
    Listing(orders, users, search, like, StatusFilter(statusFilter), PaymentFilter(paymentFilter))
  }

  /** Every listed order passes the search and the filters that apply,
      every order that passes them is listed, and the list is newest
      first. */
  lemma ListingIsTheFilteredOrders(orders: seq<Order>, users: seq<User>, search: string,
                                   like: (ListedOrder, string) -> bool, statusFilter: string, paymentFilter: string)
    ensures var r := OrderListing(orders, users, search, like, statusFilter, paymentFilter);
            var st := StatusFilter(statusFilter);
            var pt := PaymentFilter(paymentFilter);
      && (forall i :: 0 <= i < |r| ==> r[i].order in orders && Selected(r[i].order, users, search, like, st, pt))
      && (forall o <- orders :: Selected(o, users, search, like, st, pt) ==> exists i :: 0 <= i < |r| && r[i].order == o)
      && (forall i, j :: 0 <= i < j < |r| ==> r[i].order.createdAt >= r[j].order.createdAt)
  {
    ListingRows(orders, users, search, like, StatusFilter(statusFilter), PaymentFilter(paymentFilter));
  }

  lemma ListingRows(orders: seq<Order>, users: seq<User>, search: string, like: (ListedOrder, string) -> bool,
                    st: Option<OrderStatus>, pt: Option<PaymentStatus>)
    ensures var r := Listing(orders, users, search, like, st, pt);
      && (forall i :: 0 <= i < |r| ==> r[i].order in orders && Selected(r[i].order, users, search, like, st, pt))
      && (forall o <- orders :: Selected(o, users, search, like, st, pt) ==> exists i :: 0 <= i < |r| && r[i].order == o)
      && (forall i, j :: 0 <= i < j < |r| ==> r[i].order.createdAt >= r[j].order.createdAt)
  {
    var sel := Selection(users, search, like, st, pt);
    var sorted := SortDesc(Filter(orders, sel), CreatedAt);
    SortedSelection(orders, sel, CreatedAt);
    var r := Listing(orders, users, search, like, st, pt);
    ListingFollowsSorted(orders, users, search, like, st, pt);
    assert forall o :: o in sorted <==> o in orders && Selected(o, users, search, like, st, pt);
    ListedAreSelected(orders, users, search, like, st, pt, sorted, r);
    SelectedAreListed(orders, users, search, like, st, pt, sorted, r);
  }

  /** The listing shows the selected rows in their sorted order. */
  lemma ListingFollowsSorted(orders: seq<Order>, users: seq<User>, search: string, like: (ListedOrder, string) -> bool,
                             st: Option<OrderStatus>, pt: Option<PaymentStatus>)
    ensures var sorted := SortDesc(Filter(orders, Selection(users, search, like, st, pt)), CreatedAt);
            var r := Listing(orders, users, search, like, st, pt);
      |r| == |sorted| && forall i :: 0 <= i < |r| ==> r[i].order == sorted[i]
  {
  }

  lemma ListedAreSelected(orders: seq<Order>, users: seq<User>, search: string, like: (ListedOrder, string) -> bool,
                          st: Option<OrderStatus>, pt: Option<PaymentStatus>, sorted: seq<Order>, r: seq<ListedOrder>)
    requires |r| == |sorted| && forall i :: 0 <= i < |r| ==> r[i].order == sorted[i]
    requires forall o :: o in sorted <==> o in orders && Selected(o, users, search, like, st, pt)
    ensures forall i :: 0 <= i < |r| ==> r[i].order in orders && Selected(r[i].order, users, search, like, st, pt)
  {
    forall i | 0 <= i < |r|
      ensures r[i].order in orders && Selected(r[i].order, users, search, like, st, pt)
    {
      assert sorted[i] in sorted;
    }
  }

  lemma SelectedAreListed(orders: seq<Order>, users: seq<User>, search: string, like: (ListedOrder, string) -> bool,
                          st: Option<OrderStatus>, pt: Option<PaymentStatus>, sorted: seq<Order>, r: seq<ListedOrder>)
    requires |r| == |sorted| && forall i :: 0 <= i < |r| ==> r[i].order == sorted[i]
    requires forall o :: o in sorted <==> o in orders && Selected(o, users, search, like, st, pt)
    ensures forall o <- orders :: Selected(o, users, search, like, st, pt) ==> exists i :: 0 <= i < |r| && r[i].order == o
  {
    forall o <- orders | Selected(o, users, search, like, st, pt)
      ensures exists i :: 0 <= i < |r| && r[i].order == o
    {
      assert o in sorted;
      var i :| 0 <= i < |sorted| && sorted[i] == o;
      assert r[i].order == o;
    }
  }

  /** A filter value outside its list is ignored: the list is the one
      without that filter. */
  lemma InvalidFiltersAreIgnored(orders: seq<Order>, users: seq<User>, search: string,
                                 like: (ListedOrder, string) -> bool, statusFilter: string, paymentFilter: string)
    ensures statusFilter !in ValidOrderStatuses ==>
      OrderListing(orders, users, search, like, statusFilter, paymentFilter)
      == OrderListing(orders, users, search, like, "", paymentFilter)
    ensures paymentFilter !in ValidPaymentStatuses ==>
      OrderListing(orders, users, search, like, statusFilter, paymentFilter)
      == OrderListing(orders, users, search, like, statusFilter, "")
  {
  }

  // ------------------------------------------------------------------
  // The page
  // ------------------------------------------------------------------

  function TablesOf(db: Db): OrderTables
    reads db
  {
    OrderTables(db.orders, db.notifications, db.nextNotificationId)
  }

  /** The delete branch; `write` is the database's answer to the DELETE. */
  method DeleteOrder(db: Db, id: int, write: WriteResult) returns (o: Outcome)
    requires db.Valid()
    modifies db`orders
    ensures db.Valid()
    ensures Step(TablesOf(db), o) == DeleteStep(old(TablesOf(db)), id, write)
  {
    if id <= 0 {
      return Refused(InvalidOrderId);
    }
    match write {
      case PrepareFailed(e) =>
        o := Refused(DatabaseErrorPrefix + e);
      case ExecuteFailed(e) =>
        o := Refused(FailedDelete + e);
      case Stored =>
        db.orders := WithoutOrder(db.orders, id);
        o := Done(DeletedMessage(id));
    }
  }

  /** The update_status branch after verifyCsrfToken(). */
  method UpdateStatus(db: Db, id: int, status: string, now: int, a: Answer) returns (o: Outcome)
    requires db.Valid()
    modifies db`orders, db`notifications, db`nextNotificationId
    ensures db.Valid()
    ensures Step(TablesOf(db), o) == StatusStep(old(TablesOf(db)), id, status, now, a)
  {
    var s := ValidateOrderStatus(status);
    if s.None? {
      return Refused(InvalidStatus);
    }
    if id <= 0 {
      return Refused(InvalidOrderId);
    }
    match a.write {
      case PrepareFailed(e) =>
        o := Refused(DatabaseErrorPrefix + e);
      case ExecuteFailed(e) =>
        o := Refused(FailedStatus + e);
      case Stored =>
        ApplyStatus(db, id, s.value, now, a.notified);
        o := Done(StatusUpdatedMessage(id, s.value));
    }
  }

  /** The UPDATE, then the owner's notification when there is an owner;
      `notified` is whether the database takes that INSERT. */
  method ApplyStatus(db: Db, id: int, s: OrderStatus, now: int, notified: bool)
    requires db.Valid()
    modifies db`orders, db`notifications, db`nextNotificationId
    ensures db.Valid()
    ensures TablesOf(db) == StatusApplied(old(TablesOf(db)), id, s, now, notified)
  {
    var rows := WithStatus(db.orders, id, s);
    StoreOrders(db, rows);
    NotifyStatusOwner(db, id, s, now, notified);
  }

  /** The SELECT of the updated order's owner and, when it has one, the
      status notification to that owner. */
  method NotifyStatusOwner(db: Db, id: int, s: OrderStatus, now: int, notified: bool)
    requires db.Valid()
    modifies db`notifications, db`nextNotificationId
    ensures db.Valid()
    ensures db.notifications
            == old(db.notifications) + StatusAlert(db.orders, id, s, old(db.nextNotificationId), now, notified)
    ensures db.nextNotificationId
            == old(db.nextNotificationId) + |StatusAlert(db.orders, id, s, old(db.nextNotificationId), now, notified)|
  {
    var owner := OwnerOf(db.orders, id);
    if owner.Some? {
      var _ := NotifyCustomerStatusChange(db, id, owner.value, StatusName(s), now, notified);
    }
  }

  /** The update_payment branch after verifyCsrfToken(). */
  method UpdatePayment(db: Db, id: int, payment: string, now: int, a: Answer) returns (o: Outcome)
    requires db.Valid()
    modifies db`orders, db`notifications, db`nextNotificationId
    ensures db.Valid()
    ensures Step(TablesOf(db), o) == PaymentStep(old(TablesOf(db)), id, payment, now, a)
  {
    var p := ValidatePaymentStatus(payment);
    if p.None? {
      return Refused(InvalidPayment);
    }
    if id <= 0 {
      return Refused(InvalidOrderId);
    }
    match a.write {
      case PrepareFailed(e) =>
        o := Refused(DatabaseErrorPrefix + e);
      case ExecuteFailed(e) =>
        o := Refused(FailedPayment + e);
      case Stored =>
        ApplyPayment(db, id, p.value, now, a.notified);
        o := Done(PaymentUpdatedMessage(id, p.value));
    }
  }

  /** The UPDATE, then for Paid the owner's notification with the order's
      total; `notified` is whether the database takes that INSERT. */
  method ApplyPayment(db: Db, id: int, p: PaymentStatus, now: int, notified: bool)
    requires db.Valid()
    modifies db`orders, db`notifications, db`nextNotificationId
    ensures db.Valid()
    ensures TablesOf(db) == PaymentApplied(old(TablesOf(db)), id, p, now, notified)
  {
    var rows := WithPayment(db.orders, id, p);
    StoreOrders(db, rows);
    if p == Paid {
      NotifyPaymentOwner(db, id, now, notified);
    }
  }

  /** For Paid: the SELECT of the order's owner and total and, when it has
      an owner, the payment notification to that owner. */
  method NotifyPaymentOwner(db: Db, id: int, now: int, notified: bool)
    requires db.Valid()
    modifies db`notifications, db`nextNotificationId
    ensures db.Valid()
    ensures db.notifications
            == old(db.notifications) + PaymentAlert(db.orders, id, Paid, old(db.nextNotificationId), now, notified)
    ensures db.nextNotificationId
            == old(db.nextNotificationId) + |PaymentAlert(db.orders, id, Paid, old(db.nextNotificationId), now, notified)|
  {
    var owner := OwnerOf(db.orders, id);
    if owner.Some? {
      var _ := NotifyCustomerPaymentReceived(db, id, owner.value, FindOrder(db.orders, id).value.totalCost, now, notified);
    }
  }

  /** Stores the rows an UPDATE produced; it keeps every order's id. */
  method StoreOrders(db: Db, rows: seq<Order>)
    requires db.Valid()
    requires |rows| == |db.orders|
    requires forall i :: 0 <= i < |rows| ==> rows[i].id == db.orders[i].id
    modifies db`orders
    ensures db.Valid()
    ensures db.orders == rows
  {
    IdsStayBelow(db.orders, rows, db.nextOrderId);
    db.orders := rows;
  }

  /** The whole request: the administrator gate (which also runs the
      session guard), then the branches in page order; `answers` are the
      database's answers to the statements the branches run. */
  method HandleManageOrders(sess: Session, db: Db, req: Request, php: Builtins, newToken: string,
                            delete: Option<int>, post: Option<OrderPost>, answers: Answers) returns (resp: Response)
    requires IsFreshToken(newToken)
    requires db.Valid()
    modifies sess, db`orders, db`notifications, db`nextNotificationId
    ensures db.Valid()
    ensures !old(sess.IsAdmin() && sess.Admits(req, php)) ==> resp.Redirect? && TablesOf(db) == old(TablesOf(db))
    ensures old(sess.IsAdmin() && sess.Admits(req, php)) ==>
      Handled(TablesOf(db), resp)
      == Process(old(TablesOf(db)), TokenAfterInit(old(sess.csrfToken), newToken), delete, post, req.now, answers)
  {
    ghost var t0 := TablesOf(db);
    var stop := sess.AdminGate(req, php, newToken);
    if stop.Some? {
      return stop.value;
    }
    var token := sess.csrfToken;
    var banners := Banners(None, None);
    if delete.Some? {
      var o := DeleteOrder(db, delete.value, answers.delete);
      banners := Show(banners, o);
    }
    if post.None? {
      return Page(banners.success, banners.error);
    }
    var f := post.value;
    if f.updateStatus {
      if !ValidateCsrfToken(f.csrfToken, token) {
        return Halt(403, CsrfFailed);
      }
      var o := UpdateStatus(db, f.orderId, f.status, req.now, answers.status);
      banners := Show(banners, o);
    }
    if f.updatePayment {
      if !ValidateCsrfToken(f.csrfToken, token) {
        return Halt(403, CsrfFailed);
      }
      var o := UpdatePayment(db, f.orderId, f.paymentStatus, req.now, answers.payment);
      banners := Show(banners, o);
    }
    resp := Page(banners.success, banners.error);
  }
}
