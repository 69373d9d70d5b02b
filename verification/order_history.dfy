/** admin/order_history.php: the history of completed (Pickup) orders. An
    administrator may clear the history, which deletes every Pickup order,
    or archive one order; the page lists the Pickup orders of a day or a
    month, newest first, with statistics over the same rows. */
module OrderHistory {
  import opened Util
  import opened Php
  import opened Constants
  import opened Schema
  import opened Security
  import opened NotifyText
  import opened ManageOrders

  const ClearedMessage := "✅ Order history cleared successfully!"
  const ArchivedText := " archived successfully!"

  function ArchivedMessage(id: int): string {
    OrderRef(id) + ArchivedText
  }

  function NotPickedUp(o: Order): bool {
    o.status != Pickup
  }

  /** DELETE FROM orders WHERE status = 'Pickup'. */
  function WithoutPickups(rows: seq<Order>): (r: seq<Order>)
    ensures forall o :: o in r <==> o in rows && o.status != Pickup
  {
    Filter(rows, NotPickedUp)
  }

  /** How a day or a month is read off a creation time: DATE(created_at)
      and DATE_FORMAT(created_at, '%Y-%m'). */
  datatype Calendar = Calendar(day: int -> string, month: int -> string)

  /** The date condition of the WHERE clause. */
  datatype Period = OnDay(day: string) | InMonth(month: string) | AnyTime

  /** filter_date when it is non-empty, else filter_month when it is
      non-empty, else no date condition. */
  function PeriodOf(filterDate: string, filterMonth: string): Period {
    if !IsEmpty(filterDate) then OnDay(filterDate)
    else if !IsEmpty(filterMonth) then InMonth(filterMonth)
    else AnyTime
  }

  predicate InHistory(o: Order, cal: Calendar, p: Period) {
    && o.status == Pickup
    && match p
       case OnDay(d) => cal.day(o.createdAt) == d
       case InMonth(m) => cal.month(o.createdAt) == m
       case AnyTime => true
  }

  function HistorySelection(cal: Calendar, p: Period): Order -> bool {
    (o: Order) => InHistory(o, cal, p)
  }

  /** The rows the WHERE clause selects, in table order (the statistics
      query). */
  function HistoryRows(orders: seq<Order>, cal: Calendar, p: Period): seq<Order> {
    Filter(orders, HistorySelection(cal, p))
  }

  /** The same rows ORDER BY created_at DESC (the list query). */
  function HistoryOrders(orders: seq<Order>, cal: Calendar, p: Period): seq<Order> {
    SortDesc(HistoryRows(orders, cal, p), CreatedAt)
  }

  /** The list as shown, with the customer's name and e-mail from the
      LEFT JOINed user. */
  function HistoryList(orders: seq<Order>, users: seq<User>, cal: Calendar, p: Period): (r: seq<ListedOrder>)
    ensures |r| == |HistoryOrders(orders, cal, p)|
    ensures forall i :: 0 <= i < |r| ==> r[i] == Listed(HistoryOrders(orders, cal, p)[i], users)
  {
    var sorted := HistoryOrders(orders, cal, p);
    seq(|sorted|, i requires 0 <= i < |sorted| => Listed(sorted[i], users))
  }

  /** The statistics cards: COUNT(*), SUM(total_cost), AVG(total_cost)
      (NULL over no rows), the paid count and the paid revenue. Over no
      rows every SUM is NULL as well; the model keeps 0 for them, which is
      what number_format prints for the revenues, while the paid count is
      echoed raw and so prints as an empty string. */
  datatype Stats = Stats(total: nat, revenue: real, average: Option<real>, paidCount: nat, paidRevenue: real)

  function Cost(o: Order): real {
    o.totalCost
  }

  function IsPaid(o: Order): bool {
    o.paymentStatus == Paid
  }

  function PaidCost(o: Order): real {
    if o.paymentStatus == Paid then o.totalCost else 0.0
  }

  function StatsOf(rows: seq<Order>): (r: Stats)
    ensures r.total == |rows| && r.paidCount <= r.total
    ensures r.average.Some? <==> |rows| > 0
  {
    CountAtMost(rows, IsPaid);
    var revenue := Sum(rows, Cost);
    Stats(|rows|, revenue, if |rows| > 0 then Some(revenue / (|rows| as real)) else None,
          Count(rows, IsPaid), Sum(rows, PaidCost))
  }

  lemma {:induction false} CountAtMost<T>(s: seq<T>, p: T -> bool)
    ensures Count(s, p) <= |s|
  {
    if s != [] {
      CountAtMost(s[1..], p);
    }
  }

  // ------------------------------------------------------------------
  // What the page promises
  // ------------------------------------------------------------------

  /** The list holds exactly the Pickup orders of the period, newest
      first. */
  lemma HistoryIsThePickupsOfThePeriod(orders: seq<Order>, cal: Calendar, p: Period)
    ensures var r := HistoryOrders(orders, cal, p);
      && (forall o :: o in r <==> o in orders && o.status == Pickup && InHistory(o, cal, p))
      && (forall i, j :: 0 <= i < j < |r| ==> r[i].createdAt >= r[j].createdAt)
  {
    SortedSelection(orders, HistorySelection(cal, p), CreatedAt);
  }

  /** A non-empty filter_date decides the rows whatever filter_month
      says. */
  lemma DateTakesPrecedence(filterDate: string, month1: string, month2: string)
    requires !IsEmpty(filterDate)
    ensures PeriodOf(filterDate, month1) == PeriodOf(filterDate, month2) == OnDay(filterDate)
  {
  }

  /** The statistics are those of the listed rows: the same count, revenue,
      average, paid count and paid revenue. */
  lemma {:induction false} StatsDescribeTheList(orders: seq<Order>, cal: Calendar, p: Period)
    ensures StatsOf(HistoryRows(orders, cal, p)) == StatsOf(HistoryOrders(orders, cal, p))
  {
    var rows := HistoryRows(orders, cal, p);
    SortKeepsCount(rows, CreatedAt, IsPaid);
    SortKeepsSum(rows, CreatedAt, Cost);
    SortKeepsSum(rows, CreatedAt, PaidCost);
  }

  /** After clearing, the history is empty for every period. */
  lemma ClearedHistoryIsEmpty(orders: seq<Order>, cal: Calendar, p: Period)
    ensures HistoryOrders(WithoutPickups(orders), cal, p) == []
  {
    var r := HistoryOrders(WithoutPickups(orders), cal, p);
    HistoryIsThePickupsOfThePeriod(WithoutPickups(orders), cal, p);
    if r != [] {
      assert false;
    }
  }

  /** Clearing removes exactly as many rows as there are Pickup orders. */
  lemma {:induction false} ClearKeepsTheOthers(orders: seq<Order>)
    ensures |WithoutPickups(orders)| == |orders| - Count(orders, IsPickup)
  {
    if orders != [] {
      ClearKeepsTheOthers(orders[1..]);
    }
  }

  function IsPickup(o: Order): bool {
    o.status == Pickup
  }

  /** An archived order leaves the history, and the other rows keep their
      status. */
  lemma ArchivedOrderLeavesHistory(orders: seq<Order>, id: int, cal: Calendar, p: Period)
    ensures forall o <- HistoryOrders(WithStatus(orders, id, Archived), cal, p) :: o.id != id
    ensures forall i :: 0 <= i < |orders| && orders[i].id != id ==> WithStatus(orders, id, Archived)[i] == orders[i]
  {
    var after := WithStatus(orders, id, Archived);
    HistoryIsThePickupsOfThePeriod(after, cal, p);
    forall o <- HistoryOrders(after, cal, p)
      ensures o.id != id
    {
      var i :| 0 <= i < |after| && after[i] == o;
    }
    forall i | 0 <= i < |orders| && orders[i].id != id
      ensures after[i] == orders[i]
    {
      assert after[i].(status := orders[i].status) == orders[i];
    }
  }

  // ------------------------------------------------------------------
  // The page
  // ------------------------------------------------------------------

  /** The success banner: clear_history's, overwritten by archive's. */
  function HistoryBanner(clear: bool, archive: Option<int>): Option<string> {
    if archive.Some? then Some(ArchivedMessage(archive.value))
    else if clear then Some(ClearedMessage)
    else None
  }

  /** The orders table after clear_history (POST) and then archive (GET,
      already passed through intval). */
  function HistoryAfter(orders: seq<Order>, clear: bool, archive: Option<int>): seq<Order> {
    var cleared := if clear then WithoutPickups(orders) else orders;
    if archive.Some? then WithStatus(cleared, archive.value, Archived) else cleared
  }

  method ClearHistory(db: Db)
    requires db.Valid()
    modifies db`orders
    ensures db.Valid()
    ensures db.orders == WithoutPickups(old(db.orders))
  {
    db.orders := WithoutPickups(db.orders);
  }

  method ArchiveOrder(db: Db, id: int)
    requires db.Valid()
    modifies db`orders
    ensures db.Valid()
    ensures db.orders == WithStatus(old(db.orders), id, Archived)
  {
    var rows := WithStatus(db.orders, id, Archived);
    IdsStayBelow(db.orders, rows, db.nextOrderId);
    db.orders := rows;
  }

  /** The whole request: only a logged-in administrator gets past the top
      of the page (this page does not load the session guard). */
  method HandleOrderHistory(sess: Session, db: Db, clear: bool, archive: Option<int>) returns (resp: Response)
    requires db.Valid()
    modifies db`orders
    ensures db.Valid()
    ensures !sess.IsAdmin() ==> resp == Redirect(LoginPage) && db.orders == old(db.orders)
    ensures sess.IsAdmin() ==>
      db.orders == HistoryAfter(old(db.orders), clear, archive) && resp == Page(HistoryBanner(clear, archive), None)
  {
    if !sess.IsAdmin() {
      return Redirect(LoginPage);
    }
    if clear {
      ClearHistory(db);
    }
    if archive.Some? {
      ArchiveOrder(db, archive.value);
    }
    resp := Page(HistoryBanner(clear, archive), None);
  }
}
