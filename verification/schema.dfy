/** The rows of the database tables the handlers touch, the tables
    themselves (class Db, one sequence field per table in id order, ids
    handed out by AUTO_INCREMENT counters), and the outgoing mail. */
module Schema {
  import opened Util
  import opened Constants

  /** A row of `orders`. The due date is kept as the timestamp whose Y-m-d
      the page stores. */
  datatype Order = Order(
    id: int,
    userId: Option<int>,
    customerName: Option<string>,
    customerEmail: Option<string>,
    customerPhone: Option<string>,
    options: string,
    serviceMode: ServiceMode,
    paymentMethod: string,
    paymentStatus: PaymentStatus,
    totalCost: real,
    status: OrderStatus,
    notes: string,
    dueDate: int,
    createdAt: int)

  /** A row of `notifications`; a missing user id is a broadcast. */
  datatype Notification = Notification(
    id: int,
    userId: Option<int>,
    kind: string,
    title: string,
    message: string,
    link: Option<string>,
    isRead: bool,
    createdAt: int)

  /** A row of `users`; `passwordHash` is the SHA-256 hex of the password. */
  datatype User = User(id: int, name: string, email: string, passwordHash: string, role: Role, createdAt: int)

  /** A row of `order_history`: only the column the handlers use. */
  datatype HistoryEntry = HistoryEntry(id: int, userId: Option<int>)

  /** A row of `price_list`; older rows may lack the excess price. */
  datatype PriceRow = PriceRow(
    id: int,
    basePrice: real,
    excessPerKg: Option<real>,
    priceDry: real,
    priceIron: real,
    updatedAt: int)

  /** How the database answered a statement whose failure the page reports:
      stored, the statement could not be prepared (with the connection's
      error), or it failed to run (with the statement's error). */
  datatype WriteResult = Stored | PrepareFailed(error: string) | ExecuteFailed(reason: string)

  /** One call of mail(): recipient, subject and HTML body. */
  datatype Mail = Mail(to: string, subject: string, body: string)

  /** The first row of `rows` with the given id (SELECT ... WHERE id = ?). */
  function FindOrder(rows: seq<Order>, id: int): (r: Option<Order>)
    ensures r.Some? ==> r.value in rows && r.value.id == id
    ensures r.None? ==> forall i :: 0 <= i < |rows| ==> rows[i].id != id
  {
    if rows == [] then None
    else if rows[0].id == id then Some(rows[0])
    else FindOrder(rows[1..], id)
  }

  function FindUser(rows: seq<User>, id: int): (r: Option<User>)
    ensures r.Some? ==> r.value in rows && r.value.id == id
    ensures r.None? ==> forall i :: 0 <= i < |rows| ==> rows[i].id != id
  {
    if rows == [] then None
    else if rows[0].id == id then Some(rows[0])
    else FindUser(rows[1..], id)
  }

  /** SELECT ... FROM users WHERE role = 'admin', in table order. */
  function Admins(users: seq<User>): (r: seq<User>)
    ensures forall i :: 0 <= i < |r| ==> r[i] in users && r[i].role == Admin
    ensures forall i :: 0 <= i < |users| && users[i].role == Admin ==> users[i] in r
  {
    Filter(users, (u: User) => u.role == Admin)
  }

  /** The ids of some accounts. */
  function IdsOf(users: seq<User>): set<int> {
    set u <- users :: u.id
  }

  /** The account ids a DELETE FROM users removed when it turned `before`
      into `after`. */
  function Gone(before: seq<User>, after: seq<User>): set<int> {
    IdsOf(before) - IdsOf(after)
  }

  /** The notifications left by the ON DELETE CASCADE of
      notifications.user_id once the accounts with an id in `gone` are
      deleted: their rows go, every other row and every broadcast stays, in
      table order. */
  function AfterCascade(ns: seq<Notification>, gone: set<int>): (r: seq<Notification>)
    ensures forall n :: n in r <==> n in ns && !(n.userId.Some? && n.userId.value in gone)
  {
    Filter(ns, (n: Notification) => !(n.userId.Some? && n.userId.value in gone))
  }

  /** A delete that only removes rows with id `id` removes at most that
      account id, and removes exactly it when the account is there and
      every row with the id goes. */
  lemma GoneIsTheId(before: seq<User>, after: seq<User>, id: int)
    requires forall u <- after :: u in before
    requires forall u <- before :: u.id != id ==> u in after
    ensures Gone(before, after) <= {id}
    ensures (exists u <- before :: u.id == id) && (forall u <- after :: u.id != id) ==> Gone(before, after) == {id}
  {
    forall j | j in Gone(before, after)
      ensures j == id
    {
      var u :| u in before && u.id == j;
    }
    if (exists u <- before :: u.id == id) && (forall u <- after :: u.id != id) {
      var u :| u in before && u.id == id;
      assert id in IdsOf(before);
    }
  }

  class Db {
    var orders: seq<Order>
    var nextOrderId: int
    var notifications: seq<Notification>
    var nextNotificationId: int
    var users: seq<User>
    var nextUserId: int
    var orderHistory: seq<HistoryEntry>
    var priceList: seq<PriceRow>
    var nextPriceId: int
    /** email_settings, whose setting_key is UNIQUE: one value per key. */
    var emailSettings: map<string, string>

    /** Every id was handed out by its table's AUTO_INCREMENT counter. */
    ghost predicate Valid()
      reads this
    {
      && 1 <= nextOrderId && 1 <= nextNotificationId && 1 <= nextUserId && 1 <= nextPriceId
      && (forall o <- orders :: 0 < o.id < nextOrderId)
      && (forall n <- notifications :: 0 < n.id < nextNotificationId)
      && (forall u <- users :: 0 < u.id < nextUserId)
      && (forall p <- priceList :: 0 < p.id < nextPriceId)
    }

    constructor ()
      ensures Valid()
      ensures orders == [] && notifications == [] && users == [] && orderHistory == []
      ensures priceList == [] && emailSettings == map[]
    {
      orders, nextOrderId := [], 1;
      notifications, nextNotificationId := [], 1;
      users, nextUserId := [], 1;
      orderHistory := [];
      priceList, nextPriceId := [], 1;
      emailSettings := map[];
    }
  }

  /** A DELETE FROM users that leaves `rows`, together with the ON DELETE
      CASCADE it sets off in `notifications`. */
  method DeleteAccounts(db: Db, rows: seq<User>)
    requires db.Valid()
    requires forall u <- rows :: u in db.users
    modifies db`users, db`notifications
    ensures db.Valid()
    ensures db.users == rows
    ensures db.notifications == AfterCascade(old(db.notifications), Gone(old(db.users), rows))
  {
    db.notifications := AfterCascade(db.notifications, Gone(db.users, rows));
    db.users := rows;
  }

  /** The mail() transport: every call is recorded, in order. */
  class Mailer {
    var sent: seq<Mail>

    constructor ()
      ensures sent == []
    {
      sent := [];
    }

    /** sendEmailNotification($to, $subject, $body). */
    method Send(to: string, subject: string, body: string)
      modifies this
      ensures sent == old(sent) + [Mail(to, subject, body)]
    {
      sent := sent + [Mail(to, subject, body)];
    }
  }
}
