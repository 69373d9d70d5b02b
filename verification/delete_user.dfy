/** admin/delete_user.php: an administrator deletes a customer account
    together with its orders and its order_history rows; the database's
    ON DELETE CASCADE then removes the account's notifications. An unknown id and
    an administrator account are refused; every request ends with a
    redirect to the dashboard, the outcome travelling in the session. */
module DeleteUser {
  import opened Util
  import opened Php
  import opened Constants
  import opened Schema
  import opened Security

  const Dashboard := "dashboard.php"
  const CannotDeleteAdmin := "❌ You cannot delete another admin account."
  const UserDeleted := "✅ User and their orders were successfully deleted."
  const DeleteFailed := "⚠️ Failed to delete user. Please try again."
  const UserNotFound := "⚠️ User not found."

  /** The rows DELETE FROM orders WHERE user_id = id keeps (a NULL owner
      never matches). */
  function NotOwnedOrder(id: int): Order -> bool {
    (o: Order) => o.userId != Some(id)
  }

  function WithoutOrdersOf(orders: seq<Order>, id: int): (r: seq<Order>)
    ensures forall o :: o in r <==> o in orders && o.userId != Some(id)
  {
    Filter(orders, NotOwnedOrder(id))
  }

  function NotOwnedEntry(id: int): HistoryEntry -> bool {
    (h: HistoryEntry) => h.userId != Some(id)
  }

  function WithoutHistoryOf(history: seq<HistoryEntry>, id: int): (r: seq<HistoryEntry>)
    ensures forall h :: h in r <==> h in history && h.userId != Some(id)
  {
    Filter(history, NotOwnedEntry(id))
  }

  function NotWithId(id: int): User -> bool {
    (u: User) => u.id != id
  }

  function WithoutUser(users: seq<User>, id: int): (r: seq<User>)
    ensures forall u :: u in r <==> u in users && u.id != id
  {
    Filter(users, NotWithId(id))
  }

  /** The tables the page touches, with `notifications`, which the
      account's delete cascades into. */
  datatype Tables = Tables(orders: seq<Order>, history: seq<HistoryEntry>, users: seq<User>,
                           notifications: seq<Notification>)

  /** What the page leaves behind: the tables, and the session message
      (true for `$_SESSION['success']`, false for `$_SESSION['error']`). */
  datatype Cascade = Cascade(tables: Tables, success: bool, message: string)

  /** The request for `id`; `executes` is whether the final DELETE FROM
      users executes. */
  function CascadeOf(t: Tables, id: int, executes: bool): Cascade {
    match FindUser(t.users, id)
    case None => Cascade(t, false, UserNotFound)
    case Some(u) =>
      if u.role == Admin then Cascade(t, false, CannotDeleteAdmin)
      else
        var cleared := t.(orders := WithoutOrdersOf(t.orders, id), history := WithoutHistoryOf(t.history, id));
        var rows := WithoutUser(t.users, id);
        if executes then
          Cascade(cleared.(users := rows, notifications := AfterCascade(t.notifications, Gone(t.users, rows))),
                  true, UserDeleted)
        else Cascade(cleared, false, DeleteFailed)
  }

  /** An unknown id and an administrator's id change nothing. */
  lemma RefusalsChangeNothing(t: Tables, id: int, executes: bool)
    requires FindUser(t.users, id).None? || FindUser(t.users, id).value.role == Admin
    ensures CascadeOf(t, id, executes).tables == t
    ensures !CascadeOf(t, id, executes).success
    ensures FindUser(t.users, id).None? ==> CascadeOf(t, id, executes).message == UserNotFound
  {
  }

  /** A successful delete leaves no order, no history row, no account and
      no notification of that customer, and touches no other row. */
  lemma SuccessLeavesNoTrace(t: Tables, id: int)
    requires FindUser(t.users, id).Some? && FindUser(t.users, id).value.role != Admin
    ensures var c := CascadeOf(t, id, true);
      && c.success && c.message == UserDeleted
      && (forall o :: o in c.tables.orders <==> o in t.orders && o.userId != Some(id))
      && (forall h :: h in c.tables.history <==> h in t.history && h.userId != Some(id))
      && (forall u :: u in c.tables.users <==> u in t.users && u.id != id)
      && (forall n :: n in c.tables.notifications <==> n in t.notifications && n.userId != Some(id))
  {
    GoneIsTheId(t.users, WithoutUser(t.users, id), id);
  }

  /** The orders go first: when the final DELETE fails, the customer's
      orders and history are already gone while the account stays. */
  lemma FailedDeleteKeepsTheAccountOnly(t: Tables, id: int)
    requires FindUser(t.users, id).Some? && FindUser(t.users, id).value.role != Admin
    ensures var c := CascadeOf(t, id, false);
      && !c.success && c.message == DeleteFailed
      && c.tables.users == t.users && c.tables.notifications == t.notifications
      && (forall o <- c.tables.orders :: o.userId != Some(id))
      && (forall h <- c.tables.history :: h.userId != Some(id))
  {
  }

  function TablesOf(db: Db): Tables
    reads db
  {
    Tables(db.orders, db.orderHistory, db.users, db.notifications)
  }

  /** DELETE FROM orders WHERE user_id = id. */
  method DeleteOrdersOf(db: Db, id: int)
    requires db.Valid()
    modifies db`orders
    ensures db.Valid()
    ensures db.orders == WithoutOrdersOf(old(db.orders), id)
  {
    db.orders := WithoutOrdersOf(db.orders, id);
  }

  /** DELETE FROM users WHERE id = ?, with its cascade. */
  method DeleteUserRow(db: Db, id: int)
    requires db.Valid()
    modifies db`users, db`notifications
    ensures db.Valid()
    ensures db.users == WithoutUser(old(db.users), id)
    ensures db.notifications == AfterCascade(old(db.notifications), Gone(old(db.users), db.users))
  {
    DeleteAccounts(db, WithoutUser(db.users, id));
  }

  /** The deletes for a posted id, in the page's order. */
  method RunCascade(db: Db, id: int, executes: bool) returns (c: Cascade)
    requires db.Valid()
    modifies db`orders, db`orderHistory, db`users, db`notifications
    ensures db.Valid()
    ensures c == CascadeOf(old(TablesOf(db)), id, executes) && TablesOf(db) == c.tables
  {
    match FindUser(db.users, id) {
      case None =>
        c := Cascade(TablesOf(db), false, UserNotFound);
      case Some(u) =>
        if u.role == Admin {
          c := Cascade(TablesOf(db), false, CannotDeleteAdmin);
        } else {
          DeleteOrdersOf(db, id);
          db.orderHistory := WithoutHistoryOf(db.orderHistory, id);
          if executes {
            DeleteUserRow(db, id);
            c := Cascade(TablesOf(db), true, UserDeleted);
          } else {
            c := Cascade(TablesOf(db), false, DeleteFailed);
          }
        }
    }
  }

  /** The whole request: `target` is the posted user_id of a POST request,
      None for any other request. */
  method HandleDeleteUser(sess: Session, db: Db, target: Option<int>, executes: bool) returns (resp: Response)
    requires db.Valid()
    modifies sess`flashSuccess, sess`flashError, db`orders, db`orderHistory, db`users, db`notifications
    ensures db.Valid()
    ensures !sess.IsAdmin() ==> resp == Redirect(LoginPage) && TablesOf(db) == old(TablesOf(db))
    ensures sess.IsAdmin() ==> resp == Redirect(Dashboard)
    ensures sess.IsAdmin() && target.None? ==>
      TablesOf(db) == old(TablesOf(db)) && sess.flashSuccess == old(sess.flashSuccess)
      && sess.flashError == old(sess.flashError)
    ensures sess.IsAdmin() && target.Some? ==>
      var c := CascadeOf(old(TablesOf(db)), target.value, executes);
      && TablesOf(db) == c.tables
      && (if c.success then sess.flashSuccess == Some(c.message) && sess.flashError == old(sess.flashError)
          else sess.flashError == Some(c.message) && sess.flashSuccess == old(sess.flashSuccess))
  {
    if !sess.IsAdmin() {
      return Redirect(LoginPage);
    }
    if target.Some? {
      var c := RunCascade(db, target.value, executes);
      if c.success {
        sess.flashSuccess := Some(c.message);
      } else {
        sess.flashError := Some(c.message);
      }
    }
    resp := Redirect(Dashboard);
  }
}
