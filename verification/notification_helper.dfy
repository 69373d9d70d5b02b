/** includes/notification_helper.php: in-app notifications (rows of the
    `notifications` table) and the e-mails that accompany them. */
module Notify {
  import opened Util
  import opened Php
  import opened Constants
  import opened Schema
  import opened NotifyText

  /** The rows one INSERT per recipient adds: unread, stamped `now`, with
      consecutive ids from `firstId`. */
  function Fanout(recipients: seq<User>, firstId: int, kind: string, title: string, message: string,
                  link: Option<string>, now: int): (r: seq<Notification>)
    ensures |r| == |recipients|
    ensures forall i :: 0 <= i < |r| ==>
      r[i] == Notification(firstId + i, Some(recipients[i].id), kind, title, message, link, false, now)
  {
    seq(|recipients|, i requires 0 <= i < |recipients| =>
      Notification(firstId + i, Some(recipients[i].id), kind, title, message, link, false, now))
  }

  /** The fan-out to one more recipient, after rows already in `before`. */
  lemma FanoutAppend(before: seq<Notification>, recipients: seq<User>, u: User, firstId: int, kind: string,
                     title: string, message: string, link: Option<string>, now: int)
    ensures before + Fanout(recipients + [u], firstId, kind, title, message, link, now)
      == before + Fanout(recipients, firstId, kind, title, message, link, now)
         + [Notification(firstId + |recipients|, Some(u.id), kind, title, message, link, false, now)]
  {
    var n := Notification(firstId + |recipients|, Some(u.id), kind, title, message, link, false, now);
    assert Fanout(recipients + [u], firstId, kind, title, message, link, now)
      == Fanout(recipients, firstId, kind, title, message, link, now) + [n];
  }

  /** The recipients among the first `n` of `s` that pass `accepts`,
      built one recipient at a time as the loops below reach them. */
  function Taken(s: seq<User>, accepts: User -> bool, n: nat): seq<User>
    requires n <= |s|
  {
    if n == 0 then [] else Taken(s, accepts, n - 1) + (if accepts(s[n - 1]) then [s[n - 1]] else [])
  }

  /** Taking the recipients one by one selects the same ones as Filter. */
  lemma {:induction false} TakenIsFilter(s: seq<User>, accepts: User -> bool, n: nat)
    requires n <= |s|
    ensures Taken(s, accepts, n) == Filter(s[..n], accepts)
  {
    if n > 0 {
      TakenIsFilter(s, accepts, n - 1);
      assert s[..n] == s[..n - 1] + [s[n - 1]];
      FilterAppend(s[..n - 1], s[n - 1], accepts);
    }
  }

  /** Some row of `alerts` is addressed to user `uid`. */
  predicate Alerted(alerts: seq<Notification>, uid: int) {
    exists i :: 0 <= i < |alerts| && alerts[i].userId == Some(uid)
  }

  /** `n` is addressed to an administrator of `users`. */
  predicate ToAnAdmin(users: seq<User>, n: Notification) {
    exists j :: 0 <= j < |users| && users[j].role == Admin && n.userId == Some(users[j].id)
  }

  /** A fan-out to the administrators alerts every administrator whose
      INSERT the database takes, and nobody else. */
  lemma FanoutReachesExactlyTheAdmins(users: seq<User>, accepts: User -> bool, firstId: int, kind: string, title: string,
                                      message: string, link: Option<string>, now: int)
    ensures forall j :: 0 <= j < |users| && users[j].role == Admin && accepts(users[j]) ==>
      Alerted(Fanout(Filter(Admins(users), accepts), firstId, kind, title, message, link, now), users[j].id)
    ensures forall n <- Fanout(Filter(Admins(users), accepts), firstId, kind, title, message, link, now) ::
      ToAnAdmin(users, n)
  {
    var admins := Admins(users);
    var reached := Filter(admins, accepts);
    var alerts := Fanout(reached, firstId, kind, title, message, link, now);
    forall j | 0 <= j < |users| && users[j].role == Admin && accepts(users[j])
      ensures Alerted(alerts, users[j].id)
    {
      assert users[j] in admins;
      var k :| 0 <= k < |admins| && admins[k] == users[j];
      assert users[j] in reached;
      var i :| 0 <= i < |reached| && reached[i] == users[j];
      assert alerts[i].userId == Some(users[j].id);
    }
    forall n <- alerts
      ensures ToAnAdmin(users, n)
    {
      var i :| 0 <= i < |alerts| && alerts[i] == n;
      var a := reached[i];
      assert a in admins;
      assert a in users && a.role == Admin;
      var j :| 0 <= j < |users| && users[j] == a;
      assert users[j].role == Admin && n.userId == Some(users[j].id);
    }
  }

  /** sendNotification: one unread row when the database takes the
      statement (`accepted`), nothing otherwise; the result says which. */
  method SendNotification(db: Db, userId: Option<int>, kind: string, title: string, message: string,
                          link: Option<string>, now: int, accepted: bool) returns (ok: bool)
    requires db.Valid()
    modifies db`notifications, db`nextNotificationId
    ensures db.Valid()
    ensures ok == accepted
    ensures ok ==> && db.notifications == old(db.notifications)
                      + [Notification(old(db.nextNotificationId), userId, kind, title, message, link, false, now)]
                   && db.nextNotificationId == old(db.nextNotificationId) + 1
    ensures !ok ==> db.notifications == old(db.notifications) && db.nextNotificationId == old(db.nextNotificationId)
  {
    if !accepted {
      return false;
    }
    db.notifications := db.notifications
      + [Notification(db.nextNotificationId, userId, kind, title, message, link, false, now)];
    db.nextNotificationId := db.nextNotificationId + 1;
    ok := true;
  }

  /** The loop of create_order.php's own new-order alert: one
      sendNotification per administrator (`admins`, in table order) with
      the same kind, title, message and link; the result of each is
      ignored, so an administrator whose INSERT the database refuses
      (`!accepts(admin)`) just gets no row. */
  method AlertAdmins(db: Db, admins: seq<User>, accepts: User -> bool, kind: string, title: string, message: string,
                     link: Option<string>, now: int)
    requires db.Valid()
    modifies db`notifications, db`nextNotificationId
    ensures db.Valid()
    ensures db.notifications == old(db.notifications)
      + Fanout(Filter(admins, accepts), old(db.nextNotificationId), kind, title, message, link, now)
    ensures db.nextNotificationId == old(db.nextNotificationId) + |Filter(admins, accepts)|
  {
    var before, firstId := db.notifications, db.nextNotificationId;
    ghost var reached: seq<User> := [];
    var i := 0;
    while i < |admins|
      invariant 0 <= i <= |admins|
      invariant db.Valid()
      invariant reached == Taken(admins, accepts, i)
      invariant db.notifications == before + Fanout(reached, firstId, kind, title, message, link, now)
      invariant db.nextNotificationId == firstId + |reached|
    {
      var _ := SendNotification(db, Some(admins[i].id), kind, title, message, link, now, accepts(admins[i]));
      if accepts(admins[i]) {
        FanoutAppend(before, reached, admins[i], firstId, kind, title, message, link, now);
        reached := reached + [admins[i]];
      }
      i := i + 1;
    }
    TakenIsFilter(admins, accepts, |admins|);
    assert admins[..|admins|] == admins;
  }

  /** One turn of the notifyNewOrder loop: the row for `admin` when the
      database takes it (`accepted`), then the mail, which is sent either
      way. */
  method AlertAndMailOne(db: Db, mailer: Mailer, admin: User, accepted: bool, kind: string, title: string,
                         message: string, link: Option<string>, mail: Mail, now: int)
    requires db.Valid()
    modifies db`notifications, db`nextNotificationId, mailer
    ensures db.Valid()
    ensures db.notifications == old(db.notifications)
      + (if accepted then [Notification(old(db.nextNotificationId), Some(admin.id), kind, title, message, link, false, now)]
         else [])
    ensures db.nextNotificationId == old(db.nextNotificationId) + (if accepted then 1 else 0)
    ensures mailer.sent == old(mailer.sent) + [mail]
  {
    var _ := SendNotification(db, Some(admin.id), kind, title, message, link, now, accepted);
    mailer.Send(mail.to, mail.subject, mail.body);
  }

  /** The notifyNewOrder loop: to each administrator in turn, the
      notification row (when the database takes it) and then their e-mail
      (`mails[i]` is the mail for `admins[i]`). */
  method AlertAndMailAdmins(db: Db, mailer: Mailer, admins: seq<User>, accepts: User -> bool, kind: string,
                            title: string, message: string, link: Option<string>, mails: seq<Mail>, now: int)
    requires db.Valid()
    requires |mails| == |admins|
    modifies db`notifications, db`nextNotificationId, mailer
    ensures db.Valid()
    ensures db.notifications == old(db.notifications)
      + Fanout(Filter(admins, accepts), old(db.nextNotificationId), kind, title, message, link, now)
    ensures db.nextNotificationId == old(db.nextNotificationId) + |Filter(admins, accepts)|
    ensures mailer.sent == old(mailer.sent) + mails
  {
    var before, firstId, outbox := db.notifications, db.nextNotificationId, mailer.sent;
    ghost var reached: seq<User> := [];
    var i := 0;
    while i < |admins|
      invariant 0 <= i <= |admins|
      invariant db.Valid()
      invariant reached == Taken(admins, accepts, i)
      invariant db.notifications == before + Fanout(reached, firstId, kind, title, message, link, now)
      invariant db.nextNotificationId == firstId + |reached|
      invariant mailer.sent == outbox + mails[..i]
    {
      AlertAndMailOne(db, mailer, admins[i], accepts(admins[i]), kind, title, message, link, mails[i], now);
      if accepts(admins[i]) {
        FanoutAppend(before, reached, admins[i], firstId, kind, title, message, link, now);
        reached := reached + [admins[i]];
      }
      PrefixSnoc(outbox, mails, i);
      i := i + 1;
    }
    TakenIsFilter(admins, accepts, |admins|);
    assert admins[..|admins|] == admins;
    assert mails[..|mails|] == mails;
  }

  /** notifyNewOrder: every administrator whose notification the database
      takes (`accepts`) gets a row, every administrator gets an e-mail, and
      the result is always true. */
  method NotifyNewOrder(db: Db, mailer: Mailer, orderId: int, customerName: string, total: real, now: int,
                        accepts: User -> bool)
    returns (ok: bool)
    requires db.Valid()
    modifies db`notifications, db`nextNotificationId, mailer
    ensures db.Valid()
    ensures ok
    ensures var admins := Admins(old(db.users));
      && db.notifications == old(db.notifications)
         + Fanout(Filter(admins, accepts), old(db.nextNotificationId), "order", NewOrderTitle,
                  NewOrderMessage(orderId, customerName, total, Peso), Some(AdminOrdersLink), now)
      && db.nextNotificationId == old(db.nextNotificationId) + |Filter(admins, accepts)|
      && mailer.sent == old(mailer.sent) + AdminMails(admins, orderId, customerName, total)
  {
    var admins := Admins(db.users);
    AlertAndMailAdmins(db, mailer, admins, accepts, "order", NewOrderTitle,
      NewOrderMessage(orderId, customerName, total, Peso), Some(AdminOrdersLink),
      AdminMails(admins, orderId, customerName, total), now);
    ok := true;
  }

  /** notifyCustomerStatusChange: an 'order' notification to the owner. */
  method NotifyCustomerStatusChange(db: Db, orderId: int, userId: int, newStatus: string, now: int, accepted: bool)
    returns (ok: bool)
    requires db.Valid()
    modifies db`notifications, db`nextNotificationId
    ensures db.Valid()
    ensures ok == accepted
    ensures ok ==> db.notifications == old(db.notifications) + [Notification(old(db.nextNotificationId), Some(userId),
                     "order", StatusTitle(orderId), StatusMessage(newStatus), Some(CustomerOrderLink), false, now)]
    ensures ok ==> db.nextNotificationId == old(db.nextNotificationId) + 1
    ensures !ok ==> db.notifications == old(db.notifications) && db.nextNotificationId == old(db.nextNotificationId)
  {
    ok := SendNotification(db, Some(userId), "order", StatusTitle(orderId), StatusMessage(newStatus),
                           Some(CustomerOrderLink), now, accepted);
  }

  /** notifyCustomerPaymentReceived: a 'payment' notification to the owner. */
  method NotifyCustomerPaymentReceived(db: Db, orderId: int, userId: int, amount: real, now: int, accepted: bool)
    returns (ok: bool)
    requires db.Valid()
    modifies db`notifications, db`nextNotificationId
    ensures db.Valid()
    ensures ok == accepted
    ensures ok ==> db.notifications == old(db.notifications) + [Notification(old(db.nextNotificationId), Some(userId),
                     "payment", PaymentTitle(orderId), PaymentMessage(amount), Some(CustomerOrderLink), false, now)]
    ensures ok ==> db.nextNotificationId == old(db.nextNotificationId) + 1
    ensures !ok ==> db.notifications == old(db.notifications) && db.nextNotificationId == old(db.nextNotificationId)
  {
    ok := SendNotification(db, Some(userId), "payment", PaymentTitle(orderId), PaymentMessage(amount),
                           Some(CustomerOrderLink), now, accepted);
  }
}
