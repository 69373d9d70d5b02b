/** admin/create_order.php: an administrator records a walk-in order. The
    form posts the customer's details, the ticked services, one quantity
    per service card, a service mode and notes; the page prices the
    selection, stores an unpaid, pending order, mails the customer and
    alerts every administrator. */
module CreateOrder {
  import opened Util
  import opened Php
  import opened Constants
  import opened Schema
  import opened Security
  import opened Notify
  import opened NotifyText
  import opened OrderPricing
  import opened OrderDecision

  /** The mis-encoded peso sign this page writes (the UTF-8 bytes of "₱"
      read as Mac Roman). */
  const MisencodedPeso := "‚Ç±"
  const MisencodedCheck := "‚úÖ"
  const PayOnPickup := "Pay on Pickup"

  /** Express orders are due the next day, others in three days. */
  function DueDays(mode: ServiceMode): int {
    if mode == Express then 1 else 3
  }

  /** The row an accepted draft becomes: a walk-in order (no user), to pay
      on pickup, unpaid and pending. */
  function OrderRow(d: Draft, id: int, now: int): (o: Order)
    ensures o.id == id && o.userId.None? && o.totalCost == d.total
    ensures o.status == Pending && o.paymentStatus == Unpaid && o.paymentMethod == PayOnPickup
    ensures o.dueDate == now + DueDays(d.mode) * 86400 && o.createdAt == now
  {
    Order(id, None, Some(d.name), Some(d.email), Some(d.phone), d.options, d.mode, PayOnPickup, Unpaid,
          d.total, Pending, d.notes, now + DueDays(d.mode) * 86400, now)
  }

  const SubjectPrefix := "New Laundry Order #"
  const BodyGreeting := "<p>Hello <strong>"
  const BodyThanks := "</strong>,</p><p>Thank you for choosing our laundry service! Your order has been received.</p><h3>Order Details:</h3><ul><li><strong>Order #:</strong> "
  const BodyServices := "</li><li><strong>Services:</strong> "
  const BodyMode := "</li><li><strong>Service Mode:</strong> "
  const BodyReadyBy := "</li><li><strong>Ready By:</strong> "
  const BodyAmount := "</li><li><strong>Total Amount:</strong> "
  const BodyPayment := "</li></ul><p style='background: #fef3c7; padding: 15px; border-radius: 8px; color: #92400e;'><strong>üí∞ Payment:</strong> Please pay "
  const BodyClosing := " when you pick up your order.</p><p>We will notify you when your order is ready for pickup.</p>"
  const BannerOrder := " Order #"
  const BannerTotal := " created successfully! Total: "
  const BannerPay := " - Customer will pay on pickup."
  const BannerMailed := " Email confirmation sent to "

  function ConfirmationSubject(orderId: int): string {
    SubjectPrefix + IntToString(orderId)
  }

  /** The customer's confirmation; `readyBy` is date('F d, Y') of the due date. */
  function ConfirmationBody(d: Draft, orderId: int, readyBy: string): string {
    BodyGreeting + HtmlEscape(d.name, Html401) + BodyThanks + IntToString(orderId)
    + BodyServices + HtmlEscape(d.options, Html401)
    + BodyMode + ModeName(d.mode)
    + BodyReadyBy + readyBy
    + BodyAmount + MisencodedPeso + NumberFormat2(d.total)
    + BodyPayment + MisencodedPeso + NumberFormat2(d.total) + BodyClosing
  }

  /** The success banner; the e-mail sentence depends only on an address
      having been entered. */
  function SuccessMessage(d: Draft, orderId: int): string {
    MisencodedCheck + BannerOrder + IntToString(orderId) + BannerTotal + MisencodedPeso
    + NumberFormat2(d.total) + BannerPay
    + (if !IsEmpty(d.email) then BannerMailed + d.email else "")
  }

  /** The customer's confirmation mail, sent when an address was entered
      and is valid. */
  function Confirmation(d: Draft, orderId: int, php: Builtins, now: int): (r: seq<Mail>)
    ensures |r| <= 1
    ensures r != [] <==> !IsEmpty(d.email) && php.isValidEmail(d.email)
    ensures forall m <- r :: m.to == d.email && m.subject == ConfirmationSubject(orderId)
  {
    if !IsEmpty(d.email) && php.isValidEmail(d.email)
    then [Mail(d.email, ConfirmationSubject(orderId),
               ConfirmationBody(d, orderId, php.formatDate(now + DueDays(d.mode) * 86400)))]
    else []
  }

  /** What the page shows once the request is past the rate limit: the
      empty form, the decision's error, the INSERT's failure, or the
      success banner for order `orderId`. */
  function Reply(form: Option<OrderForm>, sessionToken: Option<string>, php: Builtins, write: WriteResult,
                 orderId: int): Response
  {
    if form.None? then Page(None, None)
    else
      match Decide(form.value, sessionToken, php)
      case Rejected(e) => Page(None, Some(e))
      case NothingToStore => Page(None, None)
      case Accepted(d) =>
        match write
        case PrepareFailed(_) => Page(None, Some(DatabaseError))
        case ExecuteFailed(why) => Page(None, Some(FailedPrefix + why))
        case Stored => Page(Some(SuccessMessage(d, orderId)), None)
  }

  /** The page reports success exactly when it stores the order, and it
      reports an error for every accepted form the database refused. */
  lemma SuccessIffStored(form: Option<OrderForm>, sessionToken: Option<string>, php: Builtins, write: WriteResult,
                         orderId: int, before: seq<Order>, after: seq<Order>, now: int)
    requires Submitted(before, after, orderId, form, sessionToken, php, write, now)
    ensures var r := Reply(form, sessionToken, php, write, orderId);
      && r.Page?
      && (r.success.Some? <==> after != before)
      && (r.success.Some? ==> r.error.None?)
      && (form.Some? && Decide(form.value, sessionToken, php).Accepted? && !write.Stored? ==>
          r.error.Some? && after == before)
  {
  }

  /** The whole request: security.php's guard, the administrator check, the
      rate limit, and for a POST the decision and its effects. `token` is
      the random token the guard may need, `nextToken` the one issued after
      an order is stored, `write` the database's answer to the INSERT and
      `accepts` which administrators' notification rows it takes. */
  method HandleCreateOrder(sess: Session, db: Db, mailer: Mailer, req: Request, form: Option<OrderForm>,
                           php: Builtins, token: string, nextToken: string, write: WriteResult,
                           accepts: User -> bool)
    returns (resp: Response)
    requires IsFreshToken(token) && IsFreshToken(nextToken)
    requires db.Valid()
    modifies sess, db`orders, db`nextOrderId, db`notifications, db`nextNotificationId, mailer
    ensures db.Valid()
    ensures !old(sess.IsAdmin() && sess.Admits(req, php)) ==>
      && resp.Redirect? && db.orders == old(db.orders) && db.notifications == old(db.notifications)
      && mailer.sent == old(mailer.sent)
    ensures old(sess.IsAdmin() && sess.Admits(req, php)) ==>
      var tokenNow := TokenAfterInit(old(sess.csrfToken), token);
      var key := ClientKey("create_order", req.remoteAddr);
      var step := RateStep(Lookup(old(sess.rateLimit), key), RateLimitOrder, RateLimitWindow, req.now);
      && sess.userId == old(sess.userId) && sess.role == old(sess.role) && sess.name == old(sess.name)
      && sess.rateLimit == old(sess.rateLimit)[key := step.record]
      && (!step.allowed ==>
          && resp == Halt(200, TooManyOrders)
          && db.orders == old(db.orders) && db.notifications == old(db.notifications)
          && mailer.sent == old(mailer.sent) && sess.csrfToken == tokenNow)
      && (step.allowed ==>
          && Submitted(old(db.orders), db.orders, old(db.nextOrderId), form, tokenNow, php, write, req.now)
          && resp == Reply(form, tokenNow, php, write, old(db.nextOrderId))
          && (db.orders == old(db.orders) ==>
              && db.notifications == old(db.notifications) && mailer.sent == old(mailer.sent)
              && sess.csrfToken == tokenNow)
          && (db.orders != old(db.orders) ==>
              var d := Decide(form.value, tokenNow, php).draft;
              && db.notifications == old(db.notifications)
                 + Fanout(Filter(Admins(old(db.users)), accepts), old(db.nextNotificationId), "order", NewOrderTitle,
                          NewOrderMessage(old(db.nextOrderId), d.name, d.total, MisencodedPeso),
                          Some(AdminOrdersLink), req.now)
              && mailer.sent == old(mailer.sent) + Confirmation(d, old(db.nextOrderId), php, req.now)
              && sess.csrfToken == Some(nextToken)))
  {
    var stop := sess.AdminGate(req, php, token);
    if stop.Some? {
      return stop.value;
    }
    var allowed := sess.CheckRateLimit("create_order", req.remoteAddr, RateLimitOrder, RateLimitWindow, req.now);
    if !allowed {
      return Halt(200, TooManyOrders);
    }
    resp := SubmitOrder(sess, db, mailer, req, form, php, nextToken, write, accepts);
  }

  /** What a request past the rate limit leaves in `orders`: a new row
      exactly when a form was posted, Decide accepts it on the session's
      token, and the INSERT succeeded. */
  ghost predicate Submitted(before: seq<Order>, after: seq<Order>, nextId: int, form: Option<OrderForm>,
                            sessionToken: Option<string>, php: Builtins, write: WriteResult, now: int)
  {
    if form.Some? && write == Stored && Decide(form.value, sessionToken, php).Accepted? then
      after == before + [OrderRow(Decide(form.value, sessionToken, php).draft, nextId, now)]
    else after == before
  }

  /** The POST handling once the request is admitted: validate, store, and
      report; a GET shows the empty form. */
  method SubmitOrder(sess: Session, db: Db, mailer: Mailer, req: Request, form: Option<OrderForm>,
                     php: Builtins, nextToken: string, write: WriteResult, accepts: User -> bool)
    returns (resp: Response)
    requires IsFreshToken(nextToken)
    requires db.Valid()
    modifies sess`csrfToken, db`orders, db`nextOrderId, db`notifications, db`nextNotificationId, mailer
    ensures db.Valid()
    ensures Submitted(old(db.orders), db.orders, old(db.nextOrderId), form, old(sess.csrfToken), php, write, req.now)
    ensures resp == Reply(form, old(sess.csrfToken), php, write, old(db.nextOrderId))
    ensures db.orders == old(db.orders) ==>
      db.notifications == old(db.notifications) && mailer.sent == old(mailer.sent) && sess.csrfToken == old(sess.csrfToken)
    ensures db.orders != old(db.orders) ==>
      var d := Decide(form.value, old(sess.csrfToken), php).draft;
      && db.notifications == old(db.notifications)
         + Fanout(Filter(Admins(old(db.users)), accepts), old(db.nextNotificationId), "order", NewOrderTitle,
                  NewOrderMessage(old(db.nextOrderId), d.name, d.total, MisencodedPeso),
                  Some(AdminOrdersLink), req.now)
      && mailer.sent == old(mailer.sent) + Confirmation(d, old(db.nextOrderId), php, req.now)
      && sess.csrfToken == Some(nextToken)
  {
    if form.None? {
      return Page(None, None);
    }
    var decision := ValidateForm(form.value, sess.csrfToken, php);
    match decision {
      case Rejected(e) =>
        return Page(None, Some(e));
      case NothingToStore =>
        return Page(None, None);
      case Accepted(d) =>
        match write {
          case PrepareFailed(_) =>
            return Page(None, Some(DatabaseError));
          case ExecuteFailed(why) =>
            return Page(None, Some(FailedPrefix + why));
          case Stored =>
        }
        resp := PlaceOrder(sess, db, mailer, d, req, php, nextToken, accepts);
    }
  }

  /** What follows a successful INSERT: the confirmation mail when an
      address was entered and is valid, a notification for every
      administrator whose row the database takes, the success banner and a
      new CSRF token. */
  method PlaceOrder(sess: Session, db: Db, mailer: Mailer, d: Draft, req: Request, php: Builtins, nextToken: string,
                    accepts: User -> bool)
    returns (resp: Response)
    requires db.Valid() && IsFreshToken(nextToken)
    modifies sess`csrfToken, db`orders, db`nextOrderId, db`notifications, db`nextNotificationId, mailer
    ensures db.Valid()
    ensures db.orders == old(db.orders) + [OrderRow(d, old(db.nextOrderId), req.now)]
    ensures db.nextOrderId == old(db.nextOrderId) + 1
    ensures db.notifications == old(db.notifications)
      + Fanout(Filter(Admins(old(db.users)), accepts), old(db.nextNotificationId), "order", NewOrderTitle,
               NewOrderMessage(old(db.nextOrderId), d.name, d.total, MisencodedPeso), Some(AdminOrdersLink), req.now)
    ensures mailer.sent == old(mailer.sent) + Confirmation(d, old(db.nextOrderId), php, req.now)
    ensures sess.csrfToken == Some(nextToken)
    ensures resp == Page(Some(SuccessMessage(d, old(db.nextOrderId))), None)
  {
    var orderId := db.nextOrderId;
    db.orders := db.orders + [OrderRow(d, orderId, req.now)];
    db.nextOrderId := db.nextOrderId + 1;
    SendConfirmation(mailer, d, orderId, php, req.now);
    AlertAdmins(db, Admins(db.users), accepts, "order", NewOrderTitle,
                NewOrderMessage(orderId, d.name, d.total, MisencodedPeso), Some(AdminOrdersLink), req.now);
    var _ := sess.RegenerateCsrfToken(nextToken);
    resp := Page(Some(SuccessMessage(d, orderId)), None);
  }

  /** The confirmation mail of the page, when an address was entered and
      is valid. */
  method SendConfirmation(mailer: Mailer, d: Draft, orderId: int, php: Builtins, now: int)
    modifies mailer
    ensures mailer.sent == old(mailer.sent) + Confirmation(d, orderId, php, now)
  {
    if !IsEmpty(d.email) && php.isValidEmail(d.email) {
      mailer.Send(d.email, ConfirmationSubject(orderId),
                  ConfirmationBody(d, orderId, php.formatDate(now + DueDays(d.mode) * 86400)));
    }
  }
}
