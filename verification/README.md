# Laundry back-office: a verified model

This project models the request-handling core of a PHP laundry back-office.
Customers register and log in. Administrators do the following:

- create orders priced from a fixed catalogue;
- move orders through their status and payment states, then clear or archive the picked-up ones;
- read an inbox of notifications;
- manage administrator and customer accounts;
- keep an append-only price list and a key/value table of e-mail settings.

Each page becomes one Dafny module. Its database statements become
updates of the tables it touches. The tables are `seq` fields of the
class `Schema.Db` (the e-mail settings are a `map`), and `$_SESSION` is
the class `Security.Session`. The pure parts of each page become
functions, and the lemmas beside them state what the page promises.

Inputs the program gets from outside are parameters:

- the current time, the client address and the user agent;
- fresh random tokens;
- SHA-256, `filter_var` e-mail validation, `strip_tags`, float formatting and date formatting (the `Php.Builtins` record);
- the answers of statements whose success the model cannot decide.

Modules:

- `Util`, `Php`, `Constants`, `Schema`: shared helpers, PHP built-ins, the enumerations and limits, and the tables.
- `Security`: includes/security.php (session guard, CSRF token, validators, sanitisers, rate limiter).
- `NotifyText`, `EmailTemplate`, `Notify`: includes/notification_helper.php.
- `OrderPricing`, `OrderDecision`, `CreateOrder`: admin/create_order.php.
- `ManageOrders`, `OrderHistory`, `Inbox`: admin/manage_orders.php, admin/order_history.php, admin/notifications.php.
- `Accounts`, `Register`, `Login`, `CreateAdmin`, `ManageAdmins`, `ManageUsers`, `DeleteUser`: the account pages.
- `PriceList`, `EmailSettings`: the two settings pages.

The one foreign key in the schema, `notifications.user_id` with `ON DELETE
CASCADE` (admin/notifications.php:41), is part of every account delete.

Money and quantities are `real`. PHP's `empty()` on a string is true for `""`
and `"0"` only (`Php.IsEmpty`).

## Model

| member | source | states |
|---|---|---|
| Constants.ValidListsAreTheEnumerations | laundry_system/includes/constants.php:12-42 | The status, payment and mode lists have 5, 3 and 2 entries, and every enumeration value's name is listed. Every status entry names a status, the status and payment entries are pairwise distinct, and different values have different names. |
| Constants.Esc | laundry_system/includes/constants.php:72-74 | esc(null) is the empty string. Otherwise the result holds no raw < > " ' and decodes back to the input. |
| Php.Trim | laundry_system/includes/security.php:239 | The result is a contiguous slice of the input that neither starts nor ends with a character trim() strips, and every stripped leading character is strippable. |
| Php.Truncate | laundry_system/includes/security.php:240 | substr($s, 0, n): the first min(n, length) characters of the input. |
| Php.ToLower | laundry_system/includes/security.php:252 | strtolower: same length, no upper-case ASCII letter left, each capital lowered and every other character kept. |
| Schema.FindOrder | laundry_system/admin/manage_orders.php:137-139 | SELECT ... FROM orders WHERE id = ?: a found row has that id and is in the table, and none means no row has it. |
| Schema.FindUser | laundry_system/admin/delete_user.php:16-20 | SELECT role FROM users WHERE id = ?: a found row has that id and is in the table, and none means no row has it. |
| Php.HtmlEscape | laundry_system/includes/security.php:241 | The escaped text holds no raw special character and is never shorter than the input. |
| Php.EscapeRoundTrip | laundry_system/includes/security.php:241 | Decoding the five entities recovers the escaped text exactly, so escaping loses nothing. |
| Php.IntToStringRoundTrip | laundry_system/includes/notification_helper.php:73 | The decimal text of an id reads back as the same integer. |
| Security.ValidateOrderStatus | laundry_system/includes/security.php:289-295 | A string is accepted iff it is strictly in VALID_ORDER_STATUSES; the accepted value is the status with that name, and anything else gives null. |
| Security.ValidatePaymentStatus | laundry_system/includes/security.php:303-309 | Accepted iff the string is in VALID_PAYMENT_STATUSES; the accepted value is the payment state with that name. |
| Security.ValidateServiceMode | laundry_system/includes/security.php:317-323 | Accepted iff the string is in VALID_SERVICE_MODES; the accepted value is the mode with that name. |
| Security.ValidatorsInvertNames | laundry_system/includes/security.php:289-323 | Validating the name of any status, payment state or mode gives that value back. |
| Security.ValidateId | laundry_system/includes/security.php:331-339 | The id comes back unchanged iff it is positive, and is refused otherwise. |
| Security.SanitizeText | laundry_system/includes/security.php:234-242 | A non-string gives ''. Otherwise the output holds no raw < > " ' and decodes to the trimmed input cut to maxLength characters. |
| Security.SanitizeEmail | laundry_system/includes/security.php:250-263 | Some iff the trimmed, lower-cased address validates and is at most 254 long. The result then validates and fits the limit. |
| Security.SanitizedEmailIsNormal | laundry_system/includes/security.php:250-263 | An accepted address has no upper-case letter and no leading or trailing blank. |
| Security.ValidateCsrfToken | laundry_system/includes/security.php:179-196 | True iff the submitted token is non-empty and equals the session's token; a missing or empty token on either side fails. |
| Security.RateStep | laundry_system/includes/security.php:354-396 | No record, or a window older than timeWindow: the record restarts at count 1 and the call passes. Inside the window the call passes iff count < maxAttempts; a refusal leaves the record unchanged (the window is not extended); a pass adds exactly 1; the count never exceeds maxAttempts. |
| Security.Remaining | laundry_system/includes/security.php:420-436 | maxAttempts without a record. Otherwise exactly max(0, maxAttempts − count): never negative, at least maxAttempts − count, and either 0 or maxAttempts − count. |
| Security.RemainingPredictsStep | laundry_system/includes/security.php:386-389 | Inside the window, the next call passes exactly when getRateLimitRemaining is positive. |
| Security.Run | laundry_system/includes/security.php:354-396 | Replaying checkRateLimit over a series of request times gives one verdict per request. |
| Security.RunInsideWindow | laundry_system/includes/security.php:386-395 | When every request falls inside the window of a record with count c, request i passes iff c + i < maxAttempts. |
| Security.BurstAllowsExactlyMax | laundry_system/includes/security.php:363-395 | From a fresh key, a burst inside one window lets exactly the first maxAttempts requests through. |
| Security.EleventhOrderInAMinuteRefused | laundry_system/admin/create_order.php:12-14 | With the order limit (10 per 60 s), the tenth order in a minute passes and the eleventh is refused. |
| Security.GuardResponse | laundry_system/includes/security.php:89-126 | The guard redirects iff the session expired or its user agent changed. |
| Security.Show | laundry_system/admin/manage_admins.php:21-24 | A successful branch sets the success banner and a refused one sets the error banner; the other banner is kept. |
| Security.TokenAfterInit | laundry_system/includes/security.php:152-158 | A non-empty token is kept; a missing or empty token is replaced by exactly the fresh one, so afterwards a non-empty token exists. |
| Security.Session.Destroy | laundry_system/includes/security.php:94-95 | session_unset: every session key is gone. |
| Security.Session.Enforce | laundry_system/includes/security.php:81-142 | No login: nothing changes. Inactivity strictly over SESSION_TIMEOUT, or a changed user-agent hash, clears the session. Otherwise last_activity becomes now, the agent hash is recorded, the first client IP is kept, a changed non-empty IP is only reported, and the login fields, token and counters are unchanged. |
| Security.Session.InitializeCsrfToken | laundry_system/includes/security.php:152-158 | An existing non-empty token is kept; otherwise the fresh token is stored. Afterwards exactly the returned token validates. |
| Security.Session.RegenerateCsrfToken | laundry_system/includes/security.php:218-221 | The session token is replaced by the fresh one, and only it validates. |
| Security.Session.Bootstrap | laundry_system/includes/security.php:81-142 | Loading security.php runs the guard and then initializeCsrfToken: an expired or hijacked session is cleared; otherwise the login fields and counters are unchanged and a non-empty token exists. |
| Security.Session.AdminGate | laundry_system/admin/manage_orders.php:6-12 | A page that loads security.php and then checks the role continues iff the session is an administrator's and passes the guard; otherwise it ends in a redirect. |
| Security.Session.CheckRateLimit | laundry_system/includes/security.php:354-396 | The verdict and the new record of the (action, client) key are RateStep's, and no other key changes. |
| Security.Session.ClearRateLimit | laundry_system/includes/security.php:404-411 | Removes only this action's key for this client. |
| Security.Session.RateLimitRemaining | laundry_system/includes/security.php:420-436 | maxAttempts when the key has no record; otherwise exactly max(0, maxAttempts − count) of the stored record. |
| Schema.Admins | laundry_system/includes/notification_helper.php:30 | SELECT ... WHERE role = 'admin': exactly the administrator rows. |
| Schema.AfterCascade | laundry_system/admin/notifications.php:32-43 | ON DELETE CASCADE of notifications.user_id: exactly the rows addressed to a deleted account go; broadcasts and every other row stay. |
| Schema.GoneIsTheId | laundry_system/admin/notifications.php:41 | A delete that only removes rows with one id removes at most that account id, and exactly it when the account is there and every row with the id goes. |
| Schema.DeleteAccounts | laundry_system/admin/notifications.php:41 | A DELETE FROM users leaves the given rows and cascades into the notifications of the accounts it removed. |
| Schema.Mailer.Send | laundry_system/includes/notification_helper.php:3-9 | One mail with the given recipient, subject and body is added to the outbox. |
| NotifyText.StatusTitleNamesTheOrder | laundry_system/includes/notification_helper.php:73 | Two different orders never get the same status-update title. |
| NotifyText.PaymentTitleNamesTheOrder | laundry_system/includes/notification_helper.php:84 | Two different orders never get the same payment title. |
| NotifyText.NewOrderSubjectNamesTheOrder | laundry_system/includes/notification_helper.php:44 | Two different orders never get the same new-order mail subject. |
| NotifyText.AdminMails | laundry_system/includes/notification_helper.php:42-49 | One mail per administrator, in order, to that administrator's address, with the order's subject. Each body holds that administrator's name, the customer's name and the order number. |
| NotifyText.MailBodyNamesTheOrder | laundry_system/includes/notification_helper.php:45-48 | The new-order mail body contains the administrator's name, the customer's name, the order number and the formatted total. |
| EmailTemplate.TestEmailSending | laundry_system/includes/notification_helper.php:55-66 | Exactly one test mail is sent, to the given address, with the fixed subject. |
| EmailTemplate.TemplateDefaults | laundry_system/includes/notification_helper.php:91-95 | Missing fields read as greeting "Customer", subject "Notification", and empty body, button text and link. |
| EmailTemplate.TemplateIgnoresTextWithoutLink | laundry_system/includes/notification_helper.php:102-104 | Without a link the button text has no effect: no call-to-action block appears. |
| EmailTemplate.TemplateWithLink | laundry_system/includes/notification_helper.php:97-108 | With a non-empty link the mail is the heading, the greeting, the body, the button block and the footer, in that order. |
| EmailTemplate.TemplateShowsTextWithLink | laundry_system/includes/notification_helper.php:102-104 | With a link, a different button text gives a different mail, so the block is really present. |
| Notify.Fanout | laundry_system/includes/notification_helper.php:32-40 | One unread row per recipient, in order, with consecutive ids and the given type, title, message and link. |
| Notify.FanoutReachesExactlyTheAdmins | laundry_system/includes/notification_helper.php:30-40 | Every administrator whose row the database takes gets one, and every row goes to an administrator. |
| Notify.SendNotification | laundry_system/includes/notification_helper.php:11-27 | A successful insert appends exactly one unread row with the given fields and the next id; a failed one changes nothing and returns false. |
| Notify.AlertAdmins | laundry_system/admin/create_order.php:172-182 | Appends one 'order' row, with consecutive ids, for each administrator whose INSERT the database takes, in table order, and changes nothing else; a refused INSERT is skipped, as the loop ignores sendNotification's result. |
| Notify.AlertAndMailOne | laundry_system/includes/notification_helper.php:32-48 | One loop turn: the administrator's row when the database takes it, and then the mail, which is sent either way. |
| Notify.AlertAndMailAdmins | laundry_system/includes/notification_helper.php:31-49 | The loop writes a row for each administrator whose INSERT is taken, with consecutive ids, and sends every administrator's mail in the same order. |
| Notify.NotifyNewOrder | laundry_system/includes/notification_helper.php:28-52 | Every administrator whose INSERT the database takes gets exactly one 'order' row; every administrator gets one mail; the result is always true. |
| Notify.NotifyCustomerStatusChange | laundry_system/includes/notification_helper.php:68-77 | A successful insert appends one unread 'order' row for the customer, titled "Order #id Status Updated" with the new status in the message; a failed one changes nothing. |
| Notify.NotifyCustomerPaymentReceived | laundry_system/includes/notification_helper.php:79-88 | A successful insert appends one unread 'payment' row for the customer, titled "Payment Received - Order #id" with the amount; a failed one changes nothing. |
| OrderPricing.Price | laundry_system/admin/create_order.php:50-61 | Every catalogue price lies between 30 and 250. |
| OrderPricing.CardAt | laundry_system/admin/create_order.php:19-30 | Card positions on the form and services correspond one to one. |
| OrderPricing.EveryServiceHasACard | laundry_system/admin/create_order.php:19-30 | Every service has exactly one card on the form. |
| OrderPricing.FindService | laundry_system/admin/create_order.php:80 | A found service carries the name looked up; not found means no later card has that name. |
| OrderPricing.ServiceNamed | laundry_system/admin/create_order.php:80 | The allow-list lookup returns a service with exactly the posted name. |
| OrderPricing.UnlistedNameIsUnknown | laundry_system/admin/create_order.php:80-83 | A name is refused iff no catalogue service has it. |
| OrderPricing.Entries | laundry_system/admin/create_order.php:79-85 | Each selected name is paired with its lookup and its quantity, in selection order. |
| OrderPricing.LineIsValid | laundry_system/admin/create_order.php:92-102 | A line for quantity 0 < q ≤ 1000 has the catalogue price and unit, and total price × q > 0. |
| OrderPricing.PriceStepKeepsTotal | laundry_system/admin/create_order.php:92-103 | One loop turn keeps the running total equal to the sum of the line totals. It never lowers the total, and it either adds nothing or appends one valid line. |
| OrderPricing.PriceStepFault | laundry_system/admin/create_order.php:80-90 | An unknown name or a quantity outside [0, 1000] is the turn's error, with the matching message. |
| OrderPricing.PriceStepAddsCost | laundry_system/admin/create_order.php:92-95 | A turn without error adds catalogue price × quantity (0 for quantity 0). |
| OrderPricing.PriceUpTo | laundry_system/admin/create_order.php:79-104 | After n turns there are at most n lines. |
| OrderPricing.PricingIsSound | laundry_system/admin/create_order.php:79-104 | After any number of turns the total is the sum of the lines, every line is valid, and the total is non-negative. |
| OrderPricing.ErrorSticks | laundry_system/admin/create_order.php:80-90 | Once a turn fails, the loop stops: later entries change nothing. |
| OrderPricing.NoErrorIffAllGood | laundry_system/admin/create_order.php:79-104 | The loop ends without error iff every entry names a service and has a quantity in [0, 1000]. |
| OrderPricing.FirstBadEntryReported | laundry_system/admin/create_order.php:79-90 | The error shown is the one for the first bad entry. |
| OrderPricing.TotalIsSelectionTotal | laundry_system/admin/create_order.php:92-95 | Without error, the total is the sum of catalogue price × quantity over the selection. |
| OrderPricing.PriceSelection | laundry_system/admin/create_order.php:76-104 | The pricing loop computes PriceUpTo over all entries, so every property above holds of its result. |
| OrderPricing.PairedByPosition | laundry_system/admin/create_order.php:85 | The i-th ticked service takes the i-th posted quantity (0 when missing). |
| OrderPricing.PairedByCard | laundry_system/admin/create_order.php:85 | Each ticked service takes the quantity of its own card. |
| OrderPricing.PositionPairingBillsAnotherCard | laundry_system/admin/create_order.php:85 | Only Blanket ticked, with the cards posting 2, 1, 1, 1, 1, 1, 5, 1, 1, 1: pairing by position bills the first card's quantity (240) instead of the Blanket card's (600), and changing the unticked first card changes the bill (360). |
| OrderPricing.CardPairingPricesTheTickedCards | laundry_system/admin/create_order.php:79-104 | With card pairing, the price depends only on the ticked cards' quantities, and it is their catalogue sum. |
| OrderDecision.CustomerError | laundry_system/admin/create_order.php:42-48 | No error iff the cleaned name has 2..255 characters and the email is empty or valid; the name is checked first. |
| OrderDecision.SettleIsSound | laundry_system/admin/create_order.php:106-128 | The total bound is checked before the 100 surcharge: a stored or empty selection has no pricing error and a line sum in [0, 100000]. A stored draft keeps the name, email, mode and lines, has at least one line, a total of the line sum plus the surcharge in (0, 100100], and notes of at most 1000 characters. |
| OrderDecision.DecideChecksTokenThenMode | laundry_system/admin/create_order.php:34-35 | A missing or different token is refused before anything else. A bad service mode is refused next, whatever the name and email. |
| OrderDecision.DecisionIsSound | laundry_system/admin/create_order.php:32-128 | An accepted order passed the token check. Its name has 2..255 characters, its email is empty or valid, and its mode validated. Its lines are non-empty and valid, its total is the line sum plus the surcharge and at most 100100, and its notes fit. Any settled form names only catalogue services, and the quantity paired with the i-th ticked service (the i-th posted quantity, as the page pairs them) is in [0, 1000]. |
| OrderDecision.ValidateForm | laundry_system/admin/create_order.php:34-118 | The POST checks, run step by step, reach exactly Decide's verdict, pricing the i-th ticked service with the i-th posted quantity as the page does. |
| OrderDecision.SettleSelection | laundry_system/admin/create_order.php:76-118 | The pricing loop followed by the total check reaches Settle's verdict. |
| CreateOrder.OrderRow | laundry_system/admin/create_order.php:123-147 | The stored order has no owner, the draft's total, status Pending, payment Unpaid, method "Pay on Pickup", and a due date 1 day (Express) or 3 days (Regular) ahead. |
| CreateOrder.HandleCreateOrder | laundry_system/admin/create_order.php:7-205 | The page may write only orders, notifications, their counters, the outbox and the session, so the users, history, price and settings tables stay as they were. A non-administrator or refused session is redirected with no new order, notification or mail. Otherwise the login fields are kept and checkRateLimit records the attempt. When it refuses (the eleventh order in a minute) the page halts with the limit message and changes no table, no mail and no token. An admitted request stores an order exactly when SubmitOrder would and shows Reply's page. On a stored order it adds a row for each administrator of the users table as it was, whose INSERT is taken, sends the customer's confirmation and issues a new token; otherwise notifications, mails and token are unchanged |
| CreateOrder.SubmitOrder | laundry_system/admin/create_order.php:32-200 | A row is stored exactly when a form was posted, Decide accepts it on the session's token and the INSERT succeeds. Then the administrators whose INSERT is taken get an 'order' row, the customer gets the confirmation, the token is regenerated and the success banner names the order. The response is Reply's: the decision's error, "Database error. Please try again." for a failed prepare, or "Failed to create order: " and the statement's error. Otherwise no row, no mail and no token change. |
| CreateOrder.SuccessIffStored | laundry_system/admin/create_order.php:130-199 | The page shows the success banner exactly when it stored the order, and an accepted form the database refused shows an error and stores nothing. |
| CreateOrder.PlaceOrder | laundry_system/admin/create_order.php:130-188 | Appends exactly the order row and one 'order' row per administrator whose INSERT the database takes. It mails the customer iff the email is non-empty and valid, regenerates the token, and adds the "email sent" text whenever an email was given. |
| CreateOrder.Confirmation | laundry_system/admin/create_order.php:152-170 | At most one mail, present iff the customer's email is non-empty and valid, addressed to it with the subject "New Laundry Order #id". |
| ManageOrders.WithoutOrder | laundry_system/admin/manage_orders.php:96 | DELETE ... WHERE id = ?: exactly the rows with another id remain. |
| ManageOrders.WithStatus | laundry_system/admin/manage_orders.php:127 | Only the status of the rows with the id changes; every other field and row is unchanged. |
| ManageOrders.WithPayment | laundry_system/admin/manage_orders.php:175 | Only payment_status of the rows with the id changes. |
| ManageOrders.IdsStayBelow | laundry_system/admin/manage_orders.php:127-183 | Updates keep every order id, so the table's id invariant survives. |
| ManageOrders.OwnerOf | laundry_system/admin/manage_orders.php:137-144 | The owner found is the non-null, non-zero user_id of the order with that id; a missing order has none. |
| ManageOrders.DeleteRemovesExactlyThatOrder | laundry_system/admin/manage_orders.php:92-114 | The delete succeeds iff the id is positive and the DELETE runs; it then removes exactly that order and reports it. id ≤ 0 reports "Invalid order ID.", a failed prepare "Database error: " and a failed execute "Failed to delete order: ", each with the database's error and no change. |
| ManageOrders.StatusChecksInOrder | laundry_system/admin/manage_orders.php:119-160 | The status is validated before the id, and both before the UPDATE. The update succeeds iff both pass and the UPDATE runs. A failed prepare reports "Database error: " and a failed execute "Failed to update status: ", each with the database's error, and a refusal changes no table. |
| ManageOrders.PaymentChecksInOrder | laundry_system/admin/manage_orders.php:165-212 | The same for the payment branch, with "Invalid payment status selected." and "Failed to update payment status: ". |
| ManageOrders.UpdatesKeepOwner | laundry_system/admin/manage_orders.php:137-144 | A status or payment update keeps the order's owner and total, so the notification reads the same owner. |
| ManageOrders.StatusUpdateChangesOnlyTheStatus | laundry_system/admin/manage_orders.php:127-152 | An UPDATE that runs changes only that order's status and reports success. It appends exactly one 'order' notification to the owner when there is one and the database takes the INSERT, and none otherwise. |
| ManageOrders.NoOpStatusUpdateStillNotifies | laundry_system/admin/manage_orders.php:134-152 | Setting the status an order already has leaves the orders unchanged and still notifies the owner. |
| ManageOrders.MissingOrderNotifiesNobody | laundry_system/admin/manage_orders.php:134-142 | Updating an id that no order has still reports success when the UPDATE runs, but writes nothing. |
| ManageOrders.PaymentUpdateNotifiesOnlyWhenPaid | laundry_system/admin/manage_orders.php:164-206 | An UPDATE that runs changes only payment_status. It notifies iff the new value is Paid, the order has an owner and the database takes the INSERT, and the notification carries the order's total_cost. |
| ManageOrders.PaidTwiceNotifiesTwice | laundry_system/admin/manage_orders.php:185-206 | Setting Paid twice leaves the same order table and notifies the owner twice. |
| ManageOrders.CsrfCheckedBeforeTheUpdate | laundry_system/admin/manage_orders.php:116-117 | With a bad token an update request halts with 403 and no update; only the GET delete, which runs first, has taken effect. |
| ManageOrders.StatusFilter | laundry_system/admin/manage_orders.php:235-240 | A status filter applies iff it is in VALID_ORDER_STATUSES. |
| ManageOrders.PaymentFilter | laundry_system/admin/manage_orders.php:242-247 | A payment filter applies iff it is in VALID_PAYMENT_STATUSES. |
| ManageOrders.ListingIsTheFilteredOrders | laundry_system/admin/manage_orders.php:219-258 | The listing holds exactly the orders matching the search and the valid filters, newest first. |
| ManageOrders.ListingRows | laundry_system/admin/manage_orders.php:249-258 | For given filters, the rows are exactly the selected orders, newest first. |
| ManageOrders.InvalidFiltersAreIgnored | laundry_system/admin/manage_orders.php:235-247 | An unknown status or payment filter gives the same listing as no filter. |
| ManageOrders.DeleteOrder | laundry_system/admin/manage_orders.php:92-114 | The delete branch, on the database's answer, leaves the tables and message of DeleteStep. |
| ManageOrders.UpdateStatus | laundry_system/admin/manage_orders.php:119-162 | The status branch, on the database's answers, leaves the tables and message of StatusStep. |
| ManageOrders.ApplyStatus | laundry_system/admin/manage_orders.php:127-152 | The UPDATE followed by the owner's notification when the database takes it. |
| ManageOrders.StoreOrders | laundry_system/admin/manage_orders.php:127-134 | The orders table becomes exactly the updated rows, and every order keeps an id below the next one. |
| ManageOrders.NotifyStatusOwner | laundry_system/admin/manage_orders.php:137-151 | Looks up the order's owner in the orders table; the notifications grow by exactly StatusAlert: one 'order' row for an owner whose INSERT is taken, otherwise none. |
| ManageOrders.UpdatePayment | laundry_system/admin/manage_orders.php:167-217 | The payment branch, on the database's answers, leaves the tables and message of PaymentStep. |
| ManageOrders.ApplyPayment | laundry_system/admin/manage_orders.php:175-209 | The UPDATE followed by the Paid notification when the database takes it. |
| ManageOrders.NotifyPaymentOwner | laundry_system/admin/manage_orders.php:185-207 | The notifications grow by exactly PaymentAlert for Paid: one 'payment' row carrying the order's total, only for an owner whose INSERT is taken. |
| ManageOrders.HandleManageOrders | laundry_system/admin/manage_orders.php:1-217 | A refused session is redirected with the tables unchanged. Otherwise the delete, status and payment branches run in the page's order on the current token and the database's answers. |
| OrderHistory.WithoutPickups | laundry_system/admin/order_history.php:15 | DELETE ... WHERE status = 'Pickup' keeps exactly the orders with another status. |
| OrderHistory.HistoryList | laundry_system/admin/order_history.php:43-51 | One listed row per history order, in the same order, with the customer taken from the order or its user. |
| OrderHistory.StatsOf | laundry_system/admin/order_history.php:54-63 | The count is the number of rows, the paid count is at most the count, and an average exists iff there are rows. |
| OrderHistory.HistoryIsThePickupsOfThePeriod | laundry_system/admin/order_history.php:34-51 | The list holds exactly the Pickup orders of the chosen day or month, newest first. |
| OrderHistory.DateTakesPrecedence | laundry_system/admin/order_history.php:36-40 | With a date set, the month filter is ignored. |
| OrderHistory.StatsDescribeTheList | laundry_system/admin/order_history.php:54-63 | The statistics are computed over the same set of orders the list shows. |
| OrderHistory.ClearedHistoryIsEmpty | laundry_system/admin/order_history.php:14-20 | After clear_history the history list is empty for every period. |
| OrderHistory.ClearKeepsTheOthers | laundry_system/admin/order_history.php:14-20 | clear_history removes exactly as many rows as there are Pickup orders. |
| OrderHistory.ArchivedOrderLeavesHistory | laundry_system/admin/order_history.php:23-28 | An archived order leaves the history list, and every other order is unchanged. |
| OrderHistory.ClearHistory | laundry_system/admin/order_history.php:14-20 | The orders table loses exactly its Pickup rows. |
| OrderHistory.ArchiveOrder | laundry_system/admin/order_history.php:23-28 | The order with the id gets status Archived, and nothing else changes. |
| OrderHistory.HandleOrderHistory | laundry_system/admin/order_history.php:5-28 | A non-administrator is redirected. Otherwise clear runs before archive, and the archive message wins over the clear message. |
| Inbox.MarkRead | laundry_system/admin/notifications.php:10-15 | is_read becomes 1 on the rows with the id, whoever their recipient is, and nothing else changes. |
| Inbox.MarkAllRead | laundry_system/admin/notifications.php:17-21 | is_read becomes 1 exactly on the current user's own rows. |
| Inbox.Delete | laundry_system/admin/notifications.php:23-28 | Exactly the rows with another id remain. |
| Inbox.InboxIsOwnAndBroadcast | laundry_system/admin/notifications.php:45-49 | The list holds exactly the user's own rows and the broadcast (NULL) rows, newest first. |
| Inbox.UnreadCountMatchesTheList | laundry_system/admin/notifications.php:51-54 | The unread count equals the number of unread rows in the list. |
| Inbox.MarkReadIsIdempotent | laundry_system/admin/notifications.php:10-15 | Marking the same id twice is marking it once. |
| Inbox.MarkAllLeavesBroadcastsUnread | laundry_system/admin/notifications.php:17-21 | After mark_all_read every own row is read, and the unread count is the number of unread broadcast rows. |
| Inbox.MarkAllCount | laundry_system/admin/notifications.php:17-21 | After mark_all_read the unread rows the user sees are exactly the unread broadcasts. |
| Inbox.AgeOf | laundry_system/admin/notifications.php:56-64 | Under 60 s (negative included) is "Just now". Then whole minutes below an hour, whole hours below a day, whole days below a week; anything older is a date. |
| Inbox.AgeIsMonotone | laundry_system/admin/notifications.php:59-63 | An older notification never shows a finer bucket, or fewer minutes within the minute bucket. |
| Inbox.Icon | laundry_system/admin/notifications.php:66-69 | The six known types get their own icons, and any other type gets the bell. |
| Inbox.IconsTellTypesApart | laundry_system/admin/notifications.php:67 | Two different known types get different icons. |
| Inbox.ActionOf | laundry_system/admin/notifications.php:10-28 | mark_read is handled first, and a request with none of the three keys only views. |
| Inbox.IdsStayBelow | laundry_system/admin/notifications.php:10-21 | Marking rows read keeps every id, so the id invariant survives. |
| Inbox.HandleNotifications | laundry_system/admin/notifications.php:5-28 | A non-administrator is redirected. An action updates the table as stated and redirects back to the inbox; a plain view changes nothing. |
| Accounts.UsersWithEmail | laundry_system/index.php:91 | SELECT ... WHERE email = ?: exactly the accounts with that address. |
| Accounts.TakenIffFound | laundry_system/register.php:88-105 | The duplicate check finds a row iff some account has the address. |
| Accounts.FreshEmailKeepsUnique | laundry_system/register.php:105-130 | Adding an account whose address is not taken keeps addresses unique. |
| Accounts.InsertUser | laundry_system/register.php:117-138 | Appends one account with the next id and the given fields. |
| Accounts.FirstBroken | laundry_system/register.php:41-74 | An elseif chain: the first broken rule is reported, every earlier rule holds, and nothing is reported iff no rule breaks. |
| Register.AcceptedIffEveryRuleHolds | laundry_system/register.php:41-74 | Registration passes iff the fields are filled, the name has 2..100 characters, the email is valid, and the password has 8..255 characters with an upper-case letter, a lower-case letter and a digit. |
| Register.EmptyFieldReportedFirst | laundry_system/register.php:41-42 | Any empty field is reported before every other rule. |
| Register.ReportedRuleIsTheFirstBroken | laundry_system/register.php:45-74 | The message shown belongs to the first rule, in page order, that the input breaks. |
| Register.LengthLimitComesLast | laundry_system/register.php:60-74 | A too-long password without a capital is refused for the capital: the length limit is checked last. |
| Register.RegistrationKeepsEmailsUnique | laundry_system/register.php:105-130 | An admitted registration keeps addresses unique and creates a role 'user' account. |
| Register.HandleRegister | laundry_system/register.php:30-160 | A refused form (a broken rule or a taken address) shows its message and stores nothing. An admitted one appends the account with the SHA-256 of the password, sets the success message and redirects to the login page. |
| Login.HomeOf | laundry_system/index.php:136-140 | Administrators go to admin/dashboard.php and everyone else goes to user/home.php. |
| Login.CheckInput | laundry_system/index.php:72-83 | No error iff both fields are filled, the email is valid and the password has at most 255 characters; an empty field is reported first. |
| Login.Authenticate | laundry_system/index.php:108-150 | Succeeds iff exactly one account has the address and its stored hash is the password's SHA-256. A failure always gives "Invalid email or password". |
| Login.FailuresLookAlike | laundry_system/index.php:143-150 | An unknown address and a wrong password give the identical answer. |
| Login.UniqueAccountLogsIn | laundry_system/index.php:108-118 | With unique addresses, an account logs in iff the password hashes to its stored hash, and the account found is that one. |
| Login.SignIn | laundry_system/index.php:123-127 | Sets user_id, name, role, login_time (now) and login_ip (the client address or 'Unknown'). |
| Login.HandleLogin | laundry_system/index.php:21-160 | A logged-in session is redirected by role without reading the form. A successful login writes the five session fields and redirects by role; a failed one leaves the session logged out and shows the message. |
| CreateAdmin.Cleaned | laundry_system/admin/create_admin.php:15-17 | The password is kept exactly as posted; unlike the name and the email, it is not trimmed. |
| CreateAdmin.AcceptedIffEveryRuleHolds | laundry_system/admin/create_admin.php:20-33 | Accepted iff the fields are filled, the name has 2..100 characters, the email is valid, and the password has at least 8 characters with an upper-case letter, a lower-case letter and a digit. |
| CreateAdmin.NoPasswordUpperBound | laundry_system/admin/create_admin.php:26-34 | A password longer than 255 characters is accepted here. |
| CreateAdmin.NameBoundsShareAMessage | laundry_system/admin/create_admin.php:22-23 | A name too short and a name too long get the same message. |
| CreateAdmin.ShortPasswordRefused | laundry_system/admin/create_admin.php:26-27 | A password under 8 characters is never accepted. |
| CreateAdmin.EmptyFieldReportedFirst | laundry_system/admin/create_admin.php:20-21 | Any empty field is reported before every other rule. |
| CreateAdmin.CreationKeepsEmailsUnique | laundry_system/admin/create_admin.php:43-47 | An admitted form's new account keeps addresses unique. |
| CreateAdmin.HandleCreateAdmin | laundry_system/admin/create_admin.php:6-60 | A non-administrator is redirected. Otherwise a broken rule or a taken address shows its message and stores nothing, a failed INSERT shows the statement's error, and a success appends one role 'admin' account with the password's SHA-256. |
| ManageAdmins.WithoutAdmin | laundry_system/admin/manage_admins.php:19 | DELETE ... AND role = 'admin' removes exactly the administrator rows with the id. |
| ManageAdmins.DeleteOutcome | laundry_system/admin/manage_admins.php:18-25 | Success iff the id is not the current administrator's and the statement executes. |
| ManageAdmins.SelfDeleteIsRefused | laundry_system/admin/manage_admins.php:18-25 | The current administrator's own id is refused, and the table is left alone. |
| ManageAdmins.DeleteRemovesOnlyThatAdmin | laundry_system/admin/manage_admins.php:16-26 | Only administrator rows with the id are removed, never the current administrator; a customer with that id survives. |
| ManageAdmins.AdminDeleteCascades | laundry_system/admin/manage_admins.php:19-21 | The delete's cascade keeps every notification of another account, removes all of an administrator's when no customer shares the id, and removes nothing when no administrator has the id. |
| ManageAdmins.QuickAccount | laundry_system/admin/manage_admins.php:30-34 | All three fields are trimmed. The form is accepted iff none is then empty, and no other rule applies. |
| ManageAdmins.CreateOutcome | laundry_system/admin/manage_admins.php:34-42 | Success iff the trimmed fields are filled and the INSERT executes; an empty field gives "Please fill in all fields.". |
| ManageAdmins.QuickAdmin | laundry_system/admin/manage_admins.php:35-37 | The new row has role 'admin' and the SHA-256 of the trimmed password. |
| ManageAdmins.NoStrengthRules | laundry_system/admin/manage_admins.php:34 | A one-letter password creates an administrator here, while create_admin.php refuses it. |
| ManageAdmins.CreateAddsOneAdmin | laundry_system/admin/manage_admins.php:34-39 | The table grows by one row iff the create succeeds, and that row is an administrator with the next id at the end. |
| ManageAdmins.OtherAdminsListing | laundry_system/admin/manage_admins.php:46-51 | The list holds exactly the administrators other than the current one, newest first. |
| ManageAdmins.DeleteAdminRow | laundry_system/admin/manage_admins.php:19-21 | The users table becomes WithoutAdmin of the old one, and the notifications lose the rows of the removed account (the cascade). |
| ManageAdmins.DeleteAdmin | laundry_system/admin/manage_admins.php:16-26 | The delete branch's message and table are DeleteOutcome's and AfterDelete's; an executed delete cascades into the notifications, any other outcome leaves them alone. |
| ManageAdmins.QuickCreate | laundry_system/admin/manage_admins.php:29-43 | The create branch's message and table are CreateOutcome's and AfterCreate's. |
| ManageAdmins.HandleManageAdmins | laundry_system/admin/manage_admins.php:6-43 | A non-administrator is redirected with nothing changed. Otherwise the delete branch runs, cascading into the notifications when it executes, then the create branch, each setting its banner. |
| ManageUsers.WithoutCustomer | laundry_system/admin/manage_users.php:13 | DELETE ... AND role != 'admin' removes exactly the non-administrator rows with the id. |
| ManageUsers.DeleteSparesAdmins | laundry_system/admin/manage_users.php:11-16 | The administrators are exactly the same after the delete, and no non-administrator with the id survives. |
| ManageUsers.CustomerDeleteCascades | laundry_system/admin/manage_users.php:13-15 | The delete's cascade keeps every notification of another account, removes all of a customer's when no administrator shares the id, and removes nothing when only administrators have the id. |
| ManageUsers.CustomerListingIsTheNonAdmins | laundry_system/admin/manage_users.php:38-43 | The list holds exactly the non-administrator accounts, newest first. |
| ManageUsers.DeleteCustomerRow | laundry_system/admin/manage_users.php:13-15 | The users table becomes WithoutCustomer of the old one, and the notifications lose the rows of the removed account (the cascade). |
| ManageUsers.HandleManageUsers | laundry_system/admin/manage_users.php:5-35 | A non-administrator is redirected with nothing changed. Otherwise the delete runs silently and cascades into the notifications, then the create branch runs with this page's success text. |
| DeleteUser.WithoutOrdersOf | laundry_system/admin/delete_user.php:28 | Exactly the orders not owned by the user remain; ownerless orders stay. |
| DeleteUser.WithoutHistoryOf | laundry_system/admin/delete_user.php:29 | Exactly the history rows not owned by the user remain. |
| DeleteUser.WithoutUser | laundry_system/admin/delete_user.php:32-34 | Exactly the accounts with another id remain. |
| DeleteUser.RefusalsChangeNothing | laundry_system/admin/delete_user.php:21-43 | An unknown id ("User not found") and an administrator's id change no table and report an error. |
| DeleteUser.SuccessLeavesNoTrace | laundry_system/admin/delete_user.php:27-35 | A successful delete removes the customer's orders, history rows, account and, through the cascade, notifications, and no other row. |
| DeleteUser.FailedDeleteKeepsTheAccountOnly | laundry_system/admin/delete_user.php:27-38 | When the final DELETE fails, the orders and history are already gone while the account and its notifications stay. |
| DeleteUser.DeleteOrdersOf | laundry_system/admin/delete_user.php:28 | The orders table becomes WithoutOrdersOf of the old one. |
| DeleteUser.DeleteUserRow | laundry_system/admin/delete_user.php:32-34 | The users table becomes WithoutUser of the old one, and the notifications lose the rows of the removed account (the cascade). |
| DeleteUser.RunCascade | laundry_system/admin/delete_user.php:16-43 | The orders, history, users and notifications tables and the message end as CascadeOf says. |
| DeleteUser.HandleDeleteUser | laundry_system/admin/delete_user.php:6-50 | A non-administrator is redirected to the login page. An administrator is always redirected to dashboard.php; only a POST with user_id runs the cascade, whose message goes to the session. |
| PriceList.CheckPrices | laundry_system/admin/price_list.php:20-24 | Accepted iff base > 0 and excess ≥ 0; the base price is checked first. |
| PriceList.ExtrasAreNotChecked | laundry_system/admin/price_list.php:15-24 | The dry and iron prices never change the verdict, negative ones included. |
| PriceList.Latest | laundry_system/admin/price_list.php:40 | Some iff the table has rows; the row returned has the highest id. |
| PriceList.AppendedRowIsLatest | laundry_system/admin/price_list.php:25-40 | A row appended with a larger id becomes the current prices. |
| PriceList.FormDefaults | laundry_system/admin/price_list.php:183-195 | An empty table shows 180, 30, 50 and 30; otherwise the current row's prices. |
| PriceList.ExamplesFollowTheRule | laundry_system/admin/price_list.php:214-223 | Every example is the base price up to 6 kg plus the excess per kilogram above, plus dry and iron where added. |
| PriceList.AppendPrices | laundry_system/admin/price_list.php:25-35 | Appends one row with the next id, which becomes the latest. |
| PriceList.HandlePriceList | laundry_system/admin/price_list.php:5-40 | A non-administrator is redirected. Otherwise an invalid form shows its message, a failed INSERT the statement's error, and a valid one appends the row. The shown prices are always the latest row. |
| EmailSettings.FormValue | laundry_system/admin/email_settings.php:26-36 | The posted value; otherwise 'no' for a checkbox and '' for a text field. |
| EmailSettings.Upserted | laundry_system/admin/email_settings.php:25-47 | After a save the table has every old key plus the setting keys whose statement ran. Each of those holds its form value and every other key is untouched. |
| EmailSettings.SavingTwiceIsSavingOnce | laundry_system/admin/email_settings.php:38-46 | Saving the same form twice, with the same statements running, leaves the same table as saving it once. |
| EmailSettings.SaveWritesExactlyTheKeys | laundry_system/admin/email_settings.php:25-47 | A key outside the 11, or one whose statement did not run, is neither created nor changed by a save. |
| EmailSettings.Collected | laundry_system/admin/email_settings.php:53-57 | The map read back has a key iff some row has it. |
| EmailSettings.ReadBackIsTheTable | laundry_system/admin/email_settings.php:53-57 | Reading the table back, in any row order, gives the table itself. |
| EmailSettings.ReadSettings | laundry_system/admin/email_settings.php:53-57 | The fetch loop builds exactly Collected of the rows. |
| EmailSettings.BoxDefault | laundry_system/admin/email_settings.php:157-175 | An unsaved box shows ticked iff it is one of the three notify_* boxes. |
| EmailSettings.FreshTableDefaults | laundry_system/admin/email_settings.php:157-175 | On a fresh table the three notify_* boxes show ticked, and email_enabled and daily_summary show unticked. |
| EmailSettings.SavedBoxRoundTrip | laundry_system/admin/email_settings.php:157-175 | After a save whose statement for a box ran, the box shows ticked iff the form posted 'yes' for it, even for boxes that default to ticked; otherwise it shows as before. |
| EmailSettings.Shown | laundry_system/admin/email_settings.php:120-145 | A saved value is shown as stored; an unsaved field shows its default (587 for the port, the system name for the sender). |
| EmailSettings.SaveSettings | laundry_system/admin/email_settings.php:38-47 | The upsert loop, which ignores each statement's result, leaves exactly Upserted of the old table. |
| EmailSettings.HandleEmailSettings | laundry_system/admin/email_settings.php:5-57 | A non-administrator is redirected. A POST saves and reports success whichever statements ran, and the page always shows the table as it stands afterwards. |

## Left out

- The `ajax_send_email` branch of admin/manage_orders.php (lines 17-90) and the `mail()` transport of `sendEmailNotification` are left out. A sent mail is an entry in `Schema.Mailer`'s outbox, and delivery failure is not modelled.
- The search box of admin/manage_orders.php uses SQL `LIKE` over the customer name and the order id. It is the parameter `like`, and `real_escape_string` is not modelled.
- `intval`/`floatval` parsing of form fields is left out. Ids arrive as integers and prices and quantities as reals.
- Money is `real`, with no float rounding; `number_format` is modelled only as a two-decimal text.
- `strlen` counts characters here, not UTF-8 bytes. The name, password and notes limits are therefore stated in characters.
- MySQL compares e-mail addresses case-insensitively; the model compares them exactly.
- Whether `users.email` is UNIQUE is not stated by the source. On manage_admins.php and manage_users.php the INSERT's success is the parameter `stored`.
- ManageAdmins.QuickCreate: the parameter `stored` does not force a duplicate address to fail.
- Database failures on admin/order_history.php, admin/notifications.php, admin/delete_user.php (except the final DELETE) and the manage_* deletes are not modelled. Those statements succeed, except where a parameter (`executes`, `deleteExecutes`, `failure`) says otherwise.
- The exception paths of index.php and register.php (a statement that cannot be prepared or executed) are left out.
- Login.HandleLogin does not model the "An error occurred" message of that path.
- Login.HandleLogin and Login.TryLogin clean the e-mail with includes/security.php's `sanitizeText`. index.php (line 15) loads only db_connect.php, which does not define it, so as written a POST would stop with PHP's undefined-function error. The model follows the evident intent and does not capture that failure.
- Register.HandleRegister and Register.Cleaned clean the name and e-mail with `sanitizeText` in the same way. register.php (line 16) loads only db_connect.php, so the same undefined-function failure is not captured there either.
- CreateOrder.HandleCreateOrder and ManageOrders.HandleManageOrders: includes/constants.php (line 72, outside its `if (!defined(...))` guard) and db_connect.php (line 58) both declare a global function `esc`. admin/create_order.php loads both: constants.php through security.php (lines 21-23), then db_connect.php, then constants.php again (lines 2-5). admin/manage_orders.php loads db_connect.php and then constants.php (lines 4-5). As written, each page would stop with PHP's "Cannot redeclare esc()" error before any line modelled here. The model follows the evident intent, as though `esc` were declared once.
- EmailSettings.SaveSettings and EmailSettings.HandleEmailSettings: when an upsert cannot be prepared, admin/email_settings.php (lines 39-44) calls `bind_param` on `false`, a fatal error that ends the request. The parameter `executes` covers only a prepared statement whose execution fails, which the page ignores; the fatal path is not captured.
- The ON DELETE CASCADE of `notifications.user_id` is taken from the table as admin/notifications.php (lines 31-43) creates it. A `notifications` table created earlier without that key is not modelled.
- The mis-encoded peso sign, check mark and money-bag label that admin/create_order.php writes into its texts are modelled literally, as the characters found in the file.
- Security headers, `ini_set` session settings, the direct-access guard of security.php and `session_start` are left out.
- The non-atomic check-then-increment of `checkRateLimit` (a race between concurrent requests) is left out.
- The rate-limit key is the pair (action, client) rather than its SHA-256.
- `getCsrfToken` is `initializeCsrfToken` under another name and is covered by Security.Session.InitializeCsrfToken.
- `verifyCsrfToken` is the 403 halt inside ManageOrders.Process.
- `sanitizePrice`, `getCurrentUserId`, `getCurrentUserRole`, `isAdmin` and `isLoggedIn` are not modelled as separate members. The role and login checks are the predicates `Session.IsAdmin` and `Session.IsLoggedIn`.
- OrderHistory.StatsOf: over no rows the paid count is 0, whereas the page echoes the NULL `SUM` raw, so it prints as an empty string.
- Report pages, the dashboard, HTML rendering and the page scripts are not part of this model.
- The exact HTML whitespace of the mail templates is not reproduced.
- `date`/`strtotime` formatting is a parameter, so day and month filtering uses an uninterpreted calendar.
- Orders with equal `created_at` may appear in any order in a listing. The model fixes one order (stable insertion), and the lemmas state only the newest-first property.
- Re-setting a payment to Paid notifies the owner again, as the code does (ManageOrders.PaidTwiceNotifiesTwice).

## Findings

| source | as written | input that shows it | evidently intended | confidence | as-written member | corrected member |
|---|---|---|---|---|---|---|
| laundry_system/admin/create_order.php:85 | The i-th ticked service is priced with `quantities[i]`, the quantity posted by the i-th card of the form, not by its own card. | Only Blanket (the seventh card) ticked, with the ten cards posting quantities 2, 1, 1, 1, 1, 1, 5, 1, 1, 1: the order is billed 2 × 120 = 240 instead of 5 × 120 = 600. | Each ticked service is priced with the quantity entered on its own card. The order handling (`OrderDecision.Decide`) keeps the pairing as written; `OrderPricing.PairedByCard` is the intended pairing, and the corrected member proves that with it the bill depends only on the ticked cards. | not executed | OrderPricing.PositionPairingBillsAnotherCard | OrderPricing.CardPairingPricesTheTickedCards |
