/** The shared constants of includes/constants.php: limits, the closed value
    sets the order columns may hold, and the output escaper `esc`. */
module Constants {
  import opened Util
  import opened Php

  const SessionTimeout := 3600
  const CsrfTokenLength := 32

  const MinPasswordLength := 8
  const MaxOrderAmount := 100000
  const MaxQuantity := 1000
  const MaxNameLength := 255
  const MaxEmailLength := 254
  const MaxNotesLength := 1000

  const RateLimitLogin := 5
  const RateLimitRegister := 3
  const RateLimitOrder := 10
  const RateLimitWindow := 60

  /** ROLE_ADMIN ('admin') and ROLE_USER ('user'). */
  datatype Role = Admin | Customer

  function RoleName(r: Role): string {
    match r
    case Admin => "admin"
    case Customer => "user"
  }

  /** ORDER_STATUS_*: the fulfilment axis of an order. */
  datatype OrderStatus = Pending | InProgress | Ready | Pickup | Archived

  function StatusName(s: OrderStatus): string {
    match s
    case Pending => "Pending"
    case InProgress => "In Progress"
    case Ready => "Ready"
    case Pickup => "Pickup"
    case Archived => "Archived"
  }

  /** PAYMENT_STATUS_*: the payment axis, independent of the status. */
  datatype PaymentStatus = Paid | Unpaid | Partial

  function PaymentName(p: PaymentStatus): string {
    match p
    case Paid => "Paid"
    case Unpaid => "Unpaid"
    case Partial => "Partial"
  }

  /** SERVICE_MODE_*. */
  datatype ServiceMode = Regular | Express

  function ModeName(m: ServiceMode): string {
    match m
    case Regular => "Regular"
    case Express => "Express"
  }

  const ValidOrderStatuses: seq<string> := ["Pending", "In Progress", "Ready", "Pickup", "Archived"]
  const ValidPaymentStatuses: seq<string> := ["Paid", "Unpaid", "Partial"]
  const ValidServiceModes: seq<string> := ["Regular", "Express"]

  /** NOTIF_TYPE_*: the notification types the pages know an icon for. */
  const NotifTypes: seq<string> := ["order", "payment", "system", "alert", "success", "info"]

  /** The valid lists name every value of their enumeration exactly once. */
  lemma ValidListsAreTheEnumerations()
    ensures |ValidOrderStatuses| == 5 && |ValidPaymentStatuses| == 3 && |ValidServiceModes| == 2
    ensures forall s :: StatusName(s) in ValidOrderStatuses
    ensures forall p :: PaymentName(p) in ValidPaymentStatuses
    ensures forall m :: ModeName(m) in ValidServiceModes
    ensures forall i :: 0 <= i < |ValidOrderStatuses| ==> exists s :: StatusName(s) == ValidOrderStatuses[i]
    ensures forall i, j :: 0 <= i < j < |ValidOrderStatuses| ==> ValidOrderStatuses[i] != ValidOrderStatuses[j]
    ensures forall i, j :: 0 <= i < j < |ValidPaymentStatuses| ==> ValidPaymentStatuses[i] != ValidPaymentStatuses[j]
    ensures forall s, t :: StatusName(s) == StatusName(t) ==> s == t
    ensures forall p, q :: PaymentName(p) == PaymentName(q) ==> p == q
    ensures forall m, n :: ModeName(m) == ModeName(n) ==> m == n
  {
    assert StatusName(Pending) == ValidOrderStatuses[0];
    assert StatusName(InProgress) == ValidOrderStatuses[1];
    assert StatusName(Ready) == ValidOrderStatuses[2];
    assert StatusName(Pickup) == ValidOrderStatuses[3];
    assert StatusName(Archived) == ValidOrderStatuses[4];
  }

  /** esc($str) of includes/constants.php: htmlspecialchars($str ?? '',
      ENT_QUOTES). db_connect.php declares its own esc with ENT_QUOTES |
      ENT_HTML5, which is the one index.php and register.php, loading only
      db_connect.php, call; it differs only in writing `'` as `&apos;`,
      that is HtmlEscape(·, Html5). */
  function Esc(str: Option<string>): (r: string)
    ensures str.None? ==> r == ""
    ensures str.Some? ==> Unescape(r, Html401) == str.value
    ensures forall i :: 0 <= i < |r| ==> !IsHtmlSpecial(r[i])
  {
    var s := str.GetOr("");
    EscapeRoundTrip(s, Html401);
    HtmlEscape(s, Html401)
  }
}
