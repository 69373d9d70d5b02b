/** The texts of includes/notification_helper.php: titles, messages and
    e-mail bodies of the notifications, and the facts that the order they
    name can be read back from them. */
module NotifyText {
  import opened Util
  import opened Php
  import opened Constants
  import opened Schema

  /** The peso sign as notification_helper.php writes it. */
  const Peso := "₱"

  const NewOrderTitle := "New Order Received"
  const AdminOrdersLink := "manage_orders.php"
  const CustomerOrderLink := "../user/order_status.php"

  /** "Order #<id>": how every text refers to an order. */
  const OrderHash := "Order #"

  function OrderRef(orderId: int): string {
    OrderHash + IntToString(orderId)
  }

  /** The message an administrator gets for a new order; `currency` is the
      sign the calling page writes. */
  function NewOrderMessage(orderId: int, customerName: string, total: real, currency: string): string {
    OrderRef(orderId) + FromText + customerName + TotalText + currency + NumberFormat2(total)
  }

  const FromText := " from "
  const TotalText := " - Total: "
  const NewOrderHash := "New Order #"

  function NewOrderSubject(orderId: int): string {
    NewOrderHash + IntToString(orderId)
  }

  const MailHello := "<p>Hello "
  const MailReceivedFrom := ",</p><p>New order received from <strong>"
  const MailOrderNo := "</strong></p><p>Order #: "
  const MailTotal := "</p><p>Total: "
  const MailEnd := "</p>"

  function NewOrderMailBody(adminName: string, customerName: string, orderId: int, total: real): string {
    MailHello + adminName + MailReceivedFrom + customerName
    + MailOrderNo + IntToString(orderId) + MailTotal + Peso + NumberFormat2(total) + MailEnd
  }

  const StatusUpdated := " Status Updated"
  const PaymentReceivedDash := "Payment Received - "

  function StatusTitle(orderId: int): string {
    OrderRef(orderId) + StatusUpdated
  }

  const StatusChangedTo := "Your order status has been changed to: "
  const PaymentReceivedOf := "We have received your payment of "

  function StatusMessage(newStatus: string): string {
    StatusChangedTo + newStatus
  }

  function PaymentTitle(orderId: int): string {
    PaymentReceivedDash + OrderRef(orderId)
  }

  function PaymentMessage(amount: real): string {
    PaymentReceivedOf + Peso + NumberFormat2(amount)
  }

  /** A number written between two fixed texts can be read back. */
  lemma EmbeddedIdInjective(pre: string, suf: string, a: int, b: int)
    requires pre + IntToString(a) + suf == pre + IntToString(b) + suf
    ensures a == b
  {
    var s := pre + IntToString(a) + suf;
    var t := pre + IntToString(b) + suf;
    assert |IntToString(a)| == |IntToString(b)|;
    var n := |IntToString(a)|;
    assert s[|pre|..|pre| + n] == IntToString(a);
    assert t[|pre|..|pre| + n] == IntToString(b);
    IntToStringRoundTrip(a);
    IntToStringRoundTrip(b);
  }

  /** Titles and subjects name their order: two different orders never get
      the same one. */
  lemma StatusTitleNamesTheOrder(a: int, b: int)
    requires StatusTitle(a) == StatusTitle(b)
    ensures a == b
  {
    EmbeddedIdInjective(OrderHash, StatusUpdated, a, b);
  }

  lemma PaymentTitleNamesTheOrder(a: int, b: int)
    requires PaymentTitle(a) == PaymentTitle(b)
    ensures a == b
  {
    assert OrderRef(a) == PaymentTitle(a)[|PaymentReceivedDash|..];
    assert OrderRef(b) == PaymentTitle(b)[|PaymentReceivedDash|..];
    PrefixedIdInjective(OrderHash, a, b);
  }

  lemma NewOrderSubjectNamesTheOrder(a: int, b: int)
    requires NewOrderSubject(a) == NewOrderSubject(b)
    ensures a == b
  {
    PrefixedIdInjective(NewOrderHash, a, b);
  }

  /** A number after a fixed text can be read back. */
  lemma PrefixedIdInjective(pre: string, a: int, b: int)
    requires pre + IntToString(a) == pre + IntToString(b)
    ensures a == b
  {
    assert IntToString(a) == (pre + IntToString(a))[|pre|..];
    assert IntToString(b) == (pre + IntToString(b))[|pre|..];
    IntToStringRoundTrip(a);
    IntToStringRoundTrip(b);
  }

  /** The `n` characters of `s` from offset `k`. */
  function Piece(s: string, k: nat, n: nat): string
    requires k + n <= |s|
  {
    s[k..k + n]
  }

  /** `t` appears in `s` as a contiguous piece. */
  predicate Occurs(t: string, s: string) {
    exists k: nat :: k + |t| <= |s| && Piece(s, k, |t|) == t
  }

  /** A text occurs at the end of anything it is appended to. */
  lemma OccursAtEnd(s: string, t: string)
    ensures Occurs(t, s + t)
  {
    assert Piece(s + t, |s|, |t|) == t;
  }

  /** Appending keeps an occurrence. */
  lemma OccursExtended(t: string, s: string, more: string)
    requires Occurs(t, s)
    ensures Occurs(t, s + more)
  {
    var k: nat :| k + |t| <= |s| && Piece(s, k, |t|) == t;
    assert Piece(s + more, k, |t|) == Piece(s, k, |t|);
  }

  /** The new-order mail greets the administrator by name and names the
      customer, the order number and the total. */
  lemma MailBodyNamesTheOrder(adminName: string, customerName: string, orderId: int, total: real)
    ensures var body := NewOrderMailBody(adminName, customerName, orderId, total);
      Occurs(adminName, body) && Occurs(customerName, body)
      && Occurs(IntToString(orderId), body) && Occurs(NumberFormat2(total), body)
  {
    var id, amount := IntToString(orderId), NumberFormat2(total);
    var s1 := MailHello + adminName;
    var s2 := s1 + MailReceivedFrom;
    var s3 := s2 + customerName;
    var s4 := s3 + MailOrderNo;
    var s5 := s4 + id;
    var s6 := s5 + MailTotal;
    var s7 := s6 + Peso;
    var s8 := s7 + amount;
    OccursAtEnd(MailHello, adminName);
    OccursExtended(adminName, s1, MailReceivedFrom);
    OccursExtended(adminName, s2, customerName);
    OccursAtEnd(s2, customerName);
    OccursExtended(adminName, s3, MailOrderNo);
    OccursExtended(customerName, s3, MailOrderNo);
    OccursExtended(adminName, s4, id);
    OccursExtended(customerName, s4, id);
    OccursAtEnd(s4, id);
    OccursExtended(adminName, s5, MailTotal);
    OccursExtended(customerName, s5, MailTotal);
    OccursExtended(id, s5, MailTotal);
    OccursExtended(adminName, s6, Peso);
    OccursExtended(customerName, s6, Peso);
    OccursExtended(id, s6, Peso);
    OccursExtended(adminName, s7, amount);
    OccursExtended(customerName, s7, amount);
    OccursExtended(id, s7, amount);
    OccursAtEnd(s7, amount);
    OccursExtended(adminName, s8, MailEnd);
    OccursExtended(customerName, s8, MailEnd);
    OccursExtended(id, s8, MailEnd);
    OccursExtended(amount, s8, MailEnd);
  }

  lemma AllMailBodiesNameTheOrder(customerName: string, orderId: int, total: real)
    ensures forall name :: var body := NewOrderMailBody(name, customerName, orderId, total);
      Occurs(name, body) && Occurs(customerName, body) && Occurs(IntToString(orderId), body)
  {
    forall name ensures var body := NewOrderMailBody(name, customerName, orderId, total);
      Occurs(name, body) && Occurs(customerName, body) && Occurs(IntToString(orderId), body)
    {
      MailBodyNamesTheOrder(name, customerName, orderId, total);
    }
  }

  /** The e-mails notifyNewOrder sends, one per administrator. */
  function AdminMails(admins: seq<User>, orderId: int, customerName: string, total: real): (r: seq<Mail>)
    ensures |r| == |admins|
    ensures forall i :: 0 <= i < |r| ==> r[i].to == admins[i].email && r[i].subject == NewOrderSubject(orderId)
    ensures forall i :: 0 <= i < |r| ==>
      Occurs(admins[i].name, r[i].body) && Occurs(customerName, r[i].body) && Occurs(IntToString(orderId), r[i].body)
  {
    AllMailBodiesNameTheOrder(customerName, orderId, total);
    seq(|admins|, i requires 0 <= i < |admins| =>
      Mail(admins[i].email, NewOrderSubject(orderId), NewOrderMailBody(admins[i].name, customerName, orderId, total)))
  }
}
