/** admin/notifications.php: an administrator's inbox. It shows the
    notifications addressed to the administrator and the broadcasts (no
    recipient), newest first, with the number still unread; links mark one
    notification read, mark all of the administrator's own read, or delete
    one. */
module Inbox {
  import opened Util
  import opened Php
  import opened Constants
  import opened Schema
  import opened Security

  // ------------------------------------------------------------------
  // The table statements
  // ------------------------------------------------------------------

  /** UPDATE notifications SET is_read = 1 WHERE id = ?: whoever the
      recipient is. */
  function MarkRead(rows: seq<Notification>, id: int): (r: seq<Notification>)
    ensures |r| == |rows|
    ensures forall i :: 0 <= i < |r| ==> r[i].(isRead := rows[i].isRead) == rows[i]
    ensures forall i :: 0 <= i < |r| ==> r[i].isRead == (rows[i].isRead || rows[i].id == id)
  {
    seq(|rows|, i requires 0 <= i < |rows| => if rows[i].id == id then rows[i].(isRead := true) else rows[i])
  }

  /** UPDATE notifications SET is_read = 1 WHERE user_id = ?: NULL never
      equals the id, so broadcasts stay as they are. */
  function MarkAllRead(rows: seq<Notification>, userId: int): (r: seq<Notification>)
    ensures |r| == |rows|
    ensures forall i :: 0 <= i < |r| ==> r[i].(isRead := rows[i].isRead) == rows[i]
    ensures forall i :: 0 <= i < |r| ==> r[i].isRead == (rows[i].isRead || rows[i].userId == Some(userId))
  {
    seq(|rows|, i requires 0 <= i < |rows| =>
      if rows[i].userId == Some(userId) then rows[i].(isRead := true) else rows[i])
  }

  function KeepsId(id: int): Notification -> bool {
    (n: Notification) => n.id != id
  }

  /** DELETE FROM notifications WHERE id = ?: whoever the recipient is. */
  function Delete(rows: seq<Notification>, id: int): (r: seq<Notification>)
    ensures forall n :: n in r <==> n in rows && n.id != id
  {
    Filter(rows, KeepsId(id))
  }

  // ------------------------------------------------------------------
  // The list and the badge
  // ------------------------------------------------------------------

  /** user_id = the administrator OR user_id IS NULL. */
  predicate VisibleTo(n: Notification, userId: int) {
    n.userId == Some(userId) || n.userId.None?
  }

  function Visible(userId: int): Notification -> bool {
    (n: Notification) => VisibleTo(n, userId)
  }

  function Unread(n: Notification): bool {
    !n.isRead
  }

  function UnreadVisible(userId: int): Notification -> bool {
    (n: Notification) => VisibleTo(n, userId) && !n.isRead
  }

  function NotifCreatedAt(n: Notification): int {
    n.createdAt
  }

  /** The list query: the visible rows ORDER BY created_at DESC. */
  function InboxList(rows: seq<Notification>, userId: int): seq<Notification> {
    SortDesc(Filter(rows, Visible(userId)), NotifCreatedAt)
  }

  /** The badge query: COUNT(*) of the visible rows with is_read = 0. */
  function UnreadCount(rows: seq<Notification>, userId: int): nat {
    Count(rows, UnreadVisible(userId))
  }

  /** The list holds exactly the administrator's notifications and the
      broadcasts, newest first. */
  lemma InboxIsOwnAndBroadcast(rows: seq<Notification>, userId: int)
    ensures var r := InboxList(rows, userId);
      && (forall n :: n in r <==> n in rows && (n.userId == Some(userId) || n.userId.None?))
      && (forall i, j :: 0 <= i < j < |r| ==> r[i].createdAt >= r[j].createdAt)
  {
    SortedSelection(rows, Visible(userId), NotifCreatedAt);
  }

  /** The badge counts exactly the unread rows of the list. */
  lemma UnreadCountMatchesTheList(rows: seq<Notification>, userId: int)
    ensures UnreadCount(rows, userId) == Count(InboxList(rows, userId), Unread)
  {
    CountSelected(rows, Visible(userId), Unread, UnreadVisible(userId));
    SortKeepsCount(Filter(rows, Visible(userId)), NotifCreatedAt, Unread);
  }

  /** Marking one notification read twice is marking it once. */
  lemma MarkReadIsIdempotent(rows: seq<Notification>, id: int)
    ensures MarkRead(MarkRead(rows, id), id) == MarkRead(rows, id)
  {
    var once := MarkRead(rows, id);
    var twice := MarkRead(once, id);
    forall i | 0 <= i < |twice|
      ensures twice[i] == once[i]
    {
      assert twice[i].(isRead := once[i].isRead) == once[i];
    }
  }

  /** After "mark all read" nothing addressed to the administrator is
      unread, and the unread badge counts only the unread broadcasts. */
  lemma {:induction false} MarkAllLeavesBroadcastsUnread(rows: seq<Notification>, userId: int)
    ensures forall n <- MarkAllRead(rows, userId) :: n.userId == Some(userId) ==> n.isRead
    ensures UnreadCount(MarkAllRead(rows, userId), userId) == Count(rows, UnreadBroadcast)
  {
    var after := MarkAllRead(rows, userId);
    forall n <- after | n.userId == Some(userId)
      ensures n.isRead
    {
      var i :| 0 <= i < |after| && after[i] == n;
      assert after[i].(isRead := rows[i].isRead) == rows[i];
    }
    MarkAllCount(rows, userId);
  }

  function UnreadBroadcast(n: Notification): bool {
    n.userId.None? && !n.isRead
  }

  lemma {:induction false} MarkAllCount(rows: seq<Notification>, userId: int)
    ensures Count(MarkAllRead(rows, userId), UnreadVisible(userId)) == Count(rows, UnreadBroadcast)
  {
    if rows != [] {
      var after := MarkAllRead(rows, userId);
      assert after[1..] == MarkAllRead(rows[1..], userId) by {
        forall k | 0 <= k < |after| - 1
          ensures after[1..][k] == MarkAllRead(rows[1..], userId)[k]
        {
        }
      }
      MarkAllCount(rows[1..], userId);
    }
  }

  // ------------------------------------------------------------------
  // getTimeAgo and getNotifIcon
  // ------------------------------------------------------------------

  /** The buckets of getTimeAgo: under a minute (a time in the future
      too), whole minutes, whole hours, whole days, or a date after a
      week. */
  datatype Age = JustNow | Minutes(n: int) | Hours(n: int) | Days(n: int) | Dated

  /** The bucket of a difference of `diff` seconds; each count is the
      floor of the difference in its unit. */
  function AgeOf(diff: int): (r: Age)
    ensures r == JustNow <==> diff < 60
    ensures r.Minutes? <==> 60 <= diff < 3600
    ensures r.Hours? <==> 3600 <= diff < 86400
    ensures r.Days? <==> 86400 <= diff < 604800
    ensures r == Dated <==> diff >= 604800
    ensures r.Minutes? ==> 1 <= r.n < 60 && r.n * 60 <= diff < r.n * 60 + 60
    ensures r.Hours? ==> 1 <= r.n < 24 && r.n * 3600 <= diff < r.n * 3600 + 3600
    ensures r.Days? ==> 1 <= r.n < 7 && r.n * 86400 <= diff < r.n * 86400 + 86400
  {
    if diff < 60 then JustNow
    else if diff < 3600 then Minutes(diff / 60)
    else if diff < 86400 then Hours(diff / 3600)
    else if diff < 604800 then Days(diff / 86400)
    else Dated
  }

  function AgeRank(a: Age): int {
    match a
    case JustNow => 0
    case Minutes(_) => 1
    case Hours(_) => 2
    case Days(_) => 3
    case Dated => 4
  }

  /** An older notification never shows a younger bucket. */
  lemma AgeIsMonotone(d1: int, d2: int)
    requires d1 <= d2
    ensures AgeRank(AgeOf(d1)) <= AgeRank(AgeOf(d2))
    ensures AgeOf(d1).Minutes? && AgeOf(d2).Minutes? ==> AgeOf(d1).n <= AgeOf(d2).n
  {
  }

  const JustNowText := "Just now"
  const MinsAgo := " mins ago"
  const HoursAgo := " hours ago"
  const DaysAgo := " days ago"

  /** getTimeAgo at time `now` for a notification created at `time`;
      `shortDate` is date('M d, Y', ...). */
  function TimeAgo(now: int, time: int, shortDate: int -> string): string {
    match AgeOf(now - time)
    case JustNow => JustNowText
    case Minutes(n) => IntToString(n) + MinsAgo
    case Hours(n) => IntToString(n) + HoursAgo
    case Days(n) => IntToString(n) + DaysAgo
    case Dated => shortDate(time)
  }

  const Icons: seq<string> := ["📦", "💰", "⚙️", "⚠️", "✅", "ℹ️"]
  const Bell := "🔔"

  /** getNotifIcon: the icon of a known type, the bell for any other. */
  function Icon(kind: string): (r: string)
    ensures r == Bell <==> kind !in NotifTypes
    ensures forall i :: 0 <= i < |NotifTypes| && NotifTypes[i] == kind ==> r == Icons[i]
  {
    if kind == "order" then Icons[0]
    else if kind == "payment" then Icons[1]
    else if kind == "system" then Icons[2]
    else if kind == "alert" then Icons[3]
    else if kind == "success" then Icons[4]
    else if kind == "info" then Icons[5]
    else Bell
  }

  /** Two known types never share an icon. */
  lemma IconsTellTypesApart(k1: string, k2: string)
    requires k1 in NotifTypes && k2 in NotifTypes && k1 != k2
    ensures Icon(k1) != Icon(k2)
  {
  }

  // ------------------------------------------------------------------
  // The page
  // ------------------------------------------------------------------

  const InboxPage := "notifications.php"

  /** The query parameters the handlers look at, already through intval. */
  datatype InboxAction = MarkOne(id: int) | MarkAll | DeleteOne(id: int) | View

  /** The handler that runs when several parameters are present: each one
      ends the request, so mark_read wins over mark_all_read, which wins
      over delete. */
  function ActionOf(markRead: Option<int>, markAll: bool, delete: Option<int>): (a: InboxAction)
    ensures a.View? <==> markRead.None? && !markAll && delete.None?
    ensures markRead.Some? ==> a == MarkOne(markRead.value)
  {
    if markRead.Some? then MarkOne(markRead.value)
    else if markAll then MarkAll
    else if delete.Some? then DeleteOne(delete.value)
    else View
  }

  /** The notifications table after the request. */
  function InboxAfter(rows: seq<Notification>, userId: int, a: InboxAction): seq<Notification> {
    match a
    case MarkOne(id) => MarkRead(rows, id)
    case MarkAll => MarkAllRead(rows, userId)
    case DeleteOne(id) => Delete(rows, id)
    case View => rows
  }

  lemma IdsStayBelow(before: seq<Notification>, after: seq<Notification>, next: int)
    requires |after| == |before|
    requires forall i :: 0 <= i < |after| ==> after[i].id == before[i].id
    requires forall n <- before :: 0 < n.id < next
    ensures forall n <- after :: 0 < n.id < next
  {
    forall n <- after
      ensures 0 < n.id < next
    {
      var i :| 0 <= i < |after| && after[i] == n;
      assert before[i] in before;
    }
  }

  /** mark_read, then mark_all_read, then delete, each ending the request
      with a redirect to the inbox; a plain visit changes nothing. Only a
      logged-in administrator gets past the top of the page. */
  method HandleNotifications(sess: Session, db: Db, a: InboxAction) returns (resp: Response)
    requires db.Valid()
    modifies db`notifications
    ensures db.Valid()
    ensures !sess.IsAdmin() ==> resp == Redirect(LoginPage) && db.notifications == old(db.notifications)
    ensures sess.IsAdmin() ==>
      && db.notifications == InboxAfter(old(db.notifications), sess.userId.value, a)
      && resp == (if a.View? then Page(None, None) else Redirect(InboxPage))
  {
    if !sess.IsAdmin() {
      return Redirect(LoginPage);
    }
    match a {
      case MarkOne(id) =>
        var rows := MarkRead(db.notifications, id);
        forall i | 0 <= i < |rows|
          ensures rows[i].id == db.notifications[i].id
        {
          assert rows[i].(isRead := db.notifications[i].isRead) == db.notifications[i];
        }
        IdsStayBelow(db.notifications, rows, db.nextNotificationId);
        db.notifications := rows;
        resp := Redirect(InboxPage);
      case MarkAll =>
        var rows := MarkAllRead(db.notifications, sess.userId.value);
        forall i | 0 <= i < |rows|
          ensures rows[i].id == db.notifications[i].id
        {
          assert rows[i].(isRead := db.notifications[i].isRead) == db.notifications[i];
        }
        IdsStayBelow(db.notifications, rows, db.nextNotificationId);
        db.notifications := rows;
        resp := Redirect(InboxPage);
      case DeleteOne(id) =>
        db.notifications := Delete(db.notifications, id);
        resp := Redirect(InboxPage);
      case View =>
        resp := Page(None, None);
    }
  }
}
