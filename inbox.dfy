/** The notification inbox on the server: the unread count
    (app/api/notifications/unread-count/route.ts), mark-all-read's bulk update
    (app/api/notifications/mark-all-read/route.ts), the two "newest 50"
    listings (app/api/notifications/route.ts, app/api/notifications/list/route.ts)
    and the create endpoint's type-to-message mapping
    (app/api/notifications/create/route.ts). */
module Inbox {
  import opened Common
  import opened Domain
  import opened Query
  import opened NotificationWriter

  /** The create endpoint's wording for every type other than FOLLOW, COMMENT, LIKE. */
  const ACTIVITY_MESSAGE := "new activity"
  /** `take: 50` of both listings. */
  const LISTING_LIMIT := 50

  predicate IsMine(n: Notification, me: UserId) { n.recipientId == me }
  predicate IsUnreadFor(n: Notification, me: UserId) { n.recipientId == me && !n.isRead }

  /** `notification.count({ where: { recipientId, isRead: false } })`. */
  function UnreadCount(ns: seq<Notification>, me: UserId): (k: nat)
    ensures k <= Count(ns, (n: Notification) => IsMine(n, me))
  {
    CountMonotone(ns, (n: Notification) => IsUnreadFor(n, me), (n: Notification) => IsMine(n, me));
    Count(ns, (n: Notification) => IsUnreadFor(n, me))
  }

  /** Appending rows changes the count by the number of new unread rows for
      that recipient; rows of other recipients do not affect it. */
  lemma UnreadCountAppend(ns: seq<Notification>, rows: seq<Notification>, me: UserId)
    ensures UnreadCount(ns + rows, me) == UnreadCount(ns, me) + UnreadCount(rows, me)
  {
    CountConcat(ns, rows, (n: Notification) => IsUnreadFor(n, me));
  }

  /** A row set that holds nothing unread for `me` counts zero. */
  lemma {:induction false} UnreadCountZero(ns: seq<Notification>, me: UserId)
    requires forall i :: 0 <= i < |ns| ==> !IsUnreadFor(ns[i], me)
    ensures UnreadCount(ns, me) == 0
  {
    if ns != [] {
      UnreadCountZero(ns[..|ns| - 1], me);
    }
  }

  /** The result of `updateMany({ where: { recipientId: me, isRead: false },
      data: { isRead: true } })` on the notification table. */
  function MarkAllReadRows(ns: seq<Notification>, me: UserId): (r: seq<Notification>)
    ensures |r| == |ns|
    ensures forall i :: 0 <= i < |r| ==> r[i].recipientId == me ==> r[i].isRead
    ensures forall i :: 0 <= i < |r| ==> r[i] == ns[i].(isRead := r[i].isRead)
    ensures forall i :: 0 <= i < |r| ==> ns[i].recipientId != me || ns[i].isRead ==> r[i] == ns[i]
  {
    if ns == [] then []
    else
      var head := if IsUnreadFor(ns[0], me) then ns[0].(isRead := true) else ns[0];
      [head] + MarkAllReadRows(ns[1..], me)
  }

  /** Afterwards the caller has nothing unread. */
  lemma MarkAllReadClearsUnread(ns: seq<Notification>, me: UserId)
    ensures UnreadCount(MarkAllReadRows(ns, me), me) == 0
  {
    UnreadCountZero(MarkAllReadRows(ns, me), me);
  }

  /** Other recipients' unread counts are untouched. */
  lemma MarkAllReadKeepsOthers(ns: seq<Notification>, me: UserId, other: UserId)
    requires other != me
    ensures UnreadCount(MarkAllReadRows(ns, me), other) == UnreadCount(ns, other)
  {
    var r := MarkAllReadRows(ns, me);
    CountPointwise(r, (n: Notification) => IsUnreadFor(n, other), ns, (n: Notification) => IsUnreadFor(n, other));
  }

  /** Marking everything read a second time changes nothing. */
  lemma MarkAllReadIdempotent(ns: seq<Notification>, me: UserId)
    ensures MarkAllReadRows(MarkAllReadRows(ns, me), me) == MarkAllReadRows(ns, me)
  {
    var once := MarkAllReadRows(ns, me);
    var twice := MarkAllReadRows(once, me);
    forall i | 0 <= i < |once| ensures twice[i] == once[i] {
      if once[i].recipientId == me {
        assert once[i].isRead;
      }
    }
  }

  /** `orderBy: { createdAt: "desc" }`. */
  function NewerFirst(): (Notification, Notification) -> bool {
    (a: Notification, b: Notification) => a.createdAt >= b.createdAt
  }

  /** The caller's rows, as `where: { recipientId }` selects them. */
  function RowsOf(ns: seq<Notification>, me: UserId): seq<Notification> {
    Filter(ns, (n: Notification) => IsMine(n, me))
  }

  lemma NewerFirstIsOrder()
    ensures TotalPreorder(NewerFirst())
  {
  }

  /** `findMany({ where: { recipientId: me }, orderBy: { createdAt: "desc" }, take: 50 })`. */
  function Newest(ns: seq<Notification>, me: UserId): (r: seq<Notification>)
    ensures |r| == Min(LISTING_LIMIT, |RowsOf(ns, me)|)
    ensures forall i :: 0 <= i < |r| ==> r[i].recipientId == me
    ensures SortedBy(r, NewerFirst())
    ensures multiset(r) <= multiset(RowsOf(ns, me))
    ensures forall n :: n in RowsOf(ns, me) && n !in r ==>
              forall i :: 0 <= i < |r| ==> r[i].createdAt >= n.createdAt
  {
    var mine := RowsOf(ns, me);
    NewerFirstIsOrder();
    TopWindow(mine, NewerFirst(), LISTING_LIMIT);
    var r := Take(OrderBy(mine, NewerFirst()), LISTING_LIMIT);
    forall i | 0 <= i < |r| ensures r[i].recipientId == me {
      assert r[i] in multiset(mine);
    }
    r
  }

  /** GET /api/notifications: 401 when anonymous, otherwise the caller's newest 50. */
  function NotificationsGet(ns: seq<Notification>, caller: Option<UserId>): (r: Reply<seq<Notification>>)
    ensures caller.None? <==> r == Error(401, "Unauthorized")
    ensures r.Ok? ==> r.value == Newest(ns, caller.value)
  {
    if caller.None? then Error(401, "Unauthorized") else Ok(Newest(ns, caller.value))
  }

  /** GET /api/notifications/list: an empty list, not an error, when anonymous. */
  function NotificationsList(ns: seq<Notification>, caller: Option<UserId>): (r: seq<Notification>)
    ensures caller.None? ==> r == []
    ensures caller.Some? ==> r == Newest(ns, caller.value)
  {
    if caller.None? then [] else Newest(ns, caller.value)
  }

  /** GET /api/notifications/unread-count. */
  function UnreadCountGet(ns: seq<Notification>, caller: Option<UserId>): (r: Reply<nat>)
    ensures caller.None? <==> r == Error(401, "Unauthorized")
    ensures r.Ok? ==> r.value == UnreadCount(ns, caller.value)
  {
    if caller.None? then Error(401, "Unauthorized") else Ok(UnreadCount(ns, caller.value))
  }

  /** The two listings agree for a signed-in caller and differ only in how
      they answer an anonymous one. */
  lemma ListingsAgree(ns: seq<Notification>, caller: Option<UserId>)
    ensures NotificationsGet(ns, caller).Ok? ==> NotificationsGet(ns, caller).value == NotificationsList(ns, caller)
    ensures NotificationsGet(ns, caller).Error? ==> NotificationsList(ns, caller) == []
  {
  }

  /** The fixed message each writer of lib/notifications.ts uses for its type. */
  function WriterMessage(kind: NotificationType): string {
    match kind
    case FOLLOW => FOLLOW_MESSAGE
    case LIKE => LIKE_MESSAGE
    case COMMENT => COMMENT_MESSAGE
    case POST => POST_MESSAGE
  }

  function TypeName(kind: NotificationType): (s: string)
    ensures ParseNotificationType(s) == Some(kind)
  {
    match kind
    case FOLLOW => "FOLLOW"
    case LIKE => "LIKE"
    case COMMENT => "COMMENT"
    case POST => "POST"
  }

  /** The create endpoint's nested conditional on the body's `type`. */
  function CreateEndpointMessage(kind: string): string {
    if kind == "FOLLOW" then FOLLOW_MESSAGE
    else if kind == "COMMENT" then COMMENT_MESSAGE
    else if kind == "LIKE" then LIKE_MESSAGE
    else ACTIVITY_MESSAGE
  }

  /** The create endpoint uses the writers' wording for FOLLOW, LIKE and
      COMMENT, but not for POST, and "new activity" for anything else. */
  lemma CreateEndpointMessageAgainstWriters(kind: NotificationType, other: string)
    ensures kind != POST ==> CreateEndpointMessage(TypeName(kind)) == WriterMessage(kind)
    ensures CreateEndpointMessage(TypeName(POST)) == ACTIVITY_MESSAGE != WriterMessage(POST)
    ensures other !in {"FOLLOW", "LIKE", "COMMENT"} ==> CreateEndpointMessage(other) == ACTIVITY_MESSAGE
  {
  }
}
