/** The notifications page (app/notifications/page.tsx): the list it holds,
    the three ways that list changes (a single row marked read, every row
    marked read, a realtime UPDATE), the unread badge and the "time ago" label. */
module NotificationsPage {
  import opened Common
  import opened Domain
  import opened Names

  /** A listed notification as the page holds it, with its sender's names. */
  datatype Item = Item(id: NotificationId, kind: NotificationType, message: string,
                       isRead: bool, createdAt: int, sender: Person)

  predicate UniqueItemIds(items: seq<Item>) {
    forall i, j :: 0 <= i < j < |items| ==> items[i].id != items[j].id
  }

  /** `notifications.filter((n) => !n.isRead).length`. */
  function LocalUnread(items: seq<Item>): nat {
    Count(items, (n: Item) => !n.isRead)
  }

  /** `prev.map(n => n.id === id ? { ...n, isRead } : n)`. */
  function WithRead(items: seq<Item>, id: NotificationId, isRead: bool): (r: seq<Item>)
    ensures |r| == |items|
    ensures forall i :: 0 <= i < |r| && items[i].id == id ==> r[i] == items[i].(isRead := isRead)
    ensures forall i :: 0 <= i < |r| && items[i].id != id ==> r[i] == items[i]
  {
    if items == [] then []
    else [if items[0].id == id then items[0].(isRead := isRead) else items[0]] + WithRead(items[1..], id, isRead)
  }

  /** `prev.map(n => ({ ...n, isRead: true }))`. */
  function AllRead(items: seq<Item>): (r: seq<Item>)
    ensures |r| == |items|
    ensures forall i :: 0 <= i < |r| ==> r[i] == items[i].(isRead := true)
  {
    if items == [] then [] else [items[0].(isRead := true)] + AllRead(items[1..])
  }

  /** With unique ids, marking a row touches exactly that one position. */
  lemma WithReadIsOneUpdate(items: seq<Item>, k: nat, isRead: bool)
    requires UniqueItemIds(items) && k < |items|
    ensures WithRead(items, items[k].id, isRead) == items[k := items[k].(isRead := isRead)]
  {
  }

  /** Marking one unread row read lowers the local unread count by exactly one;
      marking an already read row changes nothing. */
  lemma MarkOneLowersUnread(items: seq<Item>, k: nat)
    requires UniqueItemIds(items) && k < |items|
    ensures LocalUnread(WithRead(items, items[k].id, true)) == LocalUnread(items) - (if items[k].isRead then 0 else 1)
    ensures items[k].isRead ==> WithRead(items, items[k].id, true) == items
  {
    WithReadIsOneUpdate(items, k, true);
    CountUpdate(items, k, items[k].(isRead := true), (n: Item) => !n.isRead);
  }

  /** A realtime UPDATE for a notification the page does not list changes nothing. */
  lemma UpdateOfUnlistedRow(items: seq<Item>, id: NotificationId, isRead: bool)
    requires forall i :: 0 <= i < |items| ==> items[i].id != id
    ensures WithRead(items, id, isRead) == items
  {
  }

  /** After "mark all as read", the badge disappears. */
  lemma {:induction false} AllReadClearsUnread(items: seq<Item>)
    ensures LocalUnread(AllRead(items)) == 0
  {
    var nothing := (n: Item) => false;
    CountPointwise(AllRead(items), (n: Item) => !n.isRead, items, nothing);
    CountZero(items, nothing);
  }

  lemma {:induction false} CountZero<T>(s: seq<T>, p: T -> bool)
    requires forall i :: 0 <= i < |s| ==> !p(s[i])
    ensures Count(s, p) == 0
  {
    if s != [] {
      CountZero(s[..|s| - 1], p);
    }
  }

  /** The page's state. */
  class InboxPage {
    var items: seq<Item>
    var loading: bool
    var markingAllRead: bool

    constructor()
      ensures items == [] && loading && !markingAllRead
    {
      items := [];
      loading := true;
      markingAllRead := false;
    }

    /** `fetchNotifications` (also run on every realtime INSERT): the fetched
        listing replaces the list; a failed fetch keeps it. */
    method Fetch(ok: bool, fetched: seq<Item>)
      modifies this
      ensures items == (if ok then fetched else old(items))
      ensures !loading && markingAllRead == old(markingAllRead)
    {
      loading := true;
      if ok {
        items := fetched;
      }
      loading := false;
    }

    /** The realtime UPDATE handler: the row with that id takes the new read flag. */
    method OnUpdate(id: NotificationId, isRead: bool)
      modifies this
      ensures items == WithRead(old(items), id, isRead)
      ensures loading == old(loading) && markingAllRead == old(markingAllRead)
    {
      items := WithRead(items, id, isRead);
    }

    /** `markAsRead`: only after the server accepted the PATCH. */
    method MarkAsRead(id: NotificationId, ok: bool)
      modifies this
      ensures items == (if ok then WithRead(old(items), id, true) else old(items))
      ensures loading == old(loading) && markingAllRead == old(markingAllRead)
    {
      if ok {
        items := WithRead(items, id, true);
      }
    }

    /** `markAllAsRead`: every row read after the server accepted; the toast
        reports the outcome either way. */
    method MarkAllAsRead(ok: bool) returns (toast: string)
      modifies this
      ensures items == (if ok then AllRead(old(items)) else old(items))
      ensures ok ==> LocalUnread(items) == 0
      ensures toast == if ok then "All notifications marked as read" else "Failed to mark all as read"
      ensures !markingAllRead && loading == old(loading)
    {
      markingAllRead := true;
      if ok {
        items := AllRead(items);
        AllReadClearsUnread(old(items));
        toast := "All notifications marked as read";
      } else {
        toast := "Failed to mark all as read";
      }
      markingAllRead := false;
    }
  }

  // ---------------------------------------------------------------------------
  // Badge and time labels
  // ---------------------------------------------------------------------------

  /** The bell's badge: absent with nothing unread, "99+" above 99, otherwise the count. */
  function Badge(unread: nat): (r: Option<string>)
    ensures r.None? <==> unread == 0
    ensures r.Some? ==> 1 <= |r.value| <= 3
    ensures unread > 99 ==> r == Some("99+")
    ensures 0 < unread <= 99 ==> r == Some(NatToString(unread))
  {
    if unread == 0 then None
    else if unread > 99 then Some("99+")
    else
      NatToStringLength(unread);
      Some(NatToString(unread))
  }

  lemma NatToStringLength(n: nat)
    requires n <= 99
    ensures |NatToString(n)| <= 2
  {
  }

  /** The buckets of `formatTimeAgo`; past a week the page prints the date. */
  datatype Ago = JustNow | MinutesAgo(minutes: nat) | HoursAgo(hours: nat) | DaysAgo(days: nat) | OnDate

  /** `Math.floor(elapsedMs / 1000)`: Dafny's division by a positive divisor
      already rounds toward minus infinity, as `Math.floor` does. */
  function Seconds(elapsedMs: int): int {
    elapsedMs / 1000
  }

  /** `formatTimeAgo` on the elapsed milliseconds. A date in the future
      (a negative elapsed time) is "Just now". */
  function TimeAgo(elapsedMs: int): (a: Ago)
    ensures a.JustNow? <==> Seconds(elapsedMs) < 60
    ensures a.MinutesAgo? <==> 60 <= Seconds(elapsedMs) < 3600
    ensures a.HoursAgo? <==> 3600 <= Seconds(elapsedMs) < 86400
    ensures a.DaysAgo? <==> 86400 <= Seconds(elapsedMs) < 604800
    ensures a.OnDate? <==> Seconds(elapsedMs) >= 604800
    ensures a.MinutesAgo? ==> 1 <= a.minutes <= 59 && a.minutes * 60 <= Seconds(elapsedMs) < a.minutes * 60 + 60
    ensures a.HoursAgo? ==> 1 <= a.hours <= 23 && a.hours * 3600 <= Seconds(elapsedMs) < a.hours * 3600 + 3600
    ensures a.DaysAgo? ==> 1 <= a.days <= 6 && a.days * 86400 <= Seconds(elapsedMs) < a.days * 86400 + 86400
  {
    var s := Seconds(elapsedMs);
    if s < 60 then JustNow
    else if s < 3600 then MinutesAgo(s / 60)
    else if s < 86400 then HoursAgo(s / 3600)
    else if s < 604800 then DaysAgo(s / 86400)
    else OnDate
  }

  /** The label text; the locale-formatted date is not modelled (None). */
  function AgoLabel(a: Ago): (r: Option<string>)
    ensures r.None? <==> a.OnDate?
    ensures a.MinutesAgo? ==> r == Some(NatToString(a.minutes) + "m ago")
  {
    match a
    case JustNow => Some("Just now")
    case MinutesAgo(m) => Some(NatToString(m) + "m ago")
    case HoursAgo(h) => Some(NatToString(h) + "h ago")
    case DaysAgo(d) => Some(NatToString(d) + "d ago")
    case OnDate => None
  }

  /** An older notification never gets a smaller-bucket label than a newer one. */
  lemma TimeAgoMonotone(newer: int, older: int)
    requires newer <= older
    ensures Rank(TimeAgo(newer)) <= Rank(TimeAgo(older))
  {
    assert Seconds(newer) <= Seconds(older);
  }

  function Rank(a: Ago): nat {
    match a
    case JustNow => 0
    case MinutesAgo(_) => 1
    case HoursAgo(_) => 2
    case DaysAgo(_) => 3
    case OnDate => 4
  }
}
