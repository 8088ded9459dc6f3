/** The live unread counters of the client: the `NotificationProvider`
    context (context/NotificationContext.tsx) and the
    `useRealtimeNotifications` hook (hooks/useRealTimeNotifications.ts). Both
    react to the realtime channel's INSERT and UPDATE events for the signed-in
    user's notification rows in the same way. */
module Counters {
  import opened Common
  import opened Domain
  import opened Inbox

  /** A realtime event on one of the user's notification rows; an UPDATE
      carries the row's `is_read` before and after. */
  datatype Event = Insert | Update(oldRead: bool, newRead: bool)

  predicate IsReadFlip(e: Event) {
    e.Update? && e.newRead && !e.oldRead
  }

  /** One handler call: +1 on INSERT, floored −1 on a read flip, nothing on
      any other UPDATE. */
  function Step(count: int, e: Event): int {
    match e
    case Insert => count + 1
    case Update(_, _) => if IsReadFlip(e) then Max(0, count - 1) else count
  }

  function Replay(count: int, es: seq<Event>): int
    decreases |es|
  {
    if es == [] then count else Replay(Step(count, es[0]), es[1..])
  }

  /** Starting from a count that is not negative, no sequence of events makes
      it negative. */
  lemma {:induction false} ReplayNonNegative(count: int, es: seq<Event>)
    requires count >= 0
    ensures Replay(count, es) >= 0
    decreases |es|
  {
    if es != [] {
      ReplayNonNegative(Step(count, es[0]), es[1..]);
    }
  }

  /** A run of inserts alone counts up by exactly its length. */
  lemma {:induction false} ReplayInsertsOnly(count: int, n: nat)
    ensures Replay(count, seq(n, _ => Insert)) == count + n
    decreases n
  {
    if n > 0 {
      assert seq(n, _ => Insert)[1..] == seq(n - 1, _ => Insert);
      ReplayInsertsOnly(count + 1, n - 1);
    }
  }

  // ---------------------------------------------------------------------------
  // The counter against the server's count
  // ---------------------------------------------------------------------------

  /** What happens to the user's rows on the server: a new unread row
      arrives, or row `k` is marked read (the only update the app makes). */
  datatype Change = Arrived(n: Notification) | MarkedRead(k: nat)

  predicate Applicable(ns: seq<Notification>, me: UserId, c: Change) {
    match c
    case Arrived(n) => n.recipientId == me && !n.isRead
    case MarkedRead(k) => k < |ns| && ns[k].recipientId == me
  }

  function Apply(ns: seq<Notification>, c: Change): seq<Notification> {
    match c
    case Arrived(n) => ns + [n]
    case MarkedRead(k) => if k < |ns| then ns[k := ns[k].(isRead := true)] else ns
  }

  /** The event the realtime channel delivers for a change. */
  function Observed(ns: seq<Notification>, c: Change): Event {
    match c
    case Arrived(_) => Insert
    case MarkedRead(k) => if k < |ns| then Update(ns[k].isRead, true) else Update(true, true)
  }

  /** One change moves the server count exactly as the handler moves the counter. */
  lemma StepTracksChange(ns: seq<Notification>, me: UserId, c: Change)
    requires Applicable(ns, me, c)
    ensures UnreadCount(Apply(ns, c), me) == Step(UnreadCount(ns, me), Observed(ns, c))
  {
    match c
    case Arrived(n) =>
      UnreadCountAppend(ns, [n], me);
      assert UnreadCount([n], me) == 1 by {
        assert [n][..0] == [];
      }
    case MarkedRead(k) =>
      CountUpdate(ns, k, ns[k].(isRead := true), (n: Notification) => IsUnreadFor(n, me));
  }

  /** A counter seeded with the server's unread count and fed the events of
      every later change equals the server's count afterwards. */
  lemma {:induction false} ReplayTracksServer(ns: seq<Notification>, me: UserId, cs: seq<Change>)
    requires ValidChanges(ns, me, cs)
    ensures Replay(UnreadCount(ns, me), Events(ns, cs)) == UnreadCount(ApplyAll(ns, cs), me)
    decreases |cs|
  {
    if cs != [] {
      StepTracksChange(ns, me, cs[0]);
      ReplayTracksServer(Apply(ns, cs[0]), me, cs[1..]);
    }
  }

  predicate ValidChanges(ns: seq<Notification>, me: UserId, cs: seq<Change>)
    decreases |cs|
  {
    cs == [] || (Applicable(ns, me, cs[0]) && ValidChanges(Apply(ns, cs[0]), me, cs[1..]))
  }

  function ApplyAll(ns: seq<Notification>, cs: seq<Change>): seq<Notification>
    decreases |cs|
  {
    if cs == [] then ns else ApplyAll(Apply(ns, cs[0]), cs[1..])
  }

  function Events(ns: seq<Notification>, cs: seq<Change>): (es: seq<Event>)
    ensures |es| == |cs|
    decreases |cs|
  {
    if cs == [] then [] else [Observed(ns, cs[0])] + Events(Apply(ns, cs[0]), cs[1..])
  }

  // ---------------------------------------------------------------------------
  // The two stateful holders of the counter
  // ---------------------------------------------------------------------------

  /** `NotificationProvider`'s state. */
  class NotificationProvider {
    var unreadCount: int
    var hasNewNotification: bool

    ghost predicate Valid()
      reads this
    {
      unreadCount >= 0
    }

    constructor()
      ensures Valid() && unreadCount == 0 && !hasNewNotification
    {
      unreadCount := 0;
      hasNewNotification := false;
    }

    /** `fetchUnreadCount`: on an ok response the counter becomes the server's
        count; otherwise nothing changes. */
    method FetchUnreadCount(ok: bool, serverCount: nat)
      modifies this
      requires Valid()
      ensures Valid() && hasNewNotification == old(hasNewNotification)
      ensures unreadCount == if ok then serverCount else old(unreadCount)
    {
      if ok {
        unreadCount := serverCount;
      }
    }

    method OnInsert()
      modifies this
      requires Valid()
      ensures Valid() && unreadCount == Step(old(unreadCount), Insert) && hasNewNotification
    {
      unreadCount := unreadCount + 1;
      hasNewNotification := true;
    }

    method OnUpdate(oldRead: bool, newRead: bool)
      modifies this
      requires Valid()
      ensures Valid() && hasNewNotification == old(hasNewNotification)
      ensures unreadCount == Step(old(unreadCount), Update(oldRead, newRead))
    {
      if newRead && !oldRead {
        unreadCount := Max(0, unreadCount - 1);
      }
    }

    method ClearNewNotification()
      modifies this
      ensures !hasNewNotification && unreadCount == old(unreadCount)
    {
      hasNewNotification := false;
    }
  }

  /** `useRealtimeNotifications`'s state: the same handlers and no initial
      fetch, so it counts from 0. */
  class RealtimeCounter {
    var unreadCount: int

    constructor()
      ensures unreadCount == 0
    {
      unreadCount := 0;
    }

    method OnInsert()
      modifies this
      ensures unreadCount == Step(old(unreadCount), Insert)
    {
      unreadCount := unreadCount + 1;
    }

    method OnUpdate(oldRead: bool, newRead: bool)
      modifies this
      ensures unreadCount == Step(old(unreadCount), Update(oldRead, newRead))
    {
      if newRead && !oldRead {
        unreadCount := Max(0, unreadCount - 1);
      }
    }

    /** Replaying a run of events through the handlers gives `Replay` of them. */
    method Run(es: seq<Event>)
      modifies this
      ensures unreadCount == Replay(old(unreadCount), es)
      ensures old(unreadCount) >= 0 ==> unreadCount >= 0
    {
      var i := 0;
      while i < |es|
        invariant 0 <= i <= |es|
        invariant Replay(unreadCount, es[i..]) == Replay(old(unreadCount), es)
        decreases |es| - i
      {
        assert es[i..][1..] == es[i + 1..];
        match es[i] {
          case Insert => OnInsert();
          case Update(o, n) => OnUpdate(o, n);
        }
        i := i + 1;
      }
      if old(unreadCount) >= 0 {
        ReplayNonNegative(old(unreadCount), es);
      }
    }
  }
}
