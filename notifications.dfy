/**
 * The notification store behind the bell icon: a list of notifications,
 * newest first, replaced as a whole by each operation, plus the first-visit
 * welcome rule. The browser storage is reduced to the first-visit mark.
 */
module Notifications {
  import opened Types
  import opened Text

  const WELCOME_MESSAGE :=
    "Se ha publicado una nueva rese\U{F1}a sobre \"Ana Perez\". \U{A1}\U{C9}chale un vistazo!"
  const WELCOME_LINK := "#/results/ana%20perez"
  /** The value stored under the first-visit key once the welcome has been shown. */
  const VISITED_MARK := "false"

  /** The number of unread entries (`notifications.filter(n => !n.read).length`). */
  function CountUnread(ns: seq<Notification>): (n: nat)
    ensures n <= |ns|
    ensures n == 0 <==> forall i :: 0 <= i < |ns| ==> ns[i].read
  {
    if ns == [] then 0
    else
      var rest := CountUnread(ns[..|ns| - 1]);
      assert forall i :: 0 <= i < |ns| - 1 ==> ns[..|ns| - 1][i] == ns[i];
      if ns[|ns| - 1].read then rest else rest + 1
  }

  /** The number of unread entries carrying the given id. */
  function CountUnreadWithId(ns: seq<Notification>, id: string): nat
  {
    if ns == [] then 0
    else CountUnreadWithId(ns[..|ns| - 1], id) + (if !ns[|ns| - 1].read && ns[|ns| - 1].id == id then 1 else 0)
  }

  /** `prev.map(n => n.id === id ? { ...n, read: true } : n)`. */
  function MarkRead(ns: seq<Notification>, id: string): (r: seq<Notification>)
    ensures |r| == |ns|
    ensures forall i :: 0 <= i < |ns| ==> r[i] == ns[i].(read := ns[i].read || ns[i].id == id)
  {
    seq(|ns|, i requires 0 <= i < |ns| => if ns[i].id == id then ns[i].(read := true) else ns[i])
  }

  /** `prev.map(n => ({ ...n, read: true }))`. */
  function MarkAllRead(ns: seq<Notification>): (r: seq<Notification>)
    ensures |r| == |ns|
    ensures forall i :: 0 <= i < |ns| ==> r[i] == ns[i].(read := true)
  {
    seq(|ns|, i requires 0 <= i < |ns| => ns[i].(read := true))
  }

  /** After marking everything read no entry is unread, and marking again changes nothing. */
  lemma MarkAllReadSettles(ns: seq<Notification>)
    ensures CountUnread(MarkAllRead(ns)) == 0
    ensures MarkAllRead(MarkAllRead(ns)) == MarkAllRead(ns)
  {
  }

  /** Marking one id read removes exactly the unread entries with that id from the count. */
  lemma {:induction false} MarkReadCount(ns: seq<Notification>, id: string)
    ensures CountUnread(MarkRead(ns, id)) == CountUnread(ns) - CountUnreadWithId(ns, id)
  {
    if ns != [] {
      var n := |ns| - 1;
      MarkReadCount(ns[..n], id);
      assert MarkRead(ns, id)[..n] == MarkRead(ns[..n], id);
    }
  }

  /** Entries whose id differs are left exactly as they were. */
  lemma MarkReadKeepsOthers(ns: seq<Notification>, id: string, i: nat)
    requires i < |ns| && ns[i].id != id
    ensures MarkRead(ns, id)[i] == ns[i]
  {
  }

  /** A new notification at the front adds one to the unread count. */
  lemma {:induction false} PrependUnread(n: Notification, ns: seq<Notification>)
    requires !n.read
    ensures CountUnread([n] + ns) == CountUnread(ns) + 1
    decreases |ns|
  {
    if ns == [] {
    } else {
      var k := |ns| - 1;
      assert ([n] + ns)[..k + 1] == [n] + ns[..k];
      PrependUnread(n, ns[..k]);
    }
  }

  /** The id `addNotification` builds: `notif-<epoch millis>-<random>`. */
  function NotificationId(now: nat, random: string): string
  {
    "notif-" + DecimalString(now) + "-" + random
  }

  /** The welcome is due on a first visit (no truthy mark stored) while the list is empty. */
  predicate WelcomeDue(mark: Option<string>, ns: seq<Notification>)
  {
    !Truthy(mark) && ns == []
  }

  class NotificationStore {
    var notifications: seq<Notification>
    /** What the browser storage holds under the first-visit key. */
    var firstVisitMark: Option<string>

    /** The store starts from the saved list and the saved first-visit mark. */
    constructor (saved: seq<Notification>, mark: Option<string>)
      ensures notifications == saved && firstVisitMark == mark
    {
      notifications := saved;
      firstVisitMark := mark;
    }

    function UnreadCount(): nat
      reads this
    {
      CountUnread(notifications)
    }

    /** The mount effect: on a first visit with an empty list, show the single welcome entry. */
    method ShowWelcome(now: nat, date: string)
      modifies this
      ensures WelcomeDue(old(firstVisitMark), old(notifications)) ==>
        && notifications == [Notification("welcome-" + DecimalString(now), WELCOME_MESSAGE, false, date, Some(WELCOME_LINK))]
        && firstVisitMark == Some(VISITED_MARK)
        && UnreadCount() == 1
      ensures !WelcomeDue(old(firstVisitMark), old(notifications)) ==>
        notifications == old(notifications) && firstVisitMark == old(firstVisitMark)
    {
      var isFirstVisit := !Truthy(firstVisitMark);
      if isFirstVisit && |notifications| == 0 {
        var welcome := Notification("welcome-" + DecimalString(now), WELCOME_MESSAGE, false, date, Some(WELCOME_LINK));
        notifications := [welcome];
        firstVisitMark := Some(VISITED_MARK);
        assert [welcome][..0] == [];
      }
    }

    /** `addNotification`: a new unread entry goes in front of the old list. */
    method AddNotification(message: string, link: Option<string>, now: nat, random: string, date: string)
      modifies this
      ensures notifications == [Notification(NotificationId(now, random), message, false, date, link)] + old(notifications)
      ensures UnreadCount() == old(UnreadCount()) + 1
      ensures firstVisitMark == old(firstVisitMark)
    {
      var newNotification := Notification(NotificationId(now, random), message, false, date, link);
      PrependUnread(newNotification, notifications);
      notifications := [newNotification] + notifications;
    }

    method MarkAsRead(id: string)
      modifies this
      ensures notifications == MarkRead(old(notifications), id)
      ensures UnreadCount() == old(UnreadCount()) - CountUnreadWithId(old(notifications), id)
      ensures firstVisitMark == old(firstVisitMark)
    {
      MarkReadCount(notifications, id);
      notifications := MarkRead(notifications, id);
    }

    method MarkAllAsRead()
      modifies this
      ensures notifications == MarkAllRead(old(notifications))
      ensures UnreadCount() == 0
      ensures firstVisitMark == old(firstVisitMark)
    {
      notifications := MarkAllRead(notifications);
    }

    method ClearNotifications()
      modifies this
      ensures notifications == [] && UnreadCount() == 0
      ensures firstVisitMark == old(firstVisitMark)
    {
      notifications := [];
    }
  }
}
