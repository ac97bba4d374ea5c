/** Per-user notifications, newest first, under
    ai_dashboard_notifications_<uid>. Reads never throw: malformed text
    reads as the empty list. */
module NotificationService {
  import opened Wrappers
  import opened Text
  import opened Records
  import opened Browser

  const NotificationsKeyBase := "ai_dashboard_notifications"

  function NotificationsKey(uid: string): string {
    NotificationsKeyBase + "_" + uid
  }

  lemma NotificationsKeyInjective(u: string, v: string)
    requires NotificationsKey(u) == NotificationsKey(v)
    ensures u == v
  {
    PrefixCancel(NotificationsKeyBase + "_", u, v);
  }

  /** getUserNotifications(uid): the stored array, or [] when the key is
      absent, empty or malformed (the parse error is caught). */
  function GetUserNotifications(items: map<string, Stored>, uid: string): (r: seq<Notification>)
    ensures Lookup(items, NotificationsKey(uid)).NotificationArray? ==>
      r == Lookup(items, NotificationsKey(uid)).notifications
    ensures !Lookup(items, NotificationsKey(uid)).NotificationArray? ==> r == []
  {
    match Lookup(items, NotificationsKey(uid))
    case NotificationArray(ns) => ns
    case _ => []
  }

  /** The object spread into the new record: the caller may give any field,
      including id, timestamp and read. */
  datatype NotificationInput = NotificationInput(
    id: Option<string>, icon: string, title: string, message: string,
    timestamp: Option<int>, read: Option<bool>)

  /** `{ id: Date.now().toString(), ...notification, timestamp: Date.now(), read: false }`. */
  function NewNotification(input: NotificationInput, idTime: nat, time: nat): Notification {
    Notification(
      if input.id.Some? then input.id.value else DecimalString(idTime),
      input.icon, input.title, input.message, time, false)
  }

  /** The new record is unread and stamped with the clock whatever the
      caller supplied for those fields; a supplied id wins. */
  lemma NewNotificationFields(input: NotificationInput, idTime: nat, time: nat)
    ensures var n := NewNotification(input, idTime, time);
      && !n.read && n.timestamp == time
      && n.id == (if input.id.Some? then input.id.value else DecimalString(idTime))
      && forall t, b :: NewNotification(input.(timestamp := t, read := b), idTime, time) == n
  {
  }

  /** The storage addNotification leaves: the new record unshifted in front of
      what getUserNotifications read. */
  function NotificationAdded(items: map<string, Stored>, uid: string, input: NotificationInput, idTime: nat, time: nat)
    : map<string, Stored>
  {
    items[NotificationsKey(uid) := NotificationArray([NewNotification(input, idTime, time)] + GetUserNotifications(items, uid))]
  }

  /** addNotification(uid, notification). Nothing inside its try block can
      throw here (the read catches its own errors, the write is taken to
      succeed), so it always returns the new record. */
  method AddNotification(st: LocalStorage, uid: string, input: NotificationInput, idTime: nat, time: nat)
    returns (n: Notification)
    requires idTime <= time
    modifies st
    ensures old(st.Valid()) ==> st.Valid()
    ensures n == NewNotification(input, idTime, time)
    ensures st.items == NotificationAdded(old(st.items), uid, input, idTime, time)
  {
    var notifications := GetUserNotifications(st.items, uid);
    n := NewNotification(input, idTime, time);
    notifications := [n] + notifications;
    st.SetItem(NotificationsKey(uid), NotificationArray(notifications));
  }

  /** Adding inserts at index 0 and shifts the rest: the list grows by one and
      the earlier entries follow in their old order. */
  lemma AddThenGet(items: map<string, Stored>, uid: string, input: NotificationInput, idTime: nat, time: nat)
    ensures var before := GetUserNotifications(items, uid);
      var after := GetUserNotifications(NotificationAdded(items, uid, input, idTime, time), uid);
      && |after| == |before| + 1
      && after[0] == NewNotification(input, idTime, time)
      && after[1..] == before
  {
  }

  function MarkOne(n: Notification, id: string): Notification {
    if n.id == id then n.(read := true) else n
  }

  /** `notifications.map(n => n.id === id ? { ...n, read: true } : n)`. */
  function MarkRead(ns: seq<Notification>, id: string): (r: seq<Notification>)
    ensures |r| == |ns|
    ensures forall i :: 0 <= i < |ns| ==>
      if ns[i].id == id then r[i] == ns[i].(read := true) else r[i] == ns[i]
  {
    if ns == [] then [] else [MarkOne(ns[0], id)] + MarkRead(ns[1..], id)
  }

  /** The storage markNotificationAsRead leaves. It always writes the key,
      so an absent or malformed entry becomes an empty array. */
  function MarkedAsRead(items: map<string, Stored>, uid: string, id: string): map<string, Stored> {
    items[NotificationsKey(uid) := NotificationArray(MarkRead(GetUserNotifications(items, uid), id))]
  }

  method MarkNotificationAsRead(st: LocalStorage, uid: string, id: string)
    modifies st
    ensures old(st.Valid()) ==> st.Valid()
    ensures st.items == MarkedAsRead(old(st.items), uid, id)
  {
    var notifications := GetUserNotifications(st.items, uid);
    var updated := MarkRead(notifications, id);
    st.SetItem(NotificationsKey(uid), NotificationArray(updated));
  }

  lemma {:induction false} MarkReadIdempotent(ns: seq<Notification>, id: string)
    ensures MarkRead(MarkRead(ns, id), id) == MarkRead(ns, id)
  {
    if ns != [] {
      MarkReadIdempotent(ns[1..], id);
      assert MarkRead(ns, id)[1..] == MarkRead(ns[1..], id);
    }
  }

  /** With an id no entry carries, the list is unchanged. */
  lemma {:induction false} MarkReadAbsentId(ns: seq<Notification>, id: string)
    requires forall i :: 0 <= i < |ns| ==> ns[i].id != id
    ensures MarkRead(ns, id) == ns
  {
    if ns != [] {
      MarkReadAbsentId(ns[1..], id);
    }
  }

  function UnreadCount(ns: seq<Notification>): (c: nat)
    ensures c <= |ns|
  {
    if ns == [] then 0 else (if ns[0].read then 0 else 1) + UnreadCount(ns[1..])
  }

  function UnreadWithId(ns: seq<Notification>, id: string): (c: nat)
    ensures c <= UnreadCount(ns)
  {
    if ns == [] then 0 else (if !ns[0].read && ns[0].id == id then 1 else 0) + UnreadWithId(ns[1..], id)
  }

  /** The unread count drops by exactly the number of unread entries with
      that id, so it never increases. */
  lemma {:induction false} MarkReadUnreadCount(ns: seq<Notification>, id: string)
    ensures UnreadCount(MarkRead(ns, id)) == UnreadCount(ns) - UnreadWithId(ns, id)
  {
    if ns != [] {
      MarkReadUnreadCount(ns[1..], id);
      assert MarkRead(ns, id)[1..] == MarkRead(ns[1..], id);
    }
  }

  /** Marking read, seen through the store: the list reads back marked, a
      second call changes nothing, and an unknown id leaves the list as it
      read before (though the key is now written). */
  lemma MarkedAsReadThenGet(items: map<string, Stored>, uid: string, id: string)
    ensures var before := GetUserNotifications(items, uid);
      && GetUserNotifications(MarkedAsRead(items, uid, id), uid) == MarkRead(before, id)
      && MarkedAsRead(MarkedAsRead(items, uid, id), uid, id) == MarkedAsRead(items, uid, id)
      && ((forall i :: 0 <= i < |before| ==> before[i].id != id) ==>
            GetUserNotifications(MarkedAsRead(items, uid, id), uid) == before)
  {
    var before := GetUserNotifications(items, uid);
    MarkReadIdempotent(before, id);
    if forall i :: 0 <= i < |before| ==> before[i].id != id {
      MarkReadAbsentId(before, id);
    }
  }

  /** Both writers touch only ai_dashboard_notifications_<uid>; every other
      user's notifications read back as before. */
  lemma NotificationIsolation(items: map<string, Stored>, uid: string, input: NotificationInput, idTime: nat, time: nat, id: string)
    ensures forall k :: k != NotificationsKey(uid) ==>
      Lookup(NotificationAdded(items, uid, input, idTime, time), k) == Lookup(items, k)
      && Lookup(MarkedAsRead(items, uid, id), k) == Lookup(items, k)
    ensures forall other :: other != uid ==>
      GetUserNotifications(NotificationAdded(items, uid, input, idTime, time), other) == GetUserNotifications(items, other)
      && GetUserNotifications(MarkedAsRead(items, uid, id), other) == GetUserNotifications(items, other)
  {
    forall other | other != uid
      ensures NotificationsKey(other) != NotificationsKey(uid)
    {
      if NotificationsKey(other) == NotificationsKey(uid) {
        NotificationsKeyInjective(other, uid);
      }
    }
  }
}
