// The client's notification state
// (Social-Good-Juba-main/client/src/context/NotificationContext.js): the
// list of notifications and the unread counter, and how each event
// updates them.

module NotificationContext {
  import opened Common
  import opened JobTables
  import opened NotificationService

  /** Notifications in the list that are unread. */
  function UnreadIn(list: seq<Notification>): (n: nat)
    ensures n <= |list|
  {
    if list == [] then 0
    else (if list[0].readStatus then 0 else 1) + UnreadIn(list[1..])
  }

  /** The counter agrees with the list. */
  predicate Synced(list: seq<Notification>, unreadCount: nat)
  {
    UnreadIn(list) == unreadCount
  }

  function Max0(x: int): (r: nat)
    ensures r >= x && (x >= 0 ==> r == x) && (x < 0 ==> r == 0)
  {
    if x < 0 then 0 else x
  }

  /** `prev.map(n => ids.includes(n.id) ? { ...n, read_status: true, read_at } : n)`. */
  function MarkListed(list: seq<Notification>, ids: seq<RowId>, now: int): (r: seq<Notification>)
    ensures |r| == |list|
    ensures forall i :: 0 <= i < |list| ==>
      r[i] == if list[i].id in ids then list[i].(readStatus := true, readAt := Some(now)) else list[i]
  {
    seq(|list|, i requires 0 <= i < |list| =>
      if list[i].id in ids then list[i].(readStatus := true, readAt := Some(now)) else list[i])
  }

  /** `prev.map(n => ({ ...n, read_status: true, read_at }))`. */
  function MarkEvery(list: seq<Notification>, now: int): (r: seq<Notification>)
    ensures |r| == |list|
    ensures forall i :: 0 <= i < |list| ==> r[i] == list[i].(readStatus := true, readAt := Some(now))
  {
    seq(|list|, i requires 0 <= i < |list| => list[i].(readStatus := true, readAt := Some(now)))
  }

  /** `prev.filter(n => n.id !== id)`. */
  function Without(list: seq<Notification>, id: RowId): (r: seq<Notification>)
    ensures forall n :: n in r <==> n in list && n.id != id
    ensures |r| <= |list|
  {
    if list == [] then []
    else if list[0].id == id then Without(list[1..], id)
    else [list[0]] + Without(list[1..], id)
  }

  /** `notifications.find(n => n.id === id)`. */
  function FindById(list: seq<Notification>, id: RowId): (r: Option<Notification>)
    ensures r.Some? ==> r.value in list && r.value.id == id
    ensures r.None? <==> forall i :: 0 <= i < |list| ==> list[i].id != id
  {
    if list == [] then None
    else if list[0].id == id then Some(list[0])
    else FindById(list[1..], id)
  }

  /** The listed notifications that were still unread. */
  function UnreadListed(list: seq<Notification>, ids: seq<RowId>): (n: nat)
    ensures n <= UnreadIn(list)
  {
    if list == [] then 0
    else (if list[0].id in ids && !list[0].readStatus then 1 else 0) + UnreadListed(list[1..], ids)
  }

  /** `Math.max(0, prev - notificationIds.length)`: the counter after marking `ids` as written. */
  function CountAfterMarkingAsWritten(prev: nat, ids: seq<RowId>): (r: nat)
    ensures r <= prev
    ensures r == Max0(prev - |ids|)
  {
    Max0(prev - |ids|)
  }

  /** The counter after marking `ids`, lowered by the notifications that actually turned read. */
  function CountAfterMarking(list: seq<Notification>, prev: nat, ids: seq<RowId>): (r: nat)
    ensures r <= prev
  {
    Max0(prev - UnreadListed(list, ids))
  }

  lemma {:induction false} MarkListedUnread(list: seq<Notification>, ids: seq<RowId>, now: int)
    ensures UnreadIn(MarkListed(list, ids, now)) == UnreadIn(list) - UnreadListed(list, ids)
  {
    if list != [] {
      assert MarkListed(list, ids, now)[1..] == MarkListed(list[1..], ids, now);
      MarkListedUnread(list[1..], ids, now);
    }
  }

  lemma {:induction false} MarkEveryUnread(list: seq<Notification>, now: int)
    ensures UnreadIn(MarkEvery(list, now)) == 0
  {
    if list != [] {
      assert MarkEvery(list, now)[1..] == MarkEvery(list[1..], now);
      MarkEveryUnread(list[1..], now);
    }
  }

  /** Marking listed ids with the corrected counter keeps the counter in step with the list. */
  lemma MarkingKeepsSynced(list: seq<Notification>, prev: nat, ids: seq<RowId>, now: int)
    requires Synced(list, prev)
    ensures Synced(MarkListed(list, ids, now), CountAfterMarking(list, prev, ids))
  {
    MarkListedUnread(list, ids, now);
  }

  /**
   * Subtracting the number of ids instead of the number of notifications
   * that turned read drifts: one unread and one read notification, counter
   * 1; marking the read one leaves the unread one in the list with the
   * counter at 0.
   */
  lemma MarkingAsWrittenDrifts()
    ensures var a := Notification(1, 5, JobPosted, "t", "m", map[], false, None, 0);
            var b := Notification(2, 5, JobPosted, "t", "m", map[], true, Some(0), 0);
            && Synced([a, b], 1)
            && CountAfterMarkingAsWritten(1, [2]) == 0
            && UnreadIn(MarkListed([a, b], [2], 1)) == 1
  {
    var a := Notification(1, 5, JobPosted, "t", "m", map[], false, None, 0);
    var b := Notification(2, 5, JobPosted, "t", "m", map[], true, Some(0), 0);
    var marked := MarkListed([a, b], [2], 1);
    assert marked[0] == a && marked[1] == b.(readAt := Some(1));
    assert UnreadIn(marked) == 1 by {
      assert marked[1..][1..] == [];
    }
    assert UnreadIn([a, b]) == 1 by {
      assert [a, b][1..] == [b];
    }
  }

  /** Deleting a notification by id takes its unread state with it. */
  lemma {:induction false} WithoutUnread(list: seq<Notification>, id: RowId)
    requires UniqueIds(list)
    ensures FindById(list, id).Some? && !FindById(list, id).value.readStatus ==> UnreadIn(Without(list, id)) == UnreadIn(list) - 1
    ensures !(FindById(list, id).Some? && !FindById(list, id).value.readStatus) ==> UnreadIn(Without(list, id)) == UnreadIn(list)
  {
    if list != [] {
      var rest := list[1..];
      assert UniqueIds(rest) by {
        forall i, j | 0 <= i < j < |rest| ensures rest[i].id != rest[j].id {
          assert rest[i] == list[i + 1] && rest[j] == list[j + 1];
        }
      }
      WithoutUnread(rest, id);
      if list[0].id == id {
        forall i | 0 <= i < |rest| ensures rest[i].id != id {
          assert rest[i] == list[i + 1];
        }
        WithoutAbsent(rest, id);
      }
    }
  }

  lemma {:induction false} WithoutAbsent(list: seq<Notification>, id: RowId)
    requires forall i :: 0 <= i < |list| ==> list[i].id != id
    ensures Without(list, id) == list
  {
    if list != [] {
      WithoutAbsent(list[1..], id);
    }
  }

  class NotificationState {
    var notifications: seq<Notification>
    var unreadCount: nat

    constructor ()
      ensures notifications == [] && unreadCount == 0 && Synced(notifications, unreadCount)
    {
      notifications, unreadCount := [], 0;
    }

    /** The socket's `notification` event: prepended, and the counter goes up by one. */
    method Receive(n: Notification)
      modifies this
      ensures notifications == [n] + old(notifications)
      ensures unreadCount == old(unreadCount) + 1
      ensures !n.readStatus && Synced(old(notifications), old(unreadCount)) ==> Synced(notifications, unreadCount)
    {
      assert ([n] + notifications)[1..] == notifications;
      notifications := [n] + notifications;
      unreadCount := unreadCount + 1;
    }

    /** `addNotification`: prepended; the counter goes up only for an unread one. */
    method Add(n: Notification)
      modifies this
      ensures notifications == [n] + old(notifications)
      ensures unreadCount == old(unreadCount) + (if n.readStatus then 0 else 1)
      ensures Synced(old(notifications), old(unreadCount)) ==> Synced(notifications, unreadCount)
    {
      assert ([n] + notifications)[1..] == notifications;
      notifications := [n] + notifications;
      if !n.readStatus {
        unreadCount := unreadCount + 1;
      }
    }

    /**
     * `markAsRead(ids)`: with ids, those notifications become read and the
     * counter drops by the number of ids (not below 0); without, every
     * notification becomes read and the counter is 0.
     */
    method MarkAsRead(ids: Option<seq<RowId>>, now: int)
      modifies this
      ensures ids.Some? ==>
        notifications == MarkListed(old(notifications), ids.value, now)
        && unreadCount == CountAfterMarkingAsWritten(old(unreadCount), ids.value)
      ensures ids.None? ==> notifications == MarkEvery(old(notifications), now) && unreadCount == 0
      ensures ids.None? ==> Synced(notifications, unreadCount)
    {
      if ids.Some? {
        notifications := MarkListed(notifications, ids.value, now);
        unreadCount := CountAfterMarkingAsWritten(unreadCount, ids.value);
      } else {
        MarkEveryUnread(notifications, now);
        notifications := MarkEvery(notifications, now);
        unreadCount := 0;
      }
    }

    /** `markAsRead(ids)` lowering the counter by the notifications that actually turned read. */
    method MarkListedAsRead(ids: seq<RowId>, now: int)
      modifies this
      ensures notifications == MarkListed(old(notifications), ids, now)
      ensures unreadCount == CountAfterMarking(old(notifications), old(unreadCount), ids)
      ensures Synced(old(notifications), old(unreadCount)) ==> Synced(notifications, unreadCount)
    {
      if Synced(notifications, unreadCount) {
        MarkingKeepsSynced(notifications, unreadCount, ids, now);
      }
      unreadCount := CountAfterMarking(notifications, unreadCount, ids);
      notifications := MarkListed(notifications, ids, now);
    }

    /** `markAllAsRead`: every notification read, counter 0. */
    method MarkAllAsRead(now: int)
      modifies this
      ensures notifications == MarkEvery(old(notifications), now) && unreadCount == 0
      ensures Synced(notifications, unreadCount)
    {
      MarkEveryUnread(notifications, now);
      notifications := MarkEvery(notifications, now);
      unreadCount := 0;
    }

    /** `deleteNotification(id)`: only that id leaves the list; the counter drops (not below 0) only if it was unread. */
    method Delete(id: RowId)
      modifies this
      ensures notifications == Without(old(notifications), id)
      ensures var found := FindById(old(notifications), id);
        unreadCount == if found.Some? && !found.value.readStatus then Max0(old(unreadCount) - 1) else old(unreadCount)
      ensures UniqueIds(old(notifications)) && Synced(old(notifications), old(unreadCount)) ==> Synced(notifications, unreadCount)
    {
      var found := FindById(notifications, id);
      if UniqueIds(notifications) {
        WithoutUnread(notifications, id);
      }
      notifications := Without(notifications, id);
      if found.Some? && !found.value.readStatus {
        unreadCount := Max0(unreadCount - 1);
      }
    }

    /** `clearAllNotifications`: empty list, counter 0. */
    method ClearAll()
      modifies this
      ensures notifications == [] && unreadCount == 0
      ensures Synced(notifications, unreadCount)
    {
      notifications, unreadCount := [], 0;
    }
  }
}
