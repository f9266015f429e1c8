// The notification dropdown (Social-Good-Juba-main/client/src/components/NotificationDropdown.js):
// the first ten notifications, the "view all" footer and the
// "mark all read" button. Its relative times are NotificationsPage.TimeAgo.

module NotificationDropdown {
  import opened NotificationService
  import NotificationContext

  const Shown: nat := 10

  /** `notifications.slice(0, 10)`. */
  function Visible(list: seq<Notification>): (r: seq<Notification>)
    ensures |r| <= Shown
    ensures |r| == if |list| < Shown then |list| else Shown
    ensures r == list[..|r|]
  {
    if |list| <= Shown then list else list[..Shown]
  }

  /** The footer appears for more than ten notifications: exactly when some are not shown. */
  function ShowsFooter(list: seq<Notification>): (b: bool)
    ensures b <==> |Visible(list)| < |list|
  {
    |list| > Shown
  }

  /** "Mark all read" appears while the counter is above zero. */
  predicate ShowsMarkAll(unreadCount: int)
  {
    unreadCount > 0
  }

  /** With the counter in step with the list, the button appears exactly when some notification is unread. */
  lemma {:induction false} MarkAllShownExactlyWhenUnread(list: seq<Notification>, unreadCount: nat)
    requires NotificationContext.Synced(list, unreadCount)
    ensures ShowsMarkAll(unreadCount) <==> exists i :: 0 <= i < |list| && !list[i].readStatus
  {
    if list != [] {
      var rest := list[1..];
      MarkAllShownExactlyWhenUnread(rest, NotificationContext.UnreadIn(rest));
      if exists i :: 0 <= i < |rest| && !rest[i].readStatus {
        var i :| 0 <= i < |rest| && !rest[i].readStatus;
        assert list[i + 1] == rest[i];
      }
      if exists i :: 0 <= i < |list| && !list[i].readStatus {
        var i :| 0 <= i < |list| && !list[i].readStatus;
        if i > 0 {
          assert rest[i - 1] == list[i];
        }
      }
    }
  }

  datatype Body = LoadingText | EmptyState | Items(items: seq<Notification>)

  /** The list area: loading text, the empty state, or the first ten. */
  function BodyOf(loading: bool, list: seq<Notification>): (b: Body)
    ensures loading <==> b == LoadingText
    ensures !loading && list == [] <==> b == EmptyState
    ensures b.Items? ==> b.items == Visible(list) && 1 <= |b.items| <= Shown
  {
    if loading then LoadingText
    else if list == [] then EmptyState
    else Items(Visible(list))
  }
}
