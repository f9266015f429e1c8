// The notifications page (Social-Good-Juba-main/client/src/pages/Notifications.js):
// relative times, the all/unread filter, the counts shown in the header,
// and paging.

module NotificationsPage {
  import opened Common
  import opened NotificationService
  import opened NotificationContext

  /** "<n> <unit>[s] ago": the plural `s` exactly when `n > 1`. */
  function Ago(n: nat, unit: string): (r: string)
    ensures |NatToString(n)| < |r| && r[..|NatToString(n)|] == NatToString(n)
    ensures n > 1 ==> EndsWith(r, " " + unit + "s ago")
    ensures n <= 1 ==> EndsWith(r, " " + unit + " ago")
    ensures r != "Just now"
  {
    var r := NatToString(n) + " " + unit + (if n > 1 then "s" else "") + " ago";
    assert r[..|NatToString(n)|] == NatToString(n);
    assert r[0] == NatToString(n)[0] && NatToString(n)[0] in NatToString(n);
    r
  }

  /**
   * `formatTimeAgo` on the elapsed whole seconds: "Just now" under a
   * minute, then whole minutes under an hour, whole hours under a day,
   * and whole days beyond.
   */
  function TimeAgo(seconds: int): (r: string)
    ensures seconds < 60 <==> r == "Just now"
    ensures 60 <= seconds < 3600 ==>
      var m := seconds / 60; 1 <= m < 60 && m * 60 <= seconds < (m + 1) * 60 && r == Ago(m, "minute")
    ensures 3600 <= seconds < 86400 ==>
      var h := seconds / 3600; 1 <= h < 24 && h * 3600 <= seconds < (h + 1) * 3600 && r == Ago(h, "hour")
    ensures 86400 <= seconds ==>
      var d := seconds / 86400; 1 <= d && d * 86400 <= seconds < (d + 1) * 86400 && r == Ago(d, "day")
  {
    if seconds < 60 then "Just now"
    else if seconds < 3600 then Ago(seconds / 60, "minute")
    else if seconds < 86400 then Ago(seconds / 3600, "hour")
    else Ago(seconds / 86400, "day")
  }

  /** Exactly one minute, hour or day is written in the singular. */
  lemma SingularAtOne()
    ensures TimeAgo(60) == "1 minute ago"
    ensures TimeAgo(3600) == "1 hour ago" && TimeAgo(86400) == "1 day ago"
  {
    SingularWords("minute");
    SingularWords("hour");
    SingularWords("day");
  }

  /** Minutes are whole: 119 seconds are still one minute, 120 are two minutes, in the plural. */
  lemma PluralFromTwo()
    ensures TimeAgo(119) == "1 minute ago" && TimeAgo(120) == "2 minutes ago"
  {
    SingularWords("minute");
    assert NatToString(2) == "2";
  }

  lemma SingularWords(unit: string)
    ensures Ago(1, unit) == "1 " + unit + " ago"
  {
    assert NatToString(1) == "1";
  }

  /** The filter tabs: `unread` keeps the unread notifications, anything else keeps all. */
  function Filtered(list: seq<Notification>, filter: string): (r: seq<Notification>)
    ensures filter != "unread" ==> r == list
    ensures filter == "unread" ==> forall n :: n in r <==> n in list && !n.readStatus
  {
    if filter == "unread" then Filter(list, (n: Notification) => !n.readStatus) else list
  }

  datatype Stats = Stats(total: nat, unread: nat, read: nat)

  /** `getNotificationStats`. */
  function StatsOf(list: seq<Notification>): (s: Stats)
    ensures s.total == |list|
    ensures s.unread + s.read == s.total
    ensures s.unread == |Filtered(list, "unread")|
  {
    var unread := |Filter(list, (n: Notification) => !n.readStatus)|;
    Stats(|list|, unread, |list| - unread)
  }

  /** The header's unread figure agrees with the context's counter whenever that counter is in step. */
  lemma StatsMatchCounter(list: seq<Notification>, unreadCount: nat)
    requires Synced(list, unreadCount)
    ensures StatsOf(list).unread == unreadCount
  {
    UnreadCountsAgree(list);
  }

  lemma {:induction false} UnreadCountsAgree(list: seq<Notification>)
    ensures CountIf(list, (n: Notification) => !n.readStatus) == UnreadIn(list)
  {
    if list != [] {
      UnreadCountsAgree(list[1..]);
    }
  }

  /** The page's own state: the filter tab and the page number. */
  class PageState {
    var filter: string
    var page: nat

    constructor ()
      ensures filter == "all" && page == 1
    {
      filter, page := "all", 1;
    }

    /** `handleLoadMore`: the next page. */
    method LoadMore()
      modifies this
      ensures page == old(page) + 1 && filter == old(filter)
    {
      page := page + 1;
    }
  }
}
