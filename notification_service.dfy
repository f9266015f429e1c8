// The server's notification service
// (Social-Good-Juba-main/server/services/notificationService.js): the
// notifications table with its queries, and the notifications the job
// handlers fan out.

module NotificationService {
  import opened Common
  import opened JobTables

  /** The `type` column. */
  datatype NotificationKind = JobPosted | JobApplication | ApplicationApproved | ApplicationRejected | JobCompleted

  /** A notification before insertion: what the service builds. */
  datatype Draft = Draft(userId: UserId, kind: NotificationKind, title: string, message: string, data: map<string, JsValue>)

  datatype Notification = Notification(
    id: RowId,
    userId: UserId,
    kind: NotificationKind,
    title: string,
    message: string,
    data: map<string, JsValue>,
    readStatus: bool,
    readAt: Option<int>,
    createdAt: int)

  /** Inserted rows: fresh ids from `firstId` on, unread, created `now`. */
  function Stamped(drafts: seq<Draft>, firstId: nat, now: int): (r: seq<Notification>)
    ensures |r| == |drafts|
    ensures forall i :: 0 <= i < |r| ==>
      r[i] == Notification(firstId + i, drafts[i].userId, drafts[i].kind, drafts[i].title, drafts[i].message,
                           drafts[i].data, false, None, now)
  {
    seq(|drafts|, i requires 0 <= i < |drafts| =>
      Notification(firstId + i, drafts[i].userId, drafts[i].kind, drafts[i].title, drafts[i].message,
                   drafts[i].data, false, None, now))
  }

  predicate OldestFirst(rows: seq<Notification>)
  {
    forall i, j :: 0 <= i < j < |rows| ==> rows[i].createdAt <= rows[j].createdAt
  }

  predicate UniqueIds(rows: seq<Notification>)
  {
    forall i, j :: 0 <= i < j < |rows| ==> rows[i].id != rows[j].id
  }

  predicate NewestFirst(rows: seq<Notification>)
  {
    forall i, j :: 0 <= i < j < |rows| ==> rows[i].createdAt >= rows[j].createdAt
  }

  /** `.eq('user_id', user)`, in table order. */
  function RowsOf(rows: seq<Notification>, user: UserId): (r: seq<Notification>)
    ensures forall n :: n in r <==> n in rows && n.userId == user
    ensures |r| <= |rows|
    ensures OldestFirst(rows) ==> OldestFirst(r)
  {
    if rows == [] then []
    else
      var rest := RowsOf(rows[1..], user);
      if rows[0].userId == user then
        OldestFirstCons(rows, rest);
        [rows[0]] + rest
      else rest
  }

  lemma OldestFirstCons(rows: seq<Notification>, rest: seq<Notification>)
    requires rows != [] && forall n :: n in rest ==> n in rows[1..]
    requires OldestFirst(rows[1..]) ==> OldestFirst(rest)
    ensures OldestFirst(rows) ==> OldestFirst([rows[0]] + rest)
  {
    if OldestFirst(rows) {
      forall n | n in rest ensures rows[0].createdAt <= n.createdAt {
        var k :| 0 <= k < |rows[1..]| && rows[1..][k] == n;
        assert rows[k + 1] == n;
      }
      forall i, j | 0 <= i < j < |[rows[0]] + rest|
        ensures ([rows[0]] + rest)[i].createdAt <= ([rows[0]] + rest)[j].createdAt
      {
        assert ([rows[0]] + rest)[j] == rest[j - 1];
        assert rest[j - 1] in rest;
        if i > 0 {
          assert ([rows[0]] + rest)[i] == rest[i - 1];
        }
      }
    }
  }

  function Reverse<T>(s: seq<T>): (r: seq<T>)
    ensures |r| == |s|
    ensures forall i :: 0 <= i < |s| ==> r[i] == s[|s| - 1 - i]
  {
    if s == [] then [] else Reverse(s[1..]) + [s[0]]
  }

  /** A user's notifications, `.order('created_at', { ascending: false })`. */
  function Feed(rows: seq<Notification>, user: UserId): (r: seq<Notification>)
    ensures forall n :: n in r <==> n in rows && n.userId == user
    ensures OldestFirst(rows) ==> NewestFirst(r)
  {
    var mine := RowsOf(rows, user);
    var r := Reverse(mine);
    assert forall n :: n in r <==> n in mine by {
      forall n ensures n in r <==> n in mine {
        if n in r {
          var i :| 0 <= i < |r| && r[i] == n;
          assert mine[|mine| - 1 - i] == n;
        }
        if n in mine {
          var i :| 0 <= i < |mine| && mine[i] == n;
          assert r[|mine| - 1 - i] == n;
        }
      }
    }
    r
  }

  /** `.range(offset, offset + limit - 1)`: at most `limit` rows starting at `offset`. */
  function Window<T>(s: seq<T>, offset: nat, limit: nat): (r: seq<T>)
    ensures offset >= |s| ==> r == []
    ensures |r| == (if offset >= |s| then 0 else if |s| - offset < limit then |s| - offset else limit)
    ensures forall i :: 0 <= i < |r| ==> r[i] == s[offset + i]
    ensures r == s[Min(offset, |s|)..Min(offset + limit, |s|)]
  {
    if offset >= |s| then []
    else if |s| - offset < limit then s[offset..]
    else s[offset..offset + limit]
  }

  /** The rows `read_status = false` of a user: what `getUnreadCount` counts. */
  function UnreadOf(rows: seq<Notification>, user: UserId): (n: nat)
    ensures n <= |rows|
  {
    if rows == [] then 0
    else (if rows[0].userId == user && !rows[0].readStatus then 1 else 0) + UnreadOf(rows[1..], user)
  }

  /** Whether markAsRead's query selects a row: the user's unread rows, among `ids` when a non-empty list is given. */
  predicate Selected(n: Notification, user: UserId, ids: seq<RowId>)
  {
    n.userId == user && !n.readStatus && (ids == [] || n.id in ids)
  }

  function MarkSelected(rows: seq<Notification>, user: UserId, ids: seq<RowId>, now: int): (r: seq<Notification>)
    ensures |r| == |rows|
    ensures forall i :: 0 <= i < |rows| ==>
      r[i] == if Selected(rows[i], user, ids) then rows[i].(readStatus := true, readAt := Some(now)) else rows[i]
  {
    seq(|rows|, i requires 0 <= i < |rows| =>
      if Selected(rows[i], user, ids) then rows[i].(readStatus := true, readAt := Some(now)) else rows[i])
  }

  /** Marking every notification of a user read leaves nothing unread for that user. */
  lemma {:induction false} MarkAllClears(rows: seq<Notification>, user: UserId, now: int)
    ensures UnreadOf(MarkSelected(rows, user, [], now), user) == 0
  {
    if rows != [] {
      assert MarkSelected(rows, user, [], now)[1..] == MarkSelected(rows[1..], user, [], now);
      MarkAllClears(rows[1..], user, now);
    }
  }

  /** Marking read never changes another user's unread count. */
  lemma {:induction false} MarkKeepsOthers(rows: seq<Notification>, user: UserId, ids: seq<RowId>, now: int, other: UserId)
    requires other != user
    ensures UnreadOf(MarkSelected(rows, user, ids, now), other) == UnreadOf(rows, other)
  {
    if rows != [] {
      assert MarkSelected(rows, user, ids, now)[1..] == MarkSelected(rows[1..], user, ids, now);
      MarkKeepsOthers(rows[1..], user, ids, now, other);
    }
  }

  /** `delete().eq('id', id).eq('user_id', user)`. */
  function DeleteOwned(rows: seq<Notification>, user: UserId, id: RowId): (r: seq<Notification>)
    ensures forall n :: n in r <==> n in rows && !(n.id == id && n.userId == user)
    ensures |r| <= |rows|
  {
    if rows == [] then []
    else if rows[0].id == id && rows[0].userId == user then DeleteOwned(rows[1..], user, id)
    else [rows[0]] + DeleteOwned(rows[1..], user, id)
  }

  /** Deleting somebody else's notification id changes nothing. */
  lemma {:induction false} DeleteOthersNoop(rows: seq<Notification>, user: UserId, id: RowId)
    requires forall i :: 0 <= i < |rows| ==> !(rows[i].id == id && rows[i].userId == user)
    ensures DeleteOwned(rows, user, id) == rows
  {
    if rows != [] {
      DeleteOthersNoop(rows[1..], user, id);
    }
  }

  // ---------------------------------------------------------------------
  // The notifications the job handlers send

  /** `data || {}`. */
  function DataOrEmpty(data: Option<map<string, JsValue>>): (r: map<string, JsValue>)
    ensures data.None? ==> r == map[]
    ensures data.Some? ==> r == data.value
  {
    if data.Some? then data.value else map[]
  }

  function JobPostedDraft(job: Job, freelancer: UserId): Draft
  {
    Draft(freelancer, JobPosted, "New Job Available",
          "A new job \"" + job.title + "\" has been posted in " + job.location,
          map["job_id" := Num(job.id), "job_title" := Str(job.title), "job_location" := Str(job.location),
              "client_id" := Num(job.clientId)])
  }

  /** The user ids of the approved freelancer profiles, in table order. */
  function ApprovedFreelancers(profiles: seq<ProfileStatus>): (r: seq<UserId>)
    ensures forall u :: u in r <==> exists p :: p in profiles && p.approval == Approved && p.userId == u
    ensures |r| <= |profiles|
  {
    if profiles == [] then []
    else
      var rest := ApprovedFreelancers(profiles[1..]);
      if profiles[0].approval == Approved then [profiles[0].userId] + rest else rest
  }

  /** One `job_posted` notification per approved freelancer. */
  function JobPostedDrafts(job: Job, profiles: seq<ProfileStatus>): (r: seq<Draft>)
    ensures |r| == |ApprovedFreelancers(profiles)|
    ensures forall i :: 0 <= i < |r| ==> r[i] == JobPostedDraft(job, ApprovedFreelancers(profiles)[i])
    ensures forall d :: d in r ==> d.kind == JobPosted && exists p :: p in profiles && p.approval == Approved && p.userId == d.userId
  {
    var fs := ApprovedFreelancers(profiles);
    var r := seq(|fs|, i requires 0 <= i < |fs| => JobPostedDraft(job, fs[i]));
    assert forall d :: d in r ==> d.userId in fs;
    r
  }

  /** With no approved freelancer there is nothing to insert. */
  lemma {:induction false} NoApprovedNoDrafts(job: Job, profiles: seq<ProfileStatus>)
    requires forall i :: 0 <= i < |profiles| ==> profiles[i].approval != Approved
    ensures JobPostedDrafts(job, profiles) == []
  {
    if profiles != [] {
      NoApprovedNoDrafts(job, profiles[1..]);
    }
  }

  /** The notification for the client when a freelancer applies. */
  function ApplicationDraft(app: Application, job: Job, freelancerEmail: string): (d: Draft)
    ensures d.userId == job.clientId && d.kind == JobApplication
  {
    Draft(job.clientId, JobApplication, "New Job Application",
          freelancerEmail + " has applied for your job \"" + job.title + "\"",
          map["job_id" := Num(job.id), "job_title" := Str(job.title), "application_id" := Num(app.id),
              "freelancer_id" := Num(app.freelancerId), "freelancer_email" := Str(freelancerEmail),
              "proposed_rate" := Num(app.proposedRate)])
  }

  /** accepted and rejected each have their own notification for the freelancer; any other status has none. */
  function StatusDraft(app: Application, job: Job, clientEmail: string, status: string): (r: Option<Draft>)
    ensures r.Some? <==> status == "accepted" || status == "rejected"
    ensures r.Some? ==> r.value.userId == app.freelancerId
    ensures r.Some? ==> (r.value.kind == ApplicationApproved <==> status == "accepted")
    ensures r.Some? ==> (r.value.kind == ApplicationRejected <==> status == "rejected")
  {
    var data := map["job_id" := Num(job.id), "job_title" := Str(job.title), "application_id" := Num(app.id),
                     "client_id" := Num(job.clientId), "client_email" := Str(clientEmail),
                     "proposed_rate" := Num(app.proposedRate)];
    if status == "accepted" then
      Some(Draft(app.freelancerId, ApplicationApproved, "Application Approved!",
                 "Your application for \"" + job.title + "\" has been approved by " + clientEmail, data))
    else if status == "rejected" then
      Some(Draft(app.freelancerId, ApplicationRejected, "Application Not Selected",
                 "Your application for \"" + job.title + "\" was not selected this time", data))
    else None
  }

  /** The completion notice for the freelancer. */
  function FreelancerCompletionDraft(job: Job, freelancer: UserId): (d: Draft)
    ensures d.userId == freelancer && d.kind == JobCompleted
  {
    Draft(freelancer, JobCompleted, "Job Completed",
      "The job \"" + job.title + "\" has been marked as completed",
      map["job_id" := Num(job.id), "job_title" := Str(job.title), "client_id" := Num(job.clientId)])
  }

  /** The completion notice for the client; `freelancer_id` is null when no freelancer was named. */
  function ClientCompletionDraft(job: Job, freelancerId: Option<UserId>): (d: Draft)
    ensures d.userId == job.clientId && d.kind == JobCompleted
    ensures "freelancer_id" in d.data && d.data["freelancer_id"] == (if freelancerId.Some? then Num(freelancerId.value) else Null)
  {
    var freelancer := if freelancerId.Some? then Num(freelancerId.value) else Null;
    Draft(job.clientId, JobCompleted, "Job Completed",
      "You have marked the job \"" + job.title + "\" as completed",
      map["job_id" := Num(job.id), "job_title" := Str(job.title), "freelancer_id" := freelancer])
  }

  /** `notifyJobCompletion`: the freelancer first when an id is given, then always the client. */
  method CompletionDrafts(job: Job, freelancerId: Option<UserId>) returns (notifications: seq<Draft>)
    ensures notifications ==
      (if freelancerId.Some? then [FreelancerCompletionDraft(job, freelancerId.value)] else [])
      + [ClientCompletionDraft(job, freelancerId)]
    ensures |notifications| == if freelancerId.Some? then 2 else 1
    ensures notifications[|notifications| - 1].userId == job.clientId
    ensures freelancerId.Some? ==> notifications[0].userId == freelancerId.value
    ensures forall d :: d in notifications ==> d.kind == JobCompleted
  {
    notifications := [];
    if freelancerId.Some? {
      notifications := notifications + [FreelancerCompletionDraft(job, freelancerId.value)];
    }
    notifications := notifications + [ClientCompletionDraft(job, freelancerId)];
  }

  class NotificationStore {
    var rows: seq<Notification>
    var nextId: nat

    ghost predicate Valid()
      reads this
    {
      && UniqueIds(rows)
      && (forall i :: 0 <= i < |rows| ==> rows[i].id < nextId)
      && OldestFirst(rows)
    }

    /** Rows are inserted with the current time, which never goes backwards. */
    predicate NotBefore(now: int)
      reads this
    {
      forall i :: 0 <= i < |rows| ==> rows[i].createdAt <= now
    }

    constructor ()
      ensures Valid() && rows == []
    {
      rows, nextId := [], 0;
    }

    method Insert(drafts: seq<Draft>, now: int)
      requires Valid() && NotBefore(now)
      modifies this
      ensures Valid()
      ensures rows == old(rows) + Stamped(drafts, old(nextId), now)
      ensures nextId == old(nextId) + |drafts|
    {
      var added := Stamped(drafts, nextId, now);
      rows := rows + added;
      nextId := nextId + |drafts|;
    }

    /** `createNotification`: one row, with `{}` for missing data. */
    method Create(user: UserId, kind: NotificationKind, title: string, message: string,
                  data: Option<map<string, JsValue>>, now: int) returns (n: Notification)
      requires Valid() && NotBefore(now)
      modifies this
      ensures Valid()
      ensures n == Notification(old(nextId), user, kind, title, message, DataOrEmpty(data), false, None, now)
      ensures rows == old(rows) + [n]
    {
      Insert([Draft(user, kind, title, message, DataOrEmpty(data))], now);
      n := rows[|rows| - 1];
    }

    /** `getUserNotifications(user, limit, offset)`: newest first, `limit` rows from `offset`. */
    function UserNotifications(user: UserId, limit: nat, offset: nat): (r: seq<Notification>)
      reads this
      requires Valid()
      ensures NewestFirst(r)
      ensures |r| <= limit
      ensures forall n :: n in r ==> n in rows && n.userId == user
      ensures r == Window(Feed(rows, user), offset, limit)
    {
      var feed := Feed(rows, user);
      var r := Window(feed, offset, limit);
      assert forall n :: n in r ==> n in feed;
      r
    }

    /** `getUnreadCount(user)`. */
    function UnreadCount(user: UserId): (n: nat)
      reads this
      ensures n <= |rows|
    {
      UnreadOf(rows, user)
    }

    /**
     * `markAsRead(user, ids)`: the user's unread rows, restricted to `ids`
     * when a non-empty list is given, become read at `now`.
     */
    method MarkAsRead(user: UserId, ids: seq<RowId>, now: int)
      requires Valid()
      modifies this
      ensures Valid()
      ensures rows == MarkSelected(old(rows), user, ids, now)
      ensures ids == [] ==> UnreadCount(user) == 0
      ensures forall other :: other != user ==> UnreadCount(other) == old(UnreadCount(other))
    {
      forall other | other != user
        ensures UnreadOf(MarkSelected(rows, user, ids, now), other) == UnreadOf(rows, other)
      {
        MarkKeepsOthers(rows, user, ids, now, other);
      }
      MarkAllClears(rows, user, now);
      var marked := MarkSelected(rows, user, ids, now);
      assert forall i, j :: 0 <= i < j < |marked| ==> marked[i].createdAt <= marked[j].createdAt by {
        forall i, j | 0 <= i < j < |marked| ensures marked[i].createdAt <= marked[j].createdAt {
          assert marked[i].createdAt == rows[i].createdAt && marked[j].createdAt == rows[j].createdAt;
        }
      }
      rows := marked;
    }

    /** `deleteNotification(user, id)`: removed only when both the id and the owner match. */
    method Delete(user: UserId, id: RowId)
      requires Valid()
      modifies this
      ensures Valid()
      ensures rows == DeleteOwned(old(rows), user, id)
      ensures nextId == old(nextId)
    {
      DeleteKeepsValid(rows, user, id, nextId);
      rows := DeleteOwned(rows, user, id);
    }

    /** `notifyNewJob(job)`: one notification per approved freelancer, nothing when there are none. */
    method NotifyNewJob(job: Job, profiles: seq<ProfileStatus>, now: int)
      requires Valid() && NotBefore(now)
      modifies this
      ensures Valid()
      ensures rows == old(rows) + Stamped(JobPostedDrafts(job, profiles), old(nextId), now)
      ensures |rows| == |old(rows)| + |ApprovedFreelancers(profiles)|
    {
      var notifications := JobPostedDrafts(job, profiles);
      if |notifications| > 0 {
        Insert(notifications, now);
      }
    }

    /** `notifyJobApplication`: one notification for the job's client. */
    method NotifyJobApplication(app: Application, job: Job, freelancerEmail: string, now: int)
      requires Valid() && NotBefore(now)
      modifies this
      ensures Valid()
      ensures rows == old(rows) + Stamped([ApplicationDraft(app, job, freelancerEmail)], old(nextId), now)
    {
      Insert([ApplicationDraft(app, job, freelancerEmail)], now);
    }

    /** `notifyApplicationStatus`: a notification for accepted or rejected, nothing otherwise. */
    method NotifyApplicationStatus(app: Application, job: Job, clientEmail: string, status: string, now: int)
      requires Valid() && NotBefore(now)
      modifies this
      ensures Valid()
      ensures status != "accepted" && status != "rejected" ==> rows == old(rows)
      ensures status == "accepted" || status == "rejected" ==>
        rows == old(rows) + Stamped([StatusDraft(app, job, clientEmail, status).value], old(nextId), now)
    {
      var d := StatusDraft(app, job, clientEmail, status);
      if d.None? {
        return;
      }
      Insert([d.value], now);
    }

    /** `notifyJobCompletion`: one or two notifications. */
    method NotifyJobCompletion(job: Job, freelancerId: Option<UserId>, now: int)
      requires Valid() && NotBefore(now)
      modifies this
      ensures Valid()
      ensures |rows| == |old(rows)| + (if freelancerId.Some? then 2 else 1)
      ensures rows[..|old(rows)|] == old(rows)
      ensures rows[|rows| - 1].userId == job.clientId
      ensures rows == old(rows) + Stamped((if freelancerId.Some? then [FreelancerCompletionDraft(job, freelancerId.value)] else [])
                                          + [ClientCompletionDraft(job, freelancerId)], old(nextId), now)
    {
      var notifications := CompletionDrafts(job, freelancerId);
      Insert(notifications, now);
    }
  }

  lemma DeleteKeepsValid(rows: seq<Notification>, user: UserId, id: RowId, nextId: nat)
    requires UniqueIds(rows)
    requires forall i :: 0 <= i < |rows| ==> rows[i].id < nextId
    requires OldestFirst(rows)
    ensures var r := DeleteOwned(rows, user, id);
      && UniqueIds(r)
      && (forall i :: 0 <= i < |r| ==> r[i].id < nextId)
      && OldestFirst(r)
  {
    var r := DeleteOwned(rows, user, id);
    DeleteKeepsUnique(rows, user, id);
    DeleteKeepsOrder(rows, user, id);
    forall i | 0 <= i < |r| ensures r[i].id < nextId {
      assert r[i] in rows;
    }
  }

  lemma {:induction false} DeleteKeepsUnique(rows: seq<Notification>, user: UserId, id: RowId)
    requires UniqueIds(rows)
    ensures UniqueIds(DeleteOwned(rows, user, id))
  {
    if rows != [] {
      var rest := rows[1..];
      assert UniqueIds(rest) by {
        forall i, j | 0 <= i < j < |rest| ensures rest[i].id != rest[j].id {
          assert rest[i] == rows[i + 1] && rest[j] == rows[j + 1];
        }
      }
      DeleteKeepsUnique(rest, user, id);
      var r' := DeleteOwned(rest, user, id);
      if !(rows[0].id == id && rows[0].userId == user) {
        forall j | 0 <= j < |r'| ensures rows[0].id != r'[j].id {
          assert r'[j] in rest;
          var k :| 0 <= k < |rest| && rest[k] == r'[j];
          assert rows[k + 1] == r'[j];
        }
        var r := [rows[0]] + r';
        forall i, j | 0 <= i < j < |r| ensures r[i].id != r[j].id {
          assert r[j] == r'[j - 1];
          if i > 0 {
            assert r[i] == r'[i - 1];
          }
        }
      }
    }
  }

  lemma {:induction false} DeleteKeepsOrder(rows: seq<Notification>, user: UserId, id: RowId)
    requires OldestFirst(rows)
    ensures OldestFirst(DeleteOwned(rows, user, id))
  {
    if rows != [] {
      var rest := rows[1..];
      DeleteKeepsOrder(rest, user, id);
      var r' := DeleteOwned(rest, user, id);
      if !(rows[0].id == id && rows[0].userId == user) {
        OldestFirstCons(rows, r');
      }
    }
  }
}
