// User reports and the administrator's moderation actions
// (Social-Good-Juba-main/server/routes/reports.js): filing a report,
// setting its status, and deleting a job together with its applications
// and reviews.

module Reports {
  import opened Common
  import opened JobTables
  import opened Ratings

  datatype ReportStatus = ReportPending | Resolved | Dismissed

  datatype Report = Report(
    id: RowId,
    reporterId: UserId,
    reportedUserId: UserId,
    reportType: string,
    description: string,
    jobId: Option<RowId>,
    chatId: Option<RowId>,
    status: ReportStatus,
    createdAt: int,
    adminNotes: Option<string>,
    resolvedAt: Option<int>,
    resolvedBy: Option<UserId>)

  datatype ReportError =
    | MissingRequiredFields   // 400
    | InvalidStatus           // 400
    | UpdateFailed            // 400: `.single()` found no report with that id

  /** `['pending', 'resolved', 'dismissed'].includes(status)`. */
  function ParseStatus(s: string): (r: Option<ReportStatus>)
    ensures r.Some? <==> s in {"pending", "resolved", "dismissed"}
    ensures r == Some(Resolved) <==> s == "resolved"
    ensures r == Some(ReportPending) <==> s == "pending"
  {
    if s == "pending" then Some(ReportPending)
    else if s == "resolved" then Some(Resolved)
    else if s == "dismissed" then Some(Dismissed)
    else None
  }

  /** The columns written by a status update. */
  function Moderated(rep: Report, status: ReportStatus, notes: Option<string>, admin: UserId, now: int): (r: Report)
    ensures r.status == status && r.resolvedBy == Some(admin)
    ensures r.resolvedAt.Some? <==> status == Resolved
    ensures r.resolvedAt.Some? ==> r.resolvedAt == Some(now)
    ensures r.adminNotes.Some? <==> Present(notes)
    ensures r.(status := rep.status, adminNotes := rep.adminNotes, resolvedAt := rep.resolvedAt, resolvedBy := rep.resolvedBy) == rep
  {
    rep.(status := status,
         adminNotes := NullIfEmpty(notes),
         resolvedAt := if status == Resolved then Some(now) else None,
         resolvedBy := Some(admin))
  }

  /** Position of the report with this id, or `|reports|`. */
  function ReportIndex(reports: seq<Report>, id: RowId): (k: nat)
    ensures k <= |reports|
    ensures k < |reports| ==> reports[k].id == id
    ensures k == |reports| <==> forall i :: 0 <= i < |reports| ==> reports[i].id != id
  {
    if reports == [] then 0
    else if reports[0].id == id then 0
    else 1 + ReportIndex(reports[1..], id)
  }

  /** Every application and review belongs to a job that exists. */
  predicate NoDanglingRows(jobs: seq<Job>, apps: seq<Application>, reviews: seq<Review>)
  {
    && (forall a :: a in apps ==> exists j :: j in jobs && j.id == a.jobId)
    && (forall v :: v in reviews ==> exists j :: j in jobs && j.id == v.jobId)
  }

  /**
   * Deleting the applications and reviews of a job before the job keeps
   * every remaining application and review attached to an existing job.
   */
  lemma CascadeKeepsReferences(jobs: seq<Job>, apps: seq<Application>, reviews: seq<Review>, id: RowId)
    requires NoDanglingRows(jobs, apps, reviews)
    ensures NoDanglingRows(DeleteJob(jobs, id),
                           Filter(apps, (a: Application) => a.jobId != id),
                           Filter(reviews, (v: Review) => v.jobId != id))
  {
    var jobs' := DeleteJob(jobs, id);
    forall a | a in Filter(apps, (a: Application) => a.jobId != id)
      ensures exists j :: j in jobs' && j.id == a.jobId
    {
      var j :| j in jobs && j.id == a.jobId;
      assert j in jobs';
    }
    forall v | v in Filter(reviews, (v: Review) => v.jobId != id)
      ensures exists j :: j in jobs' && j.id == v.jobId
    {
      var j :| j in jobs && j.id == v.jobId;
      assert j in jobs';
    }
  }

  class ReportDesk {
    var reports: seq<Report>
    var jobs: seq<Job>
    var applications: seq<Application>
    var reviews: seq<Review>
    var nextId: nat

    ghost predicate Valid()
      reads this
    {
      && (forall i, j :: 0 <= i < j < |reports| ==> reports[i].id != reports[j].id)
      && (forall i :: 0 <= i < |reports| ==> reports[i].id < nextId)
    }

    constructor (jobs: seq<Job>, applications: seq<Application>, reviews: seq<Review>)
      ensures Valid() && reports == []
      ensures this.jobs == jobs && this.applications == applications && this.reviews == reviews
    {
      this.reports, this.nextId := [], 0;
      this.jobs, this.applications, this.reviews := jobs, applications, reviews;
    }

    /**
     * POST /reports: the reported user, the type and the description are
     * required; a new report is pending, and an absent job or chat id is
     * stored as null.
     */
    method File(reporter: UserId, reportedUser: Option<UserId>, reportType: Option<string>, description: Option<string>,
                jobId: Option<RowId>, chatId: Option<RowId>, now: int) returns (r: Result<Report, ReportError>)
      requires Valid()
      modifies this
      ensures Valid()
      ensures reportedUser.None? || !Present(reportType) || !Present(description) ==>
        r == Err(MissingRequiredFields) && unchanged(this)
      ensures reportedUser.Some? && Present(reportType) && Present(description) ==>
        && r == Ok(Report(old(nextId), reporter, reportedUser.value, reportType.value, description.value,
                          jobId, chatId, ReportPending, now, None, None, None))
        && reports == old(reports) + [r.value]
        && jobs == old(jobs) && applications == old(applications) && reviews == old(reviews)
    {
      if reportedUser.None? || !Present(reportType) || !Present(description) {
        return Err(MissingRequiredFields);
      }
      var rep := Report(nextId, reporter, reportedUser.value, reportType.value, description.value,
                        jobId, chatId, ReportPending, now, None, None, None);
      reports := reports + [rep];
      nextId := nextId + 1;
      r := Ok(rep);
    }

    /**
     * PUT /reports/admin/:id/status: only pending, resolved and dismissed
     * are accepted; the report records the status, the notes (empty as
     * null), the resolution time only when resolved, and the admin.
     */
    method SetStatus(admin: UserId, id: RowId, status: string, notes: Option<string>, now: int)
      returns (r: Result<Report, ReportError>)
      requires Valid()
      modifies this
      ensures Valid()
      ensures ParseStatus(status).None? ==> r == Err(InvalidStatus) && unchanged(this)
      ensures ParseStatus(status).Some? && ReportIndex(old(reports), id) == |old(reports)| ==>
        r == Err(UpdateFailed) && unchanged(this)
      ensures ParseStatus(status).Some? && ReportIndex(old(reports), id) < |old(reports)| ==>
        var k := ReportIndex(old(reports), id);
        && r == Ok(Moderated(old(reports)[k], ParseStatus(status).value, notes, admin, now))
        && reports == old(reports)[k := r.value]
        && jobs == old(jobs) && applications == old(applications) && reviews == old(reviews)
    {
      var parsed := ParseStatus(status);
      if parsed.None? {
        return Err(InvalidStatus);
      }
      var k := ReportIndex(reports, id);
      if k == |reports| {
        return Err(UpdateFailed);
      }
      var rep := Moderated(reports[k], parsed.value, notes, admin, now);
      reports := reports[k := rep];
      r := Ok(rep);
    }

    /**
     * DELETE /reports/admin/jobs/:id: the job's applications, then its
     * reviews, then the job itself are deleted.
     */
    method DeleteJobCascade(id: RowId)
      requires Valid()
      modifies this
      ensures Valid()
      ensures applications == Filter(old(applications), (a: Application) => a.jobId != id)
      ensures reviews == Filter(old(reviews), (v: Review) => v.jobId != id)
      ensures jobs == DeleteJob(old(jobs), id)
      ensures reports == old(reports)
      ensures NoDanglingRows(old(jobs), old(applications), old(reviews)) ==> NoDanglingRows(jobs, applications, reviews)
    {
      if NoDanglingRows(jobs, applications, reviews) {
        CascadeKeepsReferences(jobs, applications, reviews, id);
      }
      applications := Filter(applications, (a: Application) => a.jobId != id);
      reviews := Filter(reviews, (v: Review) => v.jobId != id);
      jobs := DeleteJob(jobs, id);
    }
  }
}
