// The job details page (Social-Good-Juba-main/client/src/pages/JobDetails.js):
// who has applied, who owns the job, the status banner, and which of the
// apply form, the management card and the "Select Freelancer" buttons the
// page offers.

module JobDetails {
  import opened Common
  import opened JobTables

  /** The job as the details endpoint returns it, with its applications when the join is present. */
  datatype JobView = JobView(job: Job, applications: Option<seq<Application>>)

  /** `job.applications?.some(app => app.freelancer_id === currentUser?.id)`. */
  predicate HasApplied(v: JobView, current: Option<UserId>)
  {
    current.Some? && v.applications.Some? && exists a :: a in v.applications.value && a.freelancerId == current.value
  }

  /** `job.client_id === currentUser?.id`. */
  predicate IsJobOwner(v: JobView, current: Option<UserId>)
  {
    current.Some? && v.job.clientId == current.value
  }

  datatype StatusConfig = StatusConfig(text: string, className: string, icon: string)

  const ConfiguredStatuses: set<string> := {"posted", "in_progress", "completed", "cancelled", "pending"}

  /** `getStatusConfig`: the banner for a known status, else the raw status with the default style. */
  function StatusConfigOf(status: string): (c: StatusConfig)
    ensures status !in ConfiguredStatuses ==> c == StatusConfig(status, "status-default", "📝")
    ensures status in ConfiguredStatuses ==> c.className != "status-default" && c.text != status
    ensures status == "posted" ==> c.text == "Open for Applications"
  {
    match status
    case "posted" => StatusConfig("Open for Applications", "status-open", "📋")
    case "in_progress" => StatusConfig("In Progress", "status-progress", "⚡")
    case "completed" => StatusConfig("Completed", "status-completed", "✅")
    case "cancelled" => StatusConfig("Cancelled", "status-cancelled", "❌")
    case "pending" => StatusConfig("Pending Review", "status-pending", "⏳")
    case _ => StatusConfig(status, "status-default", "📝")
  }

  /** Every job status has its own banner style, and no two job statuses share one. */
  lemma JobStatusesConfigured(s: JobStatus, t: JobStatus)
    ensures StatusName(s) in ConfiguredStatuses
    ensures StatusConfigOf(StatusName(s)).className == StatusConfigOf(StatusName(t)).className <==> s == t
  {
  }

  /** The apply card: a signed-in user, a posted job, no application yet. */
  predicate ShowsApplyForm(v: JobView, current: Option<UserId>)
  {
    current.Some? && v.job.status == Posted && !HasApplied(v, current)
  }

  /** The job management card with "Mark as complete": the owner of an in-progress job. */
  predicate ShowsCompleteButton(v: JobView, current: Option<UserId>)
  {
    IsJobOwner(v, current) && v.job.status == InProgress
  }

  /** The applications section: the owner, when the job has applications. */
  predicate ShowsApplications(v: JobView, current: Option<UserId>)
  {
    IsJobOwner(v, current) && v.applications.Some? && |v.applications.value| > 0
  }

  /** "Select Freelancer" on one application: inside the owner's section, for a pending application. */
  predicate ShowsSelectButton(v: JobView, current: Option<UserId>, a: Application)
  {
    ShowsApplications(v, current) && a in v.applications.value && a.status == Pending
  }

  /** The apply form and the "Application Submitted" card never appear together, and never for a visitor. */
  lemma ApplyCardsExclusive(v: JobView, current: Option<UserId>)
    ensures ShowsApplyForm(v, current) ==> !HasApplied(v, current)
    ensures current.None? ==> !ShowsApplyForm(v, current) && !HasApplied(v, current) && !IsJobOwner(v, current)
    ensures !(ShowsApplyForm(v, current) && ShowsCompleteButton(v, current))
  {
  }

  /** Once the server has stored the user's application, the page shows the submitted card instead of the form. */
  lemma ApplyingHidesForm(v: JobView, user: UserId, a: Application)
    requires a.freelancerId == user
    ensures var apps := if v.applications.Some? then v.applications.value else [];
      var v' := v.(applications := Some(apps + [a]));
      HasApplied(v', Some(user)) && !ShowsApplyForm(v', Some(user))
  {
    var apps := if v.applications.Some? then v.applications.value else [];
    assert a in apps + [a];
  }

  /** The complete button is offered only where the complete route lets the user through: on a job they own. */
  lemma CompleteButtonMeansOwner(v: JobView, jobs: seq<Job>, user: UserId)
    requires FindJob(jobs, v.job.id) == Some(v.job)
    requires ShowsCompleteButton(v, Some(user))
    ensures Owns(jobs, v.job.id, user)
  {
  }

  /** After a freelancer is selected, no application of the job offers "Select Freelancer" any more. */
  lemma SelectionRemovesSelectButtons(v: JobView, user: UserId, freelancer: UserId, a: Application)
    requires v.applications.Some?
    requires forall b :: b in v.applications.value ==> b.jobId == v.job.id
    ensures !ShowsSelectButton(v.(applications := Some(ResolveSelection(v.applications.value, v.job.id, freelancer))), Some(user), a)
  {
    var after := ResolveSelection(v.applications.value, v.job.id, freelancer);
    if a in after {
      var i :| 0 <= i < |after| && after[i] == a;
      assert v.applications.value[i] in v.applications.value;
    }
  }
}
