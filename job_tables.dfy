// Rows of the three tables that the job-lifecycle handlers read and write
// (`jobs`, `job_applications`, `transactions`), the lookups the handlers make
// on them, and the bulk updates that both generations of the handlers share.
// A table is a sequence of rows in insertion order; each row carries its id.

module JobTables {
  import opened Common

  /** A `users.id` (a UUID in the store), abstracted to a number. */
  type UserId = nat

  /** A row id generated by the store. */
  type RowId = nat

  /** The check constraint on `users.role`. */
  datatype Role = ClientRole | FreelancerRole | AdminRole

  /** The check constraint on `freelancer_profiles.approval_status`. */
  datatype ApprovalStatus = ApprovalPending | Approved | ApprovalRejected

  /** The two columns of a `freelancer_profiles` row that the job handlers read. */
  datatype ProfileStatus = ProfileStatus(userId: UserId, approval: ApprovalStatus)

  /** One day in milliseconds: the archive delay that completing a job sets. */
  const DayMs: int := 24 * 60 * 60 * 1000

  /** The check constraint on `jobs.status`. */
  datatype JobStatus = Posted | InProgress | Completed | Cancelled

  /** The status as stored and sent to the client. */
  function StatusName(s: JobStatus): (r: string)
    ensures r in {"posted", "in_progress", "completed", "cancelled"}
    ensures r == "posted" <==> s == Posted
    ensures r == "in_progress" <==> s == InProgress
    ensures r == "completed" <==> s == Completed
  {
    match s
    case Posted => "posted"
    case InProgress => "in_progress"
    case Completed => "completed"
    case Cancelled => "cancelled"
  }

  /** A job is active while it is posted or in progress. */
  predicate Active(s: JobStatus)
  {
    s == Posted || s == InProgress
  }

  datatype Job = Job(
    id: RowId,
    clientId: UserId,
    title: string,
    description: string,
    location: string,
    timeline: Option<string>,
    budget: Option<int>,
    status: JobStatus,
    createdAt: int,
    completionDate: Option<int>,
    archiveDate: Option<int>)

  /** The check constraint on `job_applications.status`. */
  datatype ApplicationStatus = Pending | Accepted | Rejected

  datatype Application = Application(
    id: RowId,
    jobId: RowId,
    freelancerId: UserId,
    proposedRate: int,
    status: ApplicationStatus)

  /** The check constraint on `transactions.payment_status`. */
  datatype PaymentStatus = PaymentPending | PaymentCompleted | Refunded | Disputed

  datatype Transaction = Transaction(
    id: RowId,
    jobId: RowId,
    clientId: UserId,
    freelancerId: UserId,
    amount: int,
    paymentStatus: PaymentStatus,
    paymentDate: Option<int>,
    paymentReference: Option<string>)

  /** The payment collaborator's answer: a reference on success, a message on failure. */
  datatype PaymentOutcome = Paid(reference: string) | Declined(message: string)

  /** The early returns of the job handlers, one per distinct response. */
  datatype JobError =
    | MissingFields | TitleLength | DescriptionLength | LocationLength
    | JobNotFound | NotOwner | JobNotOpen | JobNotInProgress | CompletedJobKept
    | ApplicationNotFound | NoAcceptedApplication | PaymentFailed(message: string)
    | NotFreelancer | NoApprovedProfile | AlreadyApplied | ActiveJobExists

  /** The HTTP status each early return answers with. */
  function HttpStatus(e: JobError): (code: int)
    ensures code == 404 <==> e.JobNotFound? || e.ApplicationNotFound?
    ensures code == 403 <==> e.NotOwner? || e.NotFreelancer? || e.NoApprovedProfile?
    ensures code == 400 || code == 403 || code == 404
  {
    match e
    case JobNotFound | ApplicationNotFound => 404
    case NotOwner | NotFreelancer | NoApprovedProfile => 403
    case _ => 400
  }

  // ---------------------------------------------------------------------
  // Keys

  predicate UniqueJobIds(jobs: seq<Job>)
  {
    forall i, j :: 0 <= i < j < |jobs| ==> jobs[i].id != jobs[j].id
  }

  predicate UniqueApplicationIds(apps: seq<Application>)
  {
    forall i, j :: 0 <= i < j < |apps| ==> apps[i].id != apps[j].id
  }

  predicate UniqueTransactionIds(txs: seq<Transaction>)
  {
    forall i, j :: 0 <= i < j < |txs| ==> txs[i].id != txs[j].id
  }

  /** Rewriting one job with the same id keeps the job ids unique and below `bound`. */
  lemma ReplaceKeepsJobIds(jobs: seq<Job>, k: nat, j: Job, bound: nat)
    requires k < |jobs| && j.id == jobs[k].id
    requires UniqueJobIds(jobs) && forall x :: x in jobs ==> x.id < bound
    ensures UniqueJobIds(jobs[k := j]) && forall x :: x in jobs[k := j] ==> x.id < bound
  {
    forall x | x in jobs[k := j] ensures x.id < bound {
      var i :| 0 <= i < |jobs| && jobs[k := j][i] == x;
      assert jobs[i] in jobs;
    }
  }

  /** Rewriting only the statuses of applications keeps their ids unique and below `bound`. */
  lemma StatusOnlyKeepsIds(apps: seq<Application>, r: seq<Application>, bound: nat)
    requires |r| == |apps|
    requires forall i :: 0 <= i < |apps| ==> r[i] == apps[i].(status := r[i].status)
    requires UniqueApplicationIds(apps) && forall a :: a in apps ==> a.id < bound
    ensures UniqueApplicationIds(r) && forall a :: a in r ==> a.id < bound
  {
    forall a | a in r ensures a.id < bound {
      var i :| 0 <= i < |r| && r[i] == a;
      assert apps[i] in apps;
    }
  }

  /** Appending a transaction numbered `bound` keeps the ids unique and below `bound + 1`. */
  lemma AppendKeepsTransactionIds(txs: seq<Transaction>, tx: Transaction, bound: nat)
    requires UniqueTransactionIds(txs) && forall t :: t in txs ==> t.id < bound
    requires tx.id == bound
    ensures UniqueTransactionIds(txs + [tx]) && forall t :: t in txs + [tx] ==> t.id < bound + 1
  {
    var s := txs + [tx];
    forall i, j | 0 <= i < j < |s| ensures s[i].id != s[j].id {
      assert s[i] == txs[i] && txs[i] in txs;
      if j < |txs| {
        assert s[j] == txs[j];
      }
    }
  }

  // ---------------------------------------------------------------------
  // Lookups

  /** Position of the row with this id, or `|jobs|` when there is none. */
  function JobIndex(jobs: seq<Job>, id: RowId): (k: nat)
    ensures k <= |jobs|
    ensures k < |jobs| ==> jobs[k].id == id
    ensures forall i :: 0 <= i < k ==> jobs[i].id != id
  {
    if jobs == [] || jobs[0].id == id then 0 else 1 + JobIndex(jobs[1..], id)
  }

  /** The `.eq('id', id).single()` lookup on jobs. */
  function FindJob(jobs: seq<Job>, id: RowId): (r: Option<Job>)
    ensures r.Some? <==> exists i :: 0 <= i < |jobs| && jobs[i].id == id
    ensures r.Some? ==> r.value in jobs && r.value.id == id
  {
    var k := JobIndex(jobs, id);
    if k < |jobs| then Some(jobs[k]) else None
  }

  /** The `.eq('id', id).eq('client_id', caller).single()` lookup succeeds. */
  predicate Owns(jobs: seq<Job>, id: RowId, caller: UserId)
  {
    FindJob(jobs, id).Some? && FindJob(jobs, id).value.clientId == caller
  }

  /** Position of the application with this id, or `|apps|` when there is none. */
  function ApplicationIndex(apps: seq<Application>, id: RowId): (k: nat)
    ensures k <= |apps|
    ensures k < |apps| ==> apps[k].id == id
    ensures forall i :: 0 <= i < k ==> apps[i].id != id
  {
    if apps == [] || apps[0].id == id then 0 else 1 + ApplicationIndex(apps[1..], id)
  }

  /**
   * The lookup `.eq('id', appId).eq('job_id', jobId).eq('status', 'pending').single()`
   * that approve and reject make.
   */
  function FindPendingApplication(apps: seq<Application>, jobId: RowId, appId: RowId): (r: Option<Application>)
    ensures r.Some? ==> r.value in apps && r.value.id == appId && r.value.jobId == jobId && r.value.status == Pending
    ensures UniqueApplicationIds(apps) && r.None? ==>
      forall a :: a in apps && a.id == appId ==> a.jobId != jobId || a.status != Pending
  {
    var k := ApplicationIndex(apps, appId);
    if k < |apps| && apps[k].jobId == jobId && apps[k].status == Pending then Some(apps[k]) else None
  }

  /** The applications of `jobId` sent by `freelancer`. */
  function ApplicationsBy(apps: seq<Application>, jobId: RowId, freelancer: UserId): (r: seq<Application>)
    ensures forall a :: a in r <==> a in apps && a.jobId == jobId && a.freelancerId == freelancer
    ensures |r| <= |apps|
  {
    if apps == [] then []
    else
      var rest := ApplicationsBy(apps[1..], jobId, freelancer);
      if apps[0].jobId == jobId && apps[0].freelancerId == freelancer then [apps[0]] + rest else rest
  }

  /** The accepted applications of `jobId`, in table order. */
  function AcceptedOf(apps: seq<Application>, jobId: RowId): (r: seq<Application>)
    ensures forall a :: a in r <==> a in apps && a.jobId == jobId && a.status == Accepted
    ensures |r| <= |apps|
  {
    if apps == [] then []
    else
      var rest := AcceptedOf(apps[1..], jobId);
      if apps[0].jobId == jobId && apps[0].status == Accepted then [apps[0]] + rest else rest
  }

  // ---------------------------------------------------------------------
  // Row updates shared by both generations

  /** Completing a job: status `completed`, completion at `now`, archive one day later. */
  function CompletedAt(j: Job, now: int): (r: Job)
    ensures r.status == Completed && r.completionDate == Some(now)
    ensures r.archiveDate == Some(now + 86400000)
    ensures r == j.(status := r.status, completionDate := r.completionDate, archiveDate := r.archiveDate)
  {
    j.(status := Completed, completionDate := Some(now), archiveDate := Some(now + DayMs))
  }

  /**
   * Select-freelancer's two bulk updates: the applications of `jobId` by
   * `freelancer` become accepted and every other application of `jobId`,
   * whatever its status, becomes rejected.
   */
  function ResolveSelection(apps: seq<Application>, jobId: RowId, freelancer: UserId): (r: seq<Application>)
    ensures |r| == |apps|
    ensures forall i :: 0 <= i < |apps| ==> r[i] == apps[i].(status := r[i].status)
    ensures forall i :: 0 <= i < |apps| && apps[i].jobId == jobId ==>
      (r[i].status == Accepted <==> apps[i].freelancerId == freelancer) && r[i].status != Pending
    ensures forall i :: 0 <= i < |apps| && apps[i].jobId != jobId ==> r[i] == apps[i]
  {
    if apps == [] then []
    else
      var a := apps[0];
      var a' := if a.jobId != jobId then a
                else if a.freelancerId == freelancer then a.(status := Accepted)
                else a.(status := Rejected);
      [a'] + ResolveSelection(apps[1..], jobId, freelancer)
  }

  /**
   * Approve's two bulk updates: application `appId` becomes accepted, then the
   * other applications of `jobId` that are still pending become rejected.
   */
  function ApproveWithin(apps: seq<Application>, jobId: RowId, appId: RowId): (r: seq<Application>)
    ensures |r| == |apps|
    ensures forall i :: 0 <= i < |apps| ==> r[i] == apps[i].(status := r[i].status)
    ensures forall i :: 0 <= i < |apps| && apps[i].id == appId ==> r[i].status == Accepted
    ensures forall i :: 0 <= i < |apps| && apps[i].id != appId && apps[i].jobId == jobId && apps[i].status == Pending ==>
      r[i].status == Rejected
    ensures forall i :: 0 <= i < |apps| && apps[i].id != appId && (apps[i].jobId != jobId || apps[i].status != Pending) ==>
      r[i] == apps[i]
  {
    if apps == [] then []
    else
      var a := apps[0];
      var a' := if a.id == appId then a.(status := Accepted)
                else if a.jobId == jobId && a.status == Pending then a.(status := Rejected)
                else a;
      [a'] + ApproveWithin(apps[1..], jobId, appId)
  }

  /** Reject's write: the application with id `appId` becomes rejected. */
  function RejectOne(apps: seq<Application>, appId: RowId): (r: seq<Application>)
    ensures |r| == |apps|
    ensures forall i :: 0 <= i < |apps| && apps[i].id == appId ==> r[i] == apps[i].(status := Rejected)
    ensures forall i :: 0 <= i < |apps| && apps[i].id != appId ==> r[i] == apps[i]
  {
    if apps == [] then []
    else [if apps[0].id == appId then apps[0].(status := Rejected) else apps[0]] + RejectOne(apps[1..], appId)
  }

  /**
   * Payment's write: every transaction of `jobId` becomes completed, dated
   * `now`, with the collaborator's reference; other transactions are untouched.
   */
  function SettleTransactions(txs: seq<Transaction>, jobId: RowId, now: int, reference: string): (r: seq<Transaction>)
    ensures |r| == |txs|
    ensures forall i :: 0 <= i < |txs| && txs[i].jobId == jobId ==>
      r[i] == txs[i].(paymentStatus := PaymentCompleted, paymentDate := Some(now), paymentReference := Some(reference))
    ensures forall i :: 0 <= i < |txs| && txs[i].jobId != jobId ==> r[i] == txs[i]
  {
    if txs == [] then []
    else
      var t := txs[0];
      var t' := if t.jobId == jobId
                then t.(paymentStatus := PaymentCompleted, paymentDate := Some(now), paymentReference := Some(reference))
                else t;
      [t'] + SettleTransactions(txs[1..], jobId, now, reference)
  }

  /** Rows of `jobs` other than the one with this id, in order: a `delete().eq('id', id)`. */
  function DeleteJob(jobs: seq<Job>, id: RowId): (r: seq<Job>)
    ensures forall j :: j in r <==> j in jobs && j.id != id
    ensures |r| <= |jobs|
    ensures (exists i :: 0 <= i < |jobs| && jobs[i].id == id) ==> |r| < |jobs|
  {
    if jobs == [] then []
    else if jobs[0].id == id then DeleteJob(jobs[1..], id)
    else [jobs[0]] + DeleteJob(jobs[1..], id)
  }

  // ---------------------------------------------------------------------
  // Facts about the shared updates

  /** After approve's writes no application of the job is left pending. */
  lemma {:induction false} ApproveLeavesNonePending(apps: seq<Application>, jobId: RowId, appId: RowId, i: int)
    requires 0 <= i < |apps| && apps[i].jobId == jobId
    ensures ApproveWithin(apps, jobId, appId)[i].status != Pending
  {
    var r := ApproveWithin(apps, jobId, appId);
    if apps[i].id != appId && apps[i].status != Pending {
      assert r[i] == apps[i];
    }
  }

  /**
   * With at most one application per (job, freelancer), select-freelancer
   * leaves exactly one accepted application for the job, the chosen one.
   */
  lemma {:induction false} SelectionAcceptsOne(apps: seq<Application>, jobId: RowId, freelancer: UserId)
    requires |ApplicationsBy(apps, jobId, freelancer)| == 1
    ensures AcceptedOf(ResolveSelection(apps, jobId, freelancer), jobId)
         == [ApplicationsBy(apps, jobId, freelancer)[0].(status := Accepted)]
  {
    SelectionAccepted(apps, jobId, freelancer);
  }

  lemma {:induction false} SelectionAccepted(apps: seq<Application>, jobId: RowId, freelancer: UserId)
    ensures AcceptedOf(ResolveSelection(apps, jobId, freelancer), jobId)
         == AcceptAll(ApplicationsBy(apps, jobId, freelancer))
  {
    if apps != [] {
      SelectionAccepted(apps[1..], jobId, freelancer);
      assert ResolveSelection(apps, jobId, freelancer)[1..] == ResolveSelection(apps[1..], jobId, freelancer);
    }
  }

  /** Every row of `apps` with its status set to accepted. */
  function AcceptAll(apps: seq<Application>): (r: seq<Application>)
    ensures |r| == |apps|
    ensures forall i :: 0 <= i < |apps| ==> r[i] == apps[i].(status := Accepted)
  {
    if apps == [] then [] else [apps[0].(status := Accepted)] + AcceptAll(apps[1..])
  }
}
