// The current job-lifecycle handlers (server/routes/jobs.js): create, apply,
// approve, reject, select-freelancer, payment, complete, edit and delete,
// each a read-check-write over the jobs, job_applications and transactions
// tables, plus the client and freelancer statistics.
//
// The store is the object's three sequences. Ids come from `nextId`, the
// model of the store's id generator. Store failures are not modelled: every
// write that the handler issues succeeds.

module Jobs {
  import opened Common
  import opened JobTables
  import Ratings

  /** The field checks of job creation, in the order the handler makes them. */
  function CheckJobFields(title: Option<string>, description: Option<string>, location: Option<string>): (r: Option<JobError>)
    ensures r.None? <==>
      Present(title) && Present(description) && Present(location)
      && 5 <= |title.value| <= 100 && 10 <= |description.value| <= 1000 && 5 <= |location.value|
    ensures r == Some(MissingFields) <==> !(Present(title) && Present(description) && Present(location))
    ensures r.Some? ==> r.value in {MissingFields, TitleLength, DescriptionLength, LocationLength}
  {
    if !(Present(title) && Present(description) && Present(location)) then Some(MissingFields)
    else if |title.value| < 5 || |title.value| > 100 then Some(TitleLength)
    else if |description.value| < 10 || |description.value| > 1000 then Some(DescriptionLength)
    else if |location.value| < 5 then Some(LocationLength)
    else None
  }

  /** The job a successful `/complete` returns, and the freelancer to notify. */
  datatype Completion = Completion(job: Job, freelancer: Option<UserId>)

  /**
   * The freelancer that `.eq('job_id').eq('status', 'accepted').single()`
   * finds: present only when exactly one application of the job is accepted.
   */
  function AcceptedFreelancer(apps: seq<Application>, jobId: RowId): (r: Option<UserId>)
    ensures r.Some? <==> |AcceptedOf(apps, jobId)| == 1
    ensures r.Some? ==> exists a :: a in apps && a.jobId == jobId && a.status == Accepted && a.freelancerId == r.value
  {
    var acc := AcceptedOf(apps, jobId);
    if |acc| == 1 then
      assert acc[0] in acc;
      Some(acc[0].freelancerId)
    else None
  }

  /**
   * The row PUT /:id writes: absent text fields are left as they are (an
   * undefined key is dropped from the update), a falsy budget is stored as
   * null.
   */
  function Edited(j: Job, title: Option<string>, description: Option<string>, location: Option<string>,
                  budget: Option<int>, timeline: Option<string>): (r: Job)
    ensures r.id == j.id && r.clientId == j.clientId && r.status == j.status && r.createdAt == j.createdAt
    ensures r.title == (if title.Some? then title.value else j.title)
    ensures r.description == (if description.Some? then description.value else j.description)
    ensures r.location == (if location.Some? then location.value else j.location)
    ensures r.timeline == (if timeline.Some? then timeline else j.timeline)
    ensures r.budget.Some? <==> budget.Some? && budget.value != 0
    ensures r.budget.Some? ==> r.budget == budget
    ensures r.(title := j.title, description := j.description, location := j.location, budget := j.budget,
               timeline := j.timeline) == j
  {
    j.(title := if title.Some? then title.value else j.title,
       description := if description.Some? then description.value else j.description,
       location := if location.Some? then location.value else j.location,
       budget := if budget.Some? && budget.value != 0 then budget else None,
       timeline := if timeline.Some? then timeline else j.timeline)
  }

  class JobBoard {
    var jobs: seq<Job>
    var applications: seq<Application>
    var transactions: seq<Transaction>
    var nextId: nat

    ghost predicate Valid()
      reads this
    {
      && UniqueJobIds(jobs) && UniqueApplicationIds(applications) && UniqueTransactionIds(transactions)
      && (forall j :: j in jobs ==> j.id < nextId)
      && (forall a :: a in applications ==> a.id < nextId)
      && (forall t :: t in transactions ==> t.id < nextId)
    }

    constructor ()
      ensures Valid() && jobs == [] && applications == [] && transactions == []
    {
      jobs, applications, transactions, nextId := [], [], [], 0;
    }

    /** POST / : validate the fields, then insert a posted job owned by the caller. */
    method Create(caller: UserId, title: Option<string>, description: Option<string>, location: Option<string>,
                  timeline: Option<string>, now: int) returns (r: Result<Job, JobError>)
      requires Valid()
      modifies this
      ensures Valid()
      ensures CheckJobFields(title, description, location).Some? ==>
        r == Err(CheckJobFields(title, description, location).value) && unchanged(this)
      ensures CheckJobFields(title, description, location).None? ==>
        && r == Ok(Job(old(nextId), caller, title.value, description.value, location.value, timeline, None, Posted, now, None, None))
        && FindJob(old(jobs), r.value.id).None?
        && jobs == old(jobs) + [r.value]
        && applications == old(applications) && transactions == old(transactions)
    {
      var check := CheckJobFields(title, description, location);
      if check.Some? {
        return Err(check.value);
      }
      var job := Job(nextId, caller, title.value, description.value, location.value, timeline, None, Posted, now, None, None);
      jobs := jobs + [job];
      nextId := nextId + 1;
      r := Ok(job);
    }

    /** POST /:id/apply : a pending application by the caller to a posted job. */
    method Apply(caller: UserId, jobId: RowId, proposedRate: int) returns (r: Result<Application, JobError>)
      requires Valid()
      modifies this
      ensures Valid()
      ensures !(FindJob(old(jobs), jobId).Some? && FindJob(old(jobs), jobId).value.status == Posted) ==>
        r == Err(JobNotFound) && unchanged(this)
      ensures FindJob(old(jobs), jobId).Some? && FindJob(old(jobs), jobId).value.status == Posted ==>
        && r == Ok(Application(old(nextId), jobId, caller, proposedRate, Pending))
        && applications == old(applications) + [r.value]
        && jobs == old(jobs) && transactions == old(transactions)
    {
      var job := FindJob(jobs, jobId);
      if !(job.Some? && job.value.status == Posted) {
        return Err(JobNotFound);
      }
      var app := Application(nextId, jobId, caller, proposedRate, Pending);
      applications := applications + [app];
      nextId := nextId + 1;
      r := Ok(app);
    }

    /**
     * POST /:id/applications/:applicationId/approve : accept one pending
     * application of an owned, posted job; reject the job's other pending
     * applications; start the job; open a pending transaction.
     */
    method Approve(caller: UserId, jobId: RowId, appId: RowId) returns (r: Result<Application, JobError>)
      requires Valid()
      modifies this
      ensures Valid()
      ensures !Owns(old(jobs), jobId, caller) ==> r == Err(JobNotFound) && unchanged(this)
      ensures Owns(old(jobs), jobId, caller) && FindJob(old(jobs), jobId).value.status != Posted ==>
        r == Err(JobNotOpen) && unchanged(this)
      ensures (Owns(old(jobs), jobId, caller) && FindJob(old(jobs), jobId).value.status == Posted
               && FindPendingApplication(old(applications), jobId, appId).None?) ==>
        r == Err(ApplicationNotFound) && unchanged(this)
      ensures (Owns(old(jobs), jobId, caller) && FindJob(old(jobs), jobId).value.status == Posted
               && FindPendingApplication(old(applications), jobId, appId).Some?) ==>
        var a := FindPendingApplication(old(applications), jobId, appId).value;
        var k := JobIndex(old(jobs), jobId);
        && r == Ok(a)
        && applications == ApproveWithin(old(applications), jobId, appId)
        && jobs == old(jobs)[k := old(jobs)[k].(status := InProgress)]
        && transactions == old(transactions) + [Transaction(old(nextId), jobId, caller, a.freelancerId, a.proposedRate, PaymentPending, None, None)]
    {
      var job := FindJob(jobs, jobId);
      if !(job.Some? && job.value.clientId == caller) {
        return Err(JobNotFound);
      }
      if job.value.status != Posted {
        return Err(JobNotOpen);
      }
      var app := FindPendingApplication(applications, jobId, appId);
      if app.None? {
        return Err(ApplicationNotFound);
      }
      var a := app.value;
      var k := JobIndex(jobs, jobId);
      var approved := ApproveWithin(applications, jobId, appId);
      var tx := Transaction(nextId, jobId, caller, a.freelancerId, a.proposedRate, PaymentPending, None, None);
      ReplaceKeepsJobIds(jobs, k, jobs[k].(status := InProgress), nextId);
      StatusOnlyKeepsIds(applications, approved, nextId);
      AppendKeepsTransactionIds(transactions, tx, nextId);
      jobs, applications, transactions, nextId := jobs[k := jobs[k].(status := InProgress)], approved, transactions + [tx], nextId + 1;
      r := Ok(a);
    }

    /** POST /:id/applications/:applicationId/reject : reject one pending application of an owned job. */
    method Reject(caller: UserId, jobId: RowId, appId: RowId) returns (r: Result<Application, JobError>)
      requires Valid()
      modifies this
      ensures Valid()
      ensures !Owns(old(jobs), jobId, caller) ==> r == Err(JobNotFound) && unchanged(this)
      ensures Owns(old(jobs), jobId, caller) && FindPendingApplication(old(applications), jobId, appId).None? ==>
        r == Err(ApplicationNotFound) && unchanged(this)
      ensures Owns(old(jobs), jobId, caller) && FindPendingApplication(old(applications), jobId, appId).Some? ==>
        && r == Ok(FindPendingApplication(old(applications), jobId, appId).value)
        && applications == RejectOne(old(applications), appId)
        && jobs == old(jobs) && transactions == old(transactions) && nextId == old(nextId)
    {
      var job := FindJob(jobs, jobId);
      if !(job.Some? && job.value.clientId == caller) {
        return Err(JobNotFound);
      }
      var app := FindPendingApplication(applications, jobId, appId);
      if app.None? {
        return Err(ApplicationNotFound);
      }
      applications := RejectOne(applications, appId);
      r := Ok(app.value);
    }

    /**
     * POST /:id/select-freelancer/:freelancerId : on an owned job with exactly
     * one application by that freelancer, start the job (whatever its status),
     * accept that application, reject all others and open a pending transaction.
     */
    method SelectFreelancer(caller: UserId, jobId: RowId, freelancer: UserId) returns (r: Result<Job, JobError>)
      requires Valid()
      modifies this
      ensures Valid()
      ensures !Owns(old(jobs), jobId, caller) ==> r == Err(JobNotFound) && unchanged(this)
      ensures Owns(old(jobs), jobId, caller) && |ApplicationsBy(old(applications), jobId, freelancer)| != 1 ==>
        r == Err(ApplicationNotFound) && unchanged(this)
      ensures Owns(old(jobs), jobId, caller) && |ApplicationsBy(old(applications), jobId, freelancer)| == 1 ==>
        var a := ApplicationsBy(old(applications), jobId, freelancer)[0];
        var k := JobIndex(old(jobs), jobId);
        && r == Ok(old(jobs)[k].(status := InProgress))
        && jobs == old(jobs)[k := r.value]
        && applications == ResolveSelection(old(applications), jobId, freelancer)
        && transactions == old(transactions) + [Transaction(old(nextId), jobId, caller, freelancer, a.proposedRate, PaymentPending, None, None)]
    {
      var job := FindJob(jobs, jobId);
      if !(job.Some? && job.value.clientId == caller) {
        return Err(JobNotFound);
      }
      var mine := ApplicationsBy(applications, jobId, freelancer);
      if |mine| != 1 {
        return Err(ApplicationNotFound);
      }
      var k := JobIndex(jobs, jobId);
      var started := jobs[k].(status := InProgress);
      jobs := jobs[k := started];
      applications := ResolveSelection(applications, jobId, freelancer);
      transactions := transactions + [Transaction(nextId, jobId, caller, freelancer, mine[0].proposedRate, PaymentPending, None, None)];
      nextId := nextId + 1;
      r := Ok(started);
      assert forall i :: 0 <= i < |jobs| ==> jobs[i].id == old(jobs)[i].id;
    }

    /**
     * POST /:id/payment : on an owned, in-progress job with an accepted
     * application, ask the collaborator; on success settle the job's
     * transactions, on failure write nothing.
     */
    method Payment(caller: UserId, jobId: RowId, outcome: PaymentOutcome, now: int) returns (r: Result<string, JobError>)
      requires Valid()
      modifies this
      ensures Valid()
      ensures !Owns(old(jobs), jobId, caller) ==> r == Err(JobNotFound) && unchanged(this)
      ensures Owns(old(jobs), jobId, caller) && FindJob(old(jobs), jobId).value.status != InProgress ==>
        r == Err(JobNotInProgress) && unchanged(this)
      ensures Owns(old(jobs), jobId, caller) && FindJob(old(jobs), jobId).value.status == InProgress ==>
        if AcceptedOf(old(applications), jobId) == [] then r == Err(NoAcceptedApplication) && unchanged(this)
        else if outcome.Declined? then r == Err(PaymentFailed(outcome.message)) && unchanged(this)
        else
          && r == Ok(outcome.reference)
          && transactions == SettleTransactions(old(transactions), jobId, now, outcome.reference)
          && jobs == old(jobs) && applications == old(applications) && nextId == old(nextId)
    {
      var job := FindJob(jobs, jobId);
      if !(job.Some? && job.value.clientId == caller) {
        return Err(JobNotFound);
      }
      if job.value.status != InProgress {
        return Err(JobNotInProgress);
      }
      if AcceptedOf(applications, jobId) == [] {
        return Err(NoAcceptedApplication);
      }
      if outcome.Declined? {
        return Err(PaymentFailed(outcome.message));
      }
      transactions := SettleTransactions(transactions, jobId, now, outcome.reference);
      r := Ok(outcome.reference);
      assert forall i :: 0 <= i < |transactions| ==> transactions[i].id == old(transactions)[i].id;
    }

    /**
     * POST /:id/complete : an owned job, whatever its status, becomes completed
     * with an archive date one day after `now` (milliseconds).
     */
    method Complete(caller: UserId, jobId: RowId, now: int) returns (r: Result<Completion, JobError>)
      requires Valid()
      modifies this
      ensures Valid()
      ensures !Owns(old(jobs), jobId, caller) ==> r == Err(JobNotFound) && unchanged(this)
      ensures Owns(old(jobs), jobId, caller) ==>
        var k := JobIndex(old(jobs), jobId);
        && jobs == old(jobs)[k := CompletedAt(old(jobs)[k], now)]
        && r == Ok(Completion(jobs[k], AcceptedFreelancer(old(applications), jobId)))
        && applications == old(applications) && transactions == old(transactions) && nextId == old(nextId)
    {
      var job := FindJob(jobs, jobId);
      if !(job.Some? && job.value.clientId == caller) {
        return Err(JobNotFound);
      }
      var k := JobIndex(jobs, jobId);
      jobs := jobs[k := CompletedAt(jobs[k], now)];
      r := Ok(Completion(jobs[k], AcceptedFreelancer(applications, jobId)));
      assert forall i :: 0 <= i < |jobs| ==> jobs[i].id == old(jobs)[i].id;
    }

    /** PUT /:id : the owner edits title, description, location, budget and timeline. */
    method Update(caller: UserId, jobId: RowId, title: Option<string>, description: Option<string>,
                  location: Option<string>, budget: Option<int>, timeline: Option<string>) returns (r: Result<Job, JobError>)
      requires Valid()
      modifies this
      ensures Valid()
      ensures FindJob(old(jobs), jobId).None? ==> r == Err(JobNotFound) && unchanged(this)
      ensures FindJob(old(jobs), jobId).Some? && FindJob(old(jobs), jobId).value.clientId != caller ==>
        r == Err(NotOwner) && unchanged(this)
      ensures Owns(old(jobs), jobId, caller) ==>
        var k := JobIndex(old(jobs), jobId);
        && r == Ok(Edited(old(jobs)[k], title, description, location, budget, timeline))
        && jobs == old(jobs)[k := r.value]
        && applications == old(applications) && transactions == old(transactions) && nextId == old(nextId)
    {
      var job := FindJob(jobs, jobId);
      if job.None? {
        return Err(JobNotFound);
      }
      if job.value.clientId != caller {
        return Err(NotOwner);
      }
      var k := JobIndex(jobs, jobId);
      var edited := Edited(jobs[k], title, description, location, budget, timeline);
      jobs := jobs[k := edited];
      r := Ok(edited);
      assert forall i :: 0 <= i < |jobs| ==> jobs[i].id == old(jobs)[i].id;
    }

    /** DELETE /:id : the owner removes a job that is not completed. */
    method Delete(caller: UserId, jobId: RowId) returns (r: Result<(), JobError>)
      requires Valid()
      modifies this
      ensures Valid()
      ensures FindJob(old(jobs), jobId).None? ==> r == Err(JobNotFound) && unchanged(this)
      ensures FindJob(old(jobs), jobId).Some? && FindJob(old(jobs), jobId).value.clientId != caller ==>
        r == Err(NotOwner) && unchanged(this)
      ensures Owns(old(jobs), jobId, caller) && FindJob(old(jobs), jobId).value.status == Completed ==>
        r == Err(CompletedJobKept) && unchanged(this)
      ensures Owns(old(jobs), jobId, caller) && FindJob(old(jobs), jobId).value.status != Completed ==>
        && r == Ok(())
        && jobs == DeleteJob(old(jobs), jobId) && FindJob(jobs, jobId).None?
        && applications == old(applications) && transactions == old(transactions) && nextId == old(nextId)
    {
      var job := FindJob(jobs, jobId);
      if job.None? {
        return Err(JobNotFound);
      }
      if job.value.clientId != caller {
        return Err(NotOwner);
      }
      if job.value.status == Completed {
        return Err(CompletedJobKept);
      }
      DeleteKeepsUnique(jobs, jobId);
      jobs := DeleteJob(jobs, jobId);
      r := Ok(());
    }
  }

  lemma {:induction false} DeleteKeepsUnique(jobs: seq<Job>, id: RowId)
    requires UniqueJobIds(jobs)
    ensures UniqueJobIds(DeleteJob(jobs, id))
  {
    if jobs != [] {
      DeleteKeepsUnique(jobs[1..], id);
      var rest := DeleteJob(jobs[1..], id);
      assert forall j :: j in rest ==> j in jobs[1..];
    }
  }

  // ---------------------------------------------------------------------
  // Statistics

  /** The caller's jobs: `.eq('client_id', caller)`. */
  function ClientJobs(jobs: seq<Job>, client: UserId): (r: seq<Job>)
    ensures forall j :: j in r <==> j in jobs && j.clientId == client
    ensures |r| <= |jobs|
  {
    if jobs == [] then []
    else if jobs[0].clientId == client then [jobs[0]] + ClientJobs(jobs[1..], client)
    else ClientJobs(jobs[1..], client)
  }

  function CountActive(jobs: seq<Job>): nat
  {
    if jobs == [] then 0 else (if Active(jobs[0].status) then 1 else 0) + CountActive(jobs[1..])
  }

  function CountWithStatus(jobs: seq<Job>, s: JobStatus): nat
  {
    if jobs == [] then 0 else (if jobs[0].status == s then 1 else 0) + CountWithStatus(jobs[1..], s)
  }

  /** The applications whose job is one of `mine`: `.in('job_id', jobIds)`. */
  function ApplicationsTo(apps: seq<Application>, mine: seq<Job>): (r: seq<Application>)
    ensures forall a :: a in r <==> a in apps && exists j :: j in mine && j.id == a.jobId
  {
    if apps == [] then []
    else if exists j :: j in mine && j.id == apps[0].jobId then [apps[0]] + ApplicationsTo(apps[1..], mine)
    else ApplicationsTo(apps[1..], mine)
  }

  datatype ClientStats = ClientStats(totalJobs: nat, activeJobs: nat, completedJobs: nat, totalApplications: nat)

  /** GET /client-stats. */
  function ClientStatsOf(jobs: seq<Job>, apps: seq<Application>, client: UserId): (s: ClientStats)
    ensures s.totalJobs <= |jobs|
    ensures s.activeJobs + s.completedJobs <= s.totalJobs
    ensures s.totalApplications <= |apps|
    ensures s.totalJobs == 0 ==> s.totalApplications == 0
  {
    var mine := ClientJobs(jobs, client);
    StatusPartition(mine);
    ApplicationsToBound(apps, mine);
    ClientStats(|mine|, CountActive(mine), CountWithStatus(mine, Completed),
                if mine == [] then 0 else |ApplicationsTo(apps, mine)|)
  }

  /**
   * Every job of the client is active, completed or cancelled: the three
   * counts partition totalJobs, so active + completed never exceeds it.
   */
  lemma {:induction false} ClientStatsPartition(jobs: seq<Job>, apps: seq<Application>, client: UserId)
    ensures var s := ClientStatsOf(jobs, apps, client);
      s.activeJobs + s.completedJobs + CountWithStatus(ClientJobs(jobs, client), Cancelled) == s.totalJobs
    ensures var s := ClientStatsOf(jobs, apps, client);
      s.activeJobs + s.completedJobs <= s.totalJobs
  {
    StatusPartition(ClientJobs(jobs, client));
  }

  lemma {:induction false} StatusPartition(js: seq<Job>)
    ensures CountActive(js) + CountWithStatus(js, Completed) + CountWithStatus(js, Cancelled) == |js|
  {
    if js != [] {
      StatusPartition(js[1..]);
    }
  }

  /** A client's applications total counts only applications to that client's jobs. */
  lemma {:induction false} ClientApplicationsBound(jobs: seq<Job>, apps: seq<Application>, client: UserId)
    ensures ClientStatsOf(jobs, apps, client).totalApplications <= |apps|
  {
    ApplicationsToBound(apps, ClientJobs(jobs, client));
  }

  lemma {:induction false} ApplicationsToBound(apps: seq<Application>, mine: seq<Job>)
    ensures |ApplicationsTo(apps, mine)| <= |apps|
  {
    if apps != [] {
      ApplicationsToBound(apps[1..], mine);
    }
  }

  /** The freelancer's applications: `.eq('freelancer_id', caller)`. */
  function ApplicationsFrom(apps: seq<Application>, freelancer: UserId): (r: seq<Application>)
    ensures forall a :: a in r <==> a in apps && a.freelancerId == freelancer
    ensures |r| <= |apps|
  {
    if apps == [] then []
    else if apps[0].freelancerId == freelancer then [apps[0]] + ApplicationsFrom(apps[1..], freelancer)
    else ApplicationsFrom(apps[1..], freelancer)
  }

  /** `filter(app => app.status === 'accepted')`. */
  function AcceptedOnly(apps: seq<Application>): (r: seq<Application>)
    ensures forall a :: a in r <==> a in apps && a.status == Accepted
    ensures |r| <= |apps|
  {
    if apps == [] then []
    else if apps[0].status == Accepted then [apps[0]] + AcceptedOnly(apps[1..])
    else AcceptedOnly(apps[1..])
  }

  /** The `reduce` that sums proposed rates. */
  function RateSum(apps: seq<Application>): int
  {
    if apps == [] then 0 else apps[0].proposedRate + RateSum(apps[1..])
  }

  datatype FreelancerStats = FreelancerStats(applicationsSent: nat, jobsCompleted: nat, ratingTenths: int, totalEarnings: int)

  /** GET /freelancer-stats, with the reviews of the freelancer given as their ratings. */
  function FreelancerStatsOf(apps: seq<Application>, ratings: seq<int>, freelancer: UserId): (s: FreelancerStats)
    ensures s.jobsCompleted <= s.applicationsSent <= |apps|
    ensures ratings == [] ==> s.ratingTenths == 0
    ensures (forall i :: 0 <= i < |ratings| ==> 1 <= ratings[i] <= 5) && ratings != [] ==> 10 <= s.ratingTenths <= 50
  {
    var mine := ApplicationsFrom(apps, freelancer);
    var accepted := AcceptedOnly(mine);
    assert (forall i :: 0 <= i < |ratings| ==> 1 <= ratings[i] <= 5) ==>
           (ratings != [] ==> 10 <= Ratings.AverageTenths(ratings) <= 50) by {
      if forall i :: 0 <= i < |ratings| ==> 1 <= ratings[i] <= 5 {
        Ratings.AverageTenthsRange(ratings);
      }
    }
    FreelancerStats(|mine|, |accepted|, Ratings.AverageTenths(ratings), RateSum(accepted))
  }

  /**
   * Approving a pending application credits its freelancer with exactly one
   * more completed job and exactly its proposed rate in earnings.
   */
  lemma {:induction false} ApproveCreditsFreelancer(apps: seq<Application>, ratings: seq<int>, jobId: RowId, appId: RowId)
    requires UniqueApplicationIds(apps)
    requires FindPendingApplication(apps, jobId, appId).Some?
    ensures var a := FindPendingApplication(apps, jobId, appId).value;
      var before := FreelancerStatsOf(apps, ratings, a.freelancerId);
      var after := FreelancerStatsOf(ApproveWithin(apps, jobId, appId), ratings, a.freelancerId);
      && after.jobsCompleted == before.jobsCompleted + 1
      && after.totalEarnings == before.totalEarnings + a.proposedRate
      && after.applicationsSent == before.applicationsSent
  {
    var a := FindPendingApplication(apps, jobId, appId).value;
    ApproveCredits(apps, jobId, appId, a);
  }

  lemma {:induction false} ApproveCredits(apps: seq<Application>, jobId: RowId, appId: RowId, a: Application)
    requires UniqueApplicationIds(apps)
    requires a in apps && a.id == appId && a.jobId == jobId && a.status == Pending
    ensures var before := AcceptedOnly(ApplicationsFrom(apps, a.freelancerId));
      var after := AcceptedOnly(ApplicationsFrom(ApproveWithin(apps, jobId, appId), a.freelancerId));
      |after| == |before| + 1 && RateSum(after) == RateSum(before) + a.proposedRate
    ensures |ApplicationsFrom(ApproveWithin(apps, jobId, appId), a.freelancerId)| == |ApplicationsFrom(apps, a.freelancerId)|
  {
    var r := ApproveWithin(apps, jobId, appId);
    assert r[1..] == ApproveWithin(apps[1..], jobId, appId);
    if apps[0].id == appId {
      assert apps[0] == a by { UniqueIdsPin(apps, a); }
      NoOtherId(apps, appId);
      ApproveOthersKeepsAccepted(apps[1..], jobId, appId, a.freelancerId);
      ApproveHead(apps, r, a);
    } else {
      assert a in apps[1..];
      UniqueTail(apps);
      ApproveCredits(apps[1..], jobId, appId, a);
      ApproveStep(apps, r, a.freelancerId);
    }
  }

  lemma UniqueTail(apps: seq<Application>)
    requires UniqueApplicationIds(apps) && apps != []
    ensures UniqueApplicationIds(apps[1..])
  {
    forall i, j | 0 <= i < j < |apps[1..]| ensures apps[1..][i].id != apps[1..][j].id {
      assert apps[1..][i] == apps[i + 1] && apps[1..][j] == apps[j + 1];
    }
  }

  /** The approved application at the head: one more accepted row, with its rate. */
  lemma ApproveHead(apps: seq<Application>, r: seq<Application>, a: Application)
    requires apps != [] && |r| == |apps| && apps[0] == a && a.status == Pending && r[0] == a.(status := Accepted)
    requires AcceptedOnly(ApplicationsFrom(r[1..], a.freelancerId)) == AcceptedOnly(ApplicationsFrom(apps[1..], a.freelancerId))
    requires |ApplicationsFrom(r[1..], a.freelancerId)| == |ApplicationsFrom(apps[1..], a.freelancerId)|
    ensures var before := AcceptedOnly(ApplicationsFrom(apps, a.freelancerId));
      var after := AcceptedOnly(ApplicationsFrom(r, a.freelancerId));
      |after| == |before| + 1 && RateSum(after) == RateSum(before) + a.proposedRate
    ensures |ApplicationsFrom(r, a.freelancerId)| == |ApplicationsFrom(apps, a.freelancerId)|
  {
    var f := a.freelancerId;
    FromHead(apps, f);
    FromHead(r, f);
    RateSumHead(AcceptedOnly(ApplicationsFrom(r, f)));
  }

  /** A row other than the approved one keeps its owner, rate and acceptance, so both totals move with the tail. */
  lemma ApproveStep(apps: seq<Application>, r: seq<Application>, f: UserId)
    requires apps != [] && |r| == |apps|
    requires r[0].freelancerId == apps[0].freelancerId && r[0].proposedRate == apps[0].proposedRate
    requires (r[0].status == Accepted) == (apps[0].status == Accepted)
    ensures var before := AcceptedOnly(ApplicationsFrom(apps, f));
      var after := AcceptedOnly(ApplicationsFrom(r, f));
      var before' := AcceptedOnly(ApplicationsFrom(apps[1..], f));
      var after' := AcceptedOnly(ApplicationsFrom(r[1..], f));
      |after| - |after'| == |before| - |before'| && RateSum(after) - RateSum(after') == RateSum(before) - RateSum(before')
    ensures |ApplicationsFrom(r, f)| - |ApplicationsFrom(r[1..], f)| == |ApplicationsFrom(apps, f)| - |ApplicationsFrom(apps[1..], f)|
  {
    FromHead(apps, f);
    FromHead(r, f);
    if apps[0].freelancerId == f && apps[0].status == Accepted {
      RateSumHead(AcceptedOnly(ApplicationsFrom(apps, f)));
      RateSumHead(AcceptedOnly(ApplicationsFrom(r, f)));
    }
  }

  /** One step of the freelancer's applications and of their accepted ones. */
  lemma FromHead(s: seq<Application>, f: UserId)
    requires s != []
    ensures s[0].freelancerId == f ==> ApplicationsFrom(s, f) == [s[0]] + ApplicationsFrom(s[1..], f)
    ensures s[0].freelancerId != f ==> ApplicationsFrom(s, f) == ApplicationsFrom(s[1..], f)
    ensures s[0].freelancerId == f && s[0].status == Accepted ==>
      AcceptedOnly(ApplicationsFrom(s, f)) == [s[0]] + AcceptedOnly(ApplicationsFrom(s[1..], f))
    ensures !(s[0].freelancerId == f && s[0].status == Accepted) ==>
      AcceptedOnly(ApplicationsFrom(s, f)) == AcceptedOnly(ApplicationsFrom(s[1..], f))
  {
    if s[0].freelancerId == f {
      var t := ApplicationsFrom(s, f);
      assert t[0] == s[0] && t[1..] == ApplicationsFrom(s[1..], f);
    }
  }

  /** `RateSum` of a non-empty list: its head's rate plus the rest. */
  lemma RateSumHead(s: seq<Application>)
    requires s != []
    ensures RateSum(s) == s[0].proposedRate + RateSum(s[1..])
  {
  }

  /** With unique ids, the row with `a`'s id at the head is `a`. */
  lemma UniqueIdsPin(apps: seq<Application>, a: Application)
    requires UniqueApplicationIds(apps) && apps != [] && a in apps && apps[0].id == a.id
    ensures apps[0] == a
  {
    var i :| 0 <= i < |apps| && apps[i] == a;
    assert apps[0].id == apps[i].id;
  }

  /** With unique ids, no row after the head has the head's id. */
  lemma NoOtherId(apps: seq<Application>, id: RowId)
    requires UniqueApplicationIds(apps) && apps != [] && apps[0].id == id
    ensures forall x :: x in apps[1..] ==> x.id != id
  {
    forall x | x in apps[1..] ensures x.id != id {
      var i :| 0 <= i < |apps[1..]| && apps[1..][i] == x;
      assert apps[i + 1] == x;
    }
  }

  /** When `appId` is not among `apps`, approve only turns pending rows into rejected ones. */
  lemma {:induction false} ApproveOthersKeepsAccepted(apps: seq<Application>, jobId: RowId, appId: RowId, f: UserId)
    requires forall x :: x in apps ==> x.id != appId
    ensures AcceptedOnly(ApplicationsFrom(ApproveWithin(apps, jobId, appId), f)) == AcceptedOnly(ApplicationsFrom(apps, f))
    ensures |ApplicationsFrom(ApproveWithin(apps, jobId, appId), f)| == |ApplicationsFrom(apps, f)|
  {
    if apps != [] {
      var r := ApproveWithin(apps, jobId, appId);
      assert r[1..] == ApproveWithin(apps[1..], jobId, appId);
      ApproveOthersKeepsAccepted(apps[1..], jobId, appId, f);
    }
  }

  /** The freelancer never has more completed jobs than applications sent. */
  lemma {:induction false} CompletedWithinSent(apps: seq<Application>, ratings: seq<int>, freelancer: UserId)
    requires forall i :: 0 <= i < |ratings| ==> 1 <= ratings[i] <= 5
    ensures var s := FreelancerStatsOf(apps, ratings, freelancer);
      s.jobsCompleted <= s.applicationsSent && s.ratingTenths <= 50
  {
    Ratings.AverageTenthsRange(ratings);
  }
}
