// The older job-lifecycle handlers (Social-Good-Juba-main/server/routes/jobs.js
// of the nested copy): the paginated listing, create with the one-active-job
// rule, apply with the role, approved-profile and duplicate checks, and the
// select-freelancer, payment and complete handlers.

module LegacyJobs {
  import opened Common
  import opened JobTables

  // ---------------------------------------------------------------------
  // Listing: GET / ?page&limit&status&search

  /** Jobs newest first: `.order('created_at', { ascending: false })`. */
  predicate NewestFirst(s: seq<Job>)
  {
    forall i, j :: 0 <= i < j < |s| ==> s[i].createdAt >= s[j].createdAt
  }

  /** Places `j` into a newest-first sequence. */
  function InsertByAge(j: Job, s: seq<Job>): (r: seq<Job>)
    requires NewestFirst(s)
    ensures NewestFirst(r)
    ensures multiset(r) == multiset(s) + multiset{j}
    ensures |r| == |s| + 1
    ensures r[0] == j || (s != [] && r[0] == s[0])
  {
    if s == [] || j.createdAt >= s[0].createdAt then
      SortedCons(j, s);
      [j] + s
    else
      var rest := InsertByAge(j, s[1..]);
      assert s == [s[0]] + s[1..];
      SortedCons(s[0], rest);
      [s[0]] + rest
  }

  /** A job no newer than the head of a newest-first sequence can go in front of it. */
  lemma SortedCons(x: Job, s: seq<Job>)
    requires NewestFirst(s)
    requires s == [] || s[0].createdAt <= x.createdAt
    ensures NewestFirst([x] + s)
  {
    forall i, j | 0 <= i < j < |[x] + s| ensures ([x] + s)[i].createdAt >= ([x] + s)[j].createdAt {
      if i > 0 {
        assert ([x] + s)[i] == s[i - 1];
      }
      assert ([x] + s)[j] == s[j - 1];
    }
  }

  /** Every job after the head of a newest-first sequence is no newer than it. */
  lemma HeadIsNewest(s: seq<Job>)
    requires NewestFirst(s) && s != []
    ensures forall x :: x in s[1..] ==> x.createdAt <= s[0].createdAt
  {
    forall x | x in s[1..] ensures x.createdAt <= s[0].createdAt {
      var k :| 0 <= k < |s[1..]| && s[1..][k] == x;
      assert s[k + 1] == x;
    }
  }

  /** Keeping the head of a newest-first sequence in front of a selection of its tail keeps the order. */
  lemma KeepHead(s: seq<Job>, rest: seq<Job>)
    requires s != [] && (NewestFirst(s[1..]) ==> NewestFirst(rest))
    requires forall x :: x in rest ==> x in s[1..]
    ensures NewestFirst(s) ==> NewestFirst([s[0]] + rest)
  {
    if NewestFirst(s) {
      HeadIsNewest(s);
      if rest != [] {
        assert rest[0] in rest;
      }
      SortedCons(s[0], rest);
    }
  }

  lemma SameMembers(a: seq<Job>, b: seq<Job>)
    requires multiset(a) == multiset(b)
    ensures forall x :: x in a <==> x in b
  {
    forall x ensures x in a <==> x in b {
      assert x in a <==> x in multiset(a);
      assert x in b <==> x in multiset(b);
    }
  }

  /** The rows in the order the query returns them. */
  function SortNewestFirst(jobs: seq<Job>): (r: seq<Job>)
    ensures NewestFirst(r)
    ensures multiset(r) == multiset(jobs)
    ensures forall x :: x in r <==> x in jobs
    ensures |r| == |jobs|
  {
    if jobs == [] then []
    else
      assert jobs == [jobs[0]] + jobs[1..];
      var r := InsertByAge(jobs[0], SortNewestFirst(jobs[1..]));
      SameMembers(r, jobs);
      r
  }

  /**
   * The optional filters: `.eq('status', status)` when a status is given and
   * `.ilike('title', '%search%')` when the search text is non-empty.
   */
  predicate MatchesListing(j: Job, status: Option<JobStatus>, search: Option<string>)
  {
    && (status.None? || j.status == status.value)
    && (!Present(search) || Includes(Lower(j.title), Lower(search.value)))
  }

  function Matching(s: seq<Job>, status: Option<JobStatus>, search: Option<string>): (r: seq<Job>)
    ensures forall j :: j in r <==> j in s && MatchesListing(j, status, search)
    ensures NewestFirst(s) ==> NewestFirst(r)
    ensures |r| <= |s|
  {
    if s == [] then []
    else
      var rest := Matching(s[1..], status, search);
      if MatchesListing(s[0], status, search) then
        KeepHead(s, rest);
        [s[0]] + rest
      else rest
  }

  /** `range(from, to)`: the rows at positions `from..to` inclusive that exist. */
  function Window(rows: seq<Job>, from: nat, to: int): (r: seq<Job>)
    ensures from < |rows| && from <= to ==> r == rows[from..if to + 1 < |rows| then to + 1 else |rows|]
    ensures from >= |rows| || to < from ==> r == []
    ensures forall x :: x in r ==> x in rows
    ensures |r| <= if to < from then 0 else to - from + 1
    ensures NewestFirst(rows) ==> NewestFirst(r)
  {
    if from >= |rows| || to < from then [] else rows[from..if to + 1 < |rows| then to + 1 else |rows|]
  }

  function Pow10(d: nat): (p: nat)
    ensures p >= 1
  {
    if d == 0 then 1 else 10 * Pow10(d - 1)
  }

  /** Number of decimal digits of `n`. */
  function Digits(n: nat): (d: nat)
    ensures d >= 1 && n < Pow10(d)
  {
    if n < 10 then 1 else 1 + Digits(n / 10)
  }

  /**
   * The number JavaScript gets from `a + s` when `a` is a number and `s` is
   * the query string of `b`: the digits of `b` written after those of `a`.
   */
  function DecimalConcat(a: nat, b: nat): (r: nat)
    ensures r >= a * 10 + b
  {
    a * Pow10(Digits(b)) + b
  }

  /** `(page - 1) * limit`: where a page starts. */
  function Offset(page: nat, n: nat): (o: nat)
    requires page >= 1
  {
    (page - 1) * n
  }

  /** The listing's page size: `limit` from the query, 10 by default. */
  function PageSize(limit: Option<nat>): nat
  {
    if limit.Some? then limit.value else 10
  }

  /** The rows the listing pages through: the filtered jobs, newest first. */
  function ListedRows(jobs: seq<Job>, status: Option<JobStatus>, search: Option<string>): (r: seq<Job>)
    ensures NewestFirst(r)
    ensures forall j :: j in r <==> j in jobs && MatchesListing(j, status, search)
  {
    var sorted := SortNewestFirst(jobs);
    Matching(sorted, status, search)
  }

  /**
   * One page as written: `offset = (page - 1) * limit` is numeric, but a
   * `limit` taken from the query is a string, so `offset + limit - 1`
   * concatenates before subtracting.
   */
  function PageAsWritten(rows: seq<Job>, page: nat, limit: Option<nat>): (r: seq<Job>)
    requires page >= 1
    ensures Offset(page, PageSize(limit)) <= |rows| ==> r <= rows[Offset(page, PageSize(limit))..]
    ensures Offset(page, PageSize(limit)) >= |rows| ==> r == []
    ensures NewestFirst(rows) ==> NewestFirst(r)
    ensures forall j :: j in r ==> j in rows
  {
    var offset := Offset(page, PageSize(limit));
    var to := if limit.Some? then DecimalConcat(offset, limit.value) - 1 else offset + 10 - 1;
    var r := Window(rows, offset, to);
    assert offset < |rows| && offset <= to ==> r <= rows[offset..];
    r
  }

  /** One page as intended: rows `offset .. offset + limit - 1`. */
  function Page(rows: seq<Job>, page: nat, limit: Option<nat>): (r: seq<Job>)
    requires page >= 1
    ensures |r| <= PageSize(limit)
    ensures NewestFirst(rows) ==> NewestFirst(r)
    ensures forall j :: j in r ==> j in rows
  {
    var n := PageSize(limit);
    var offset := Offset(page, n);
    Window(rows, offset, offset + n - 1)
  }

  /** GET / as written. */
  function ListAsWritten(jobs: seq<Job>, page: nat, limit: Option<nat>, status: Option<JobStatus>, search: Option<string>): (r: seq<Job>)
    requires page >= 1
    ensures NewestFirst(r)
    ensures forall j :: j in r ==> j in jobs && MatchesListing(j, status, search)
  {
    PageAsWritten(ListedRows(jobs, status, search), page, limit)
  }

  /** GET / as intended: at most `limit` matching jobs, newest first. */
  function List(jobs: seq<Job>, page: nat, limit: Option<nat>, status: Option<JobStatus>, search: Option<string>): (r: seq<Job>)
    requires page >= 1
    ensures |r| <= PageSize(limit)
    ensures NewestFirst(r)
    ensures forall j :: j in r ==> j in jobs && MatchesListing(j, status, search)
  {
    Page(ListedRows(jobs, status, search), page, limit)
  }

  /**
   * Page `p` of the intended listing is exactly the `p`-th block of `limit`
   * rows, so consecutive pages neither overlap nor skip rows.
   */
  lemma ListIsPageBlock(rows: seq<Job>, page: nat, limit: Option<nat>)
    requires page >= 1
    ensures var n := PageSize(limit);
      var from := Offset(page, n);
      Page(rows, page, limit) == if from >= |rows| then [] else rows[from..if from + n < |rows| then from + n else |rows|]
  {
  }

  /** On the first page, or with the default limit, the written listing is the intended one. */
  lemma ListAsWrittenAgrees(rows: seq<Job>, page: nat, limit: Option<nat>)
    requires page >= 1
    requires page == 1 || limit.None?
    ensures PageAsWritten(rows, page, limit) == Page(rows, page, limit)
  {
    if limit.Some? {
      assert Offset(page, limit.value) == 0;
      assert DecimalConcat(0, limit.value) == limit.value;
    }
  }

  /**
   * Page 2 with `limit=5` from the query: `range(5, "5" + "5" - 1)` is
   * `range(5, 54)`, fifty rows instead of five.
   */
  lemma ListAsWrittenOverfetches(rows: seq<Job>)
    requires |rows| >= 55
    ensures |PageAsWritten(rows, 2, Some(5))| == 50
    ensures |Page(rows, 2, Some(5))| == 5
  {
    assert Offset(2, 5) == 5;
    assert Digits(5) == 1 && Pow10(1) == 10;
    assert DecimalConcat(5, 5) == 55;
  }

  // ---------------------------------------------------------------------
  // The one-active-job rule

  /** The caller has a job that is posted or in progress. */
  predicate HasActiveJob(jobs: seq<Job>, client: UserId)
  {
    exists j :: j in jobs && j.clientId == client && Active(j.status)
  }

  /** No client owns two active jobs. */
  predicate OneActivePerClient(jobs: seq<Job>)
  {
    forall i, j :: 0 <= i < j < |jobs| && jobs[i].clientId == jobs[j].clientId ==>
      !(Active(jobs[i].status) && Active(jobs[j].status))
  }

  /** At most one application per (job, freelancer). */
  predicate NoDuplicateApplications(apps: seq<Application>)
  {
    forall i, j :: 0 <= i < j < |apps| ==>
      !(apps[i].jobId == apps[j].jobId && apps[i].freelancerId == apps[j].freelancerId)
  }

  lemma {:induction false} AtMostOneApplicationBy(apps: seq<Application>, jobId: RowId, freelancer: UserId)
    requires NoDuplicateApplications(apps)
    ensures |ApplicationsBy(apps, jobId, freelancer)| <= 1
  {
    if apps != [] {
      var rest := apps[1..];
      assert NoDuplicateApplications(rest) by {
        forall i, j | 0 <= i < j < |rest|
          ensures !(rest[i].jobId == rest[j].jobId && rest[i].freelancerId == rest[j].freelancerId)
        {
          assert rest[i] == apps[i + 1] && rest[j] == apps[j + 1];
        }
      }
      AtMostOneApplicationBy(rest, jobId, freelancer);
      if apps[0].jobId == jobId && apps[0].freelancerId == freelancer {
        forall a | a in rest ensures !(a.jobId == jobId && a.freelancerId == freelancer) {
          var j :| 0 <= j < |rest| && rest[j] == a;
          assert apps[j + 1] == a;
        }
        NoApplicationBy(rest, jobId, freelancer);
      }
    }
  }

  lemma {:induction false} NoApplicationBy(apps: seq<Application>, jobId: RowId, freelancer: UserId)
    requires forall a :: a in apps ==> !(a.jobId == jobId && a.freelancerId == freelancer)
    ensures ApplicationsBy(apps, jobId, freelancer) == []
  {
    if apps != [] {
      NoApplicationBy(apps[1..], jobId, freelancer);
    }
  }

  /** The profiles of `user` whose approval status is approved. */
  function ApprovedProfiles(profiles: seq<ProfileStatus>, user: UserId): (r: seq<ProfileStatus>)
    ensures forall p :: p in r <==> p in profiles && p.userId == user && p.approval == Approved
  {
    if profiles == [] then []
    else
      var rest := ApprovedProfiles(profiles[1..], user);
      if profiles[0].userId == user && profiles[0].approval == Approved then [profiles[0]] + rest else rest
  }

  /**
   * A counterexample to the one-active-job rule: client 7's completed job 0
   * still has its accepted application, so select-freelancer on job 0 (which
   * does not look at the job's status) starts it again beside the client's
   * posted job 1.
   */
  lemma SelectReopensCompletedJob()
    ensures var before := [
        Job(0, 7, "Garden work", "Clear the garden", "Juba town", None, None, Completed, 1, None, None),
        Job(1, 7, "Roof repair", "Fix a leaking roof", "Juba town", None, None, Posted, 2, None, None)];
      var apps := [Application(2, 0, 9, 100, Accepted)];
      && OneActivePerClient(before)
      && Owns(before, 0, 7) && |ApplicationsBy(apps, 0, 9)| == 1
      && !OneActivePerClient(before[JobIndex(before, 0) := before[JobIndex(before, 0)].(status := InProgress)])
  {
    var before := [
      Job(0, 7, "Garden work", "Clear the garden", "Juba town", None, None, Completed, 1, None, None),
      Job(1, 7, "Roof repair", "Fix a leaking roof", "Juba town", None, None, Posted, 2, None, None)];
    assert JobIndex(before, 0) == 0;
    var after := before[0 := before[0].(status := InProgress)];
    assert after[0].clientId == after[1].clientId && Active(after[0].status) && Active(after[1].status);
  }

  /** Replacing one job by one of the same client keeps the rule, unless it makes an inactive job active. */
  lemma ReplaceKeepsOneActive(jobs: seq<Job>, k: nat, j: Job)
    requires OneActivePerClient(jobs) && k < |jobs|
    requires j.clientId == jobs[k].clientId
    requires Active(j.status) ==> Active(jobs[k].status)
    ensures OneActivePerClient(jobs[k := j])
  {
  }

  /** Rewriting the statuses of applications keeps their ids and (job, freelancer) pairs. */
  lemma StatusOnlyKeepsKeys(apps: seq<Application>, r: seq<Application>, bound: nat)
    requires |r| == |apps|
    requires forall i :: 0 <= i < |apps| ==> r[i] == apps[i].(status := r[i].status)
    requires UniqueApplicationIds(apps) && NoDuplicateApplications(apps)
    requires forall a :: a in apps ==> a.id < bound
    ensures UniqueApplicationIds(r) && NoDuplicateApplications(r)
    ensures forall a :: a in r ==> a.id < bound
  {
    forall a | a in r ensures a.id < bound {
      var i :| 0 <= i < |r| && r[i] == a;
      assert apps[i] in apps;
    }
  }

  /** Ids are unique per table and below the next id; one application per (job, freelancer). */
  ghost predicate Consistent(jobs: seq<Job>, apps: seq<Application>, txs: seq<Transaction>, nextId: nat)
  {
    && UniqueJobIds(jobs) && UniqueApplicationIds(apps) && UniqueTransactionIds(txs)
    && (forall j :: j in jobs ==> j.id < nextId)
    && (forall a :: a in apps ==> a.id < nextId)
    && (forall t :: t in txs ==> t.id < nextId)
    && NoDuplicateApplications(apps)
  }

  /** Select-freelancer's writes keep the tables consistent. */
  lemma SelectKeepsConsistent(jobs: seq<Job>, apps: seq<Application>, txs: seq<Transaction>, nextId: nat,
                              k: nat, started: Job, resolved: seq<Application>, tx: Transaction)
    requires Consistent(jobs, apps, txs, nextId)
    requires k < |jobs| && started.id == jobs[k].id
    requires |resolved| == |apps|
    requires forall i :: 0 <= i < |apps| ==> resolved[i] == apps[i].(status := resolved[i].status)
    requires tx.id == nextId
    ensures Consistent(jobs[k := started], resolved, txs + [tx], nextId + 1)
  {
    ReplaceKeepsJobIds(jobs, k, started, nextId);
    StatusOnlyKeepsKeys(apps, resolved, nextId);
    AppendKeepsTransactionIds(txs, tx, nextId);
  }

  class LegacyJobBoard {
    var jobs: seq<Job>
    var applications: seq<Application>
    var transactions: seq<Transaction>
    var profiles: seq<ProfileStatus>
    var nextId: nat

    ghost predicate Valid()
      reads this
    {
      Consistent(jobs, applications, transactions, nextId)
    }

    constructor (profiles: seq<ProfileStatus>)
      ensures Valid() && jobs == [] && applications == [] && transactions == [] && this.profiles == profiles
    {
      this.jobs, this.applications, this.transactions, this.profiles, this.nextId := [], [], [], profiles, 0;
    }

    /**
     * POST / : refused while the caller has an active job; otherwise a posted
     * job owned by the caller. Field validation happens in middleware.
     */
    method Create(caller: UserId, title: string, description: string, location: string,
                  timeline: Option<string>, now: int) returns (r: Result<Job, JobError>)
      requires Valid()
      modifies this
      ensures Valid()
      ensures HasActiveJob(old(jobs), caller) ==> r == Err(ActiveJobExists) && unchanged(this)
      ensures !HasActiveJob(old(jobs), caller) ==>
        && r == Ok(Job(old(nextId), caller, title, description, location, timeline, None, Posted, now, None, None))
        && jobs == old(jobs) + [r.value]
        && applications == old(applications) && transactions == old(transactions) && profiles == old(profiles)
      ensures OneActivePerClient(old(jobs)) ==> OneActivePerClient(jobs)
    {
      if exists j :: j in jobs && j.clientId == caller && Active(j.status) {
        return Err(ActiveJobExists);
      }
      var job := Job(nextId, caller, title, description, location, timeline, None, Posted, now, None, None);
      jobs := jobs + [job];
      nextId := nextId + 1;
      r := Ok(job);
      assert forall i :: 0 <= i < |old(jobs)| ==> jobs[i] == old(jobs)[i] && jobs[i] in old(jobs);
    }

    /**
     * POST /:id/apply : only a freelancer with exactly one approved profile,
     * only to a posted job, and only once per job.
     */
    method Apply(caller: UserId, role: Role, jobId: RowId, proposedRate: int) returns (r: Result<Application, JobError>)
      requires Valid()
      modifies this
      ensures Valid()
      ensures role != FreelancerRole ==> r == Err(NotFreelancer) && unchanged(this)
      ensures role == FreelancerRole && |ApprovedProfiles(old(profiles), caller)| != 1 ==>
        r == Err(NoApprovedProfile) && unchanged(this)
      ensures role == FreelancerRole && |ApprovedProfiles(old(profiles), caller)| == 1 ==>
        if !(FindJob(old(jobs), jobId).Some? && FindJob(old(jobs), jobId).value.status == Posted) then
          r == Err(JobNotFound) && unchanged(this)
        else if exists a :: a in old(applications) && a.jobId == jobId && a.freelancerId == caller then
          r == Err(AlreadyApplied) && unchanged(this)
        else
          && r == Ok(Application(old(nextId), jobId, caller, proposedRate, Pending))
          && applications == old(applications) + [r.value]
          && jobs == old(jobs) && transactions == old(transactions) && profiles == old(profiles)
    {
      if role != FreelancerRole {
        return Err(NotFreelancer);
      }
      if |ApprovedProfiles(profiles, caller)| != 1 {
        return Err(NoApprovedProfile);
      }
      var job := FindJob(jobs, jobId);
      if !(job.Some? && job.value.status == Posted) {
        return Err(JobNotFound);
      }
      AtMostOneApplicationBy(applications, jobId, caller);
      var existing := ApplicationsBy(applications, jobId, caller);
      if |existing| == 1 {
        assert existing[0] in existing;
        return Err(AlreadyApplied);
      }
      assert existing == [];
      var app := Application(nextId, jobId, caller, proposedRate, Pending);
      applications := applications + [app];
      nextId := nextId + 1;
      r := Ok(app);
    }

    /**
     * POST /:id/select-freelancer/:freelancerId as written: like the current
     * handler, it starts the job whatever its status.
     */
    method SelectFreelancer(caller: UserId, jobId: RowId, freelancer: UserId) returns (r: Result<Job, JobError>)
      requires Valid()
      modifies this
      ensures Valid()
      ensures !Owns(old(jobs), jobId, caller) ==> r == Err(JobNotFound) && unchanged(this)
      ensures Owns(old(jobs), jobId, caller) && |ApplicationsBy(old(applications), jobId, freelancer)| != 1 ==>
        r == Err(ApplicationNotFound) && unchanged(this)
      ensures Owns(old(jobs), jobId, caller) && |ApplicationsBy(old(applications), jobId, freelancer)| == 1 ==>
        var a := ApplicationsBy(old(applications), jobId, freelancer)[0];
        var k := JobIndex(old(jobs), jobId);
        && r == Ok(old(jobs)[k].(status := InProgress))
        && jobs == old(jobs)[k := r.value]
        && applications == ResolveSelection(old(applications), jobId, freelancer)
        && transactions == old(transactions) + [Transaction(old(nextId), jobId, caller, freelancer, a.proposedRate, PaymentPending, None, None)]
        && profiles == old(profiles)
    {
      var job := FindJob(jobs, jobId);
      if !(job.Some? && job.value.clientId == caller) {
        return Err(JobNotFound);
      }
      r := Select(jobId, freelancer, caller);
    }

    /**
     * Select-freelancer with the `posted` check that the one-active-job rule
     * needs: a job that is in progress, completed or cancelled is refused.
     */
    method SelectFreelancerWhenPosted(caller: UserId, jobId: RowId, freelancer: UserId) returns (r: Result<Job, JobError>)
      requires Valid()
      modifies this
      ensures Valid()
      ensures !Owns(old(jobs), jobId, caller) ==> r == Err(JobNotFound) && unchanged(this)
      ensures Owns(old(jobs), jobId, caller) && FindJob(old(jobs), jobId).value.status != Posted ==>
        r == Err(JobNotOpen) && unchanged(this)
      ensures Owns(old(jobs), jobId, caller) && FindJob(old(jobs), jobId).value.status == Posted ==>
        if |ApplicationsBy(old(applications), jobId, freelancer)| != 1 then r == Err(ApplicationNotFound) && unchanged(this)
        else
          var a := ApplicationsBy(old(applications), jobId, freelancer)[0];
          var k := JobIndex(old(jobs), jobId);
          && r == Ok(old(jobs)[k].(status := InProgress))
          && jobs == old(jobs)[k := r.value]
          && applications == ResolveSelection(old(applications), jobId, freelancer)
          && transactions == old(transactions) + [Transaction(old(nextId), jobId, caller, freelancer, a.proposedRate, PaymentPending, None, None)]
      ensures OneActivePerClient(old(jobs)) ==> OneActivePerClient(jobs)
    {
      var job := FindJob(jobs, jobId);
      if !(job.Some? && job.value.clientId == caller) {
        return Err(JobNotFound);
      }
      if job.value.status != Posted {
        return Err(JobNotOpen);
      }
      ghost var before := jobs;
      ghost var k := JobIndex(jobs, jobId);
      r := Select(jobId, freelancer, caller);
      if r.Ok? && OneActivePerClient(before) {
        ReplaceKeepsOneActive(before, k, r.value);
      }
    }

    /** The writes of select-freelancer once the job is known to be the caller's. */
    method Select(jobId: RowId, freelancer: UserId, caller: UserId) returns (r: Result<Job, JobError>)
      requires Valid() && Owns(jobs, jobId, caller)
      modifies this
      ensures Valid()
      ensures |ApplicationsBy(old(applications), jobId, freelancer)| != 1 ==> r == Err(ApplicationNotFound) && unchanged(this)
      ensures |ApplicationsBy(old(applications), jobId, freelancer)| == 1 ==>
        var a := ApplicationsBy(old(applications), jobId, freelancer)[0];
        var k := JobIndex(old(jobs), jobId);
        && r == Ok(old(jobs)[k].(status := InProgress))
        && jobs == old(jobs)[k := r.value]
        && applications == ResolveSelection(old(applications), jobId, freelancer)
        && transactions == old(transactions) + [Transaction(old(nextId), jobId, caller, freelancer, a.proposedRate, PaymentPending, None, None)]
        && profiles == old(profiles)
    {
      var mine := ApplicationsBy(applications, jobId, freelancer);
      if |mine| != 1 {
        return Err(ApplicationNotFound);
      }
      var k := JobIndex(jobs, jobId);
      assert FindJob(jobs, jobId) == Some(jobs[k]);
      var started := jobs[k].(status := InProgress);
      var resolved := ResolveSelection(applications, jobId, freelancer);
      var tx := Transaction(nextId, jobId, caller, freelancer, mine[0].proposedRate, PaymentPending, None, None);
      SelectKeepsConsistent(jobs, applications, transactions, nextId, k, started, resolved, tx);
      jobs, applications, transactions, nextId := jobs[k := started], resolved, transactions + [tx], nextId + 1;
      r := Ok(started);
    }

    /**
     * POST /:id/payment : on an owned, in-progress job with an accepted
     * application, ask the collaborator; on success settle the job's
     * transactions, on failure write nothing.
     */
    method Payment(caller: UserId, jobId: RowId, outcome: PaymentOutcome, now: int) returns (r: Result<string, JobError>)
      requires Valid()
      modifies this
      ensures Valid()
      ensures !Owns(old(jobs), jobId, caller) ==> r == Err(JobNotFound) && unchanged(this)
      ensures Owns(old(jobs), jobId, caller) && FindJob(old(jobs), jobId).value.status != InProgress ==>
        r == Err(JobNotInProgress) && unchanged(this)
      ensures Owns(old(jobs), jobId, caller) && FindJob(old(jobs), jobId).value.status == InProgress ==>
        if AcceptedOf(old(applications), jobId) == [] then r == Err(NoAcceptedApplication) && unchanged(this)
        else if outcome.Declined? then r == Err(PaymentFailed(outcome.message)) && unchanged(this)
        else
          && r == Ok(outcome.reference)
          && transactions == SettleTransactions(old(transactions), jobId, now, outcome.reference)
          && jobs == old(jobs) && applications == old(applications) && profiles == old(profiles)
      ensures OneActivePerClient(old(jobs)) ==> OneActivePerClient(jobs)
    {
      var job := FindJob(jobs, jobId);
      if !(job.Some? && job.value.clientId == caller) {
        return Err(JobNotFound);
      }
      if job.value.status != InProgress {
        return Err(JobNotInProgress);
      }
      if AcceptedOf(applications, jobId) == [] {
        return Err(NoAcceptedApplication);
      }
      if outcome.Declined? {
        return Err(PaymentFailed(outcome.message));
      }
      transactions := SettleTransactions(transactions, jobId, now, outcome.reference);
      r := Ok(outcome.reference);
      assert forall i :: 0 <= i < |transactions| ==> transactions[i].id == old(transactions)[i].id;
    }

    /** POST /:id/complete : an owned job, whatever its status, becomes completed. */
    method Complete(caller: UserId, jobId: RowId, now: int) returns (r: Result<Job, JobError>)
      requires Valid()
      modifies this
      ensures Valid()
      ensures !Owns(old(jobs), jobId, caller) ==> r == Err(JobNotFound) && unchanged(this)
      ensures Owns(old(jobs), jobId, caller) ==>
        var k := JobIndex(old(jobs), jobId);
        && r == Ok(CompletedAt(old(jobs)[k], now))
        && jobs == old(jobs)[k := r.value]
        && applications == old(applications) && transactions == old(transactions) && profiles == old(profiles)
      ensures OneActivePerClient(old(jobs)) ==> OneActivePerClient(jobs)
    {
      var job := FindJob(jobs, jobId);
      if !(job.Some? && job.value.clientId == caller) {
        return Err(JobNotFound);
      }
      var k := JobIndex(jobs, jobId);
      var done := CompletedAt(jobs[k], now);
      ReplaceKeepsJobIds(jobs, k, done, nextId);
      if OneActivePerClient(jobs) {
        ReplaceKeepsOneActive(jobs, k, done);
      }
      jobs := jobs[k := done];
      r := Ok(done);
    }
  }
}
