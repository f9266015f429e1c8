// The user dashboard (Social-Good-Juba-main/client/src/pages/UserDashboard.js):
// the status badges, the recent-activity lists, the available-jobs filter of
// the freelancer mode, the earnings average, and whom "Rate Freelancer" rates.

module UserDashboard {
  import opened Common
  import opened JobTables
  import opened JobSearch

  datatype Badge = Badge(text: string, className: string)

  /** The statuses the badge table knows. */
  const KnownStatuses: set<string> := {"posted", "in_progress", "completed", "cancelled", "pending", "approved", "rejected"}

  /** `getStatusBadge`: the table's badge for a known status; otherwise the raw status in the pending style. */
  function StatusBadge(status: string): (b: Badge)
    ensures status !in KnownStatuses ==> b == Badge(status, "status-pending")
    ensures status in KnownStatuses ==> b.text != status
    ensures status == "rejected" ==> b.className == "status-cancelled"
  {
    match status
    case "posted" => Badge("Posted", "status-posted")
    case "in_progress" => Badge("In Progress", "status-in-progress")
    case "completed" => Badge("Completed", "status-completed")
    case "cancelled" => Badge("Cancelled", "status-cancelled")
    case "pending" => Badge("Pending Review", "status-pending")
    case "approved" => Badge("Approved", "status-approved")
    case "rejected" => Badge("Rejected", "status-cancelled")
    case _ => Badge(status, "status-pending")
  }

  /**
   * Every job status has its own badge, with a distinct text; an accepted
   * application, whose status the table does not list, is shown as the raw
   * word in the pending style.
   */
  lemma JobBadgesDistinct(s: JobStatus, t: JobStatus)
    ensures StatusName(s) in KnownStatuses
    ensures StatusBadge(StatusName(s)).text == StatusBadge(StatusName(t)).text <==> s == t
    ensures StatusBadge("accepted") == Badge("accepted", "status-pending")
  {
  }

  /** `items.slice(0, 3)`: the first three items, or all of them when there are fewer. */
  function Recent<T>(items: seq<T>): (r: seq<T>)
    ensures |r| <= 3
    ensures |r| == if |items| < 3 then |items| else 3
    ensures r == items[..|r|]
  {
    if |items| <= 3 then items else items[..3]
  }

  /** The freelancer mode's filter: the search term and the status filter, as on the search page. */
  predicate AvailableShown(job: Job, term: string, status: string)
  {
    MatchesSearch(job, term) && MatchesStatus(job, status)
  }

  function AvailableJobs(jobs: seq<Job>, term: string, status: string): (r: seq<Job>)
    ensures forall j :: j in r <==> j in jobs && AvailableShown(j, term, status)
    ensures |r| <= |jobs|
  {
    Filter(jobs, (j: Job) => AvailableShown(j, term, status))
  }

  lemma {:induction false} FilterSame<T(!new)>(s: seq<T>, p: T -> bool, q: T -> bool)
    requires forall x :: x in s ==> p(x) == q(x)
    ensures Filter(s, p) == Filter(s, q)
  {
    if s != [] {
      assert forall x :: x in s[1..] ==> x in s;
      FilterSame(s[1..], p, q);
    }
  }

  /** The dashboard's list is the search page's list with the location filter on `all`. */
  lemma AvailableIsSearchWithoutLocation(jobs: seq<Job>, term: string, status: string)
    ensures AvailableJobs(jobs, term, status) == FilteredJobs(jobs, term, status, "all")
  {
    FilterSame(jobs, (j: Job) => AvailableShown(j, term, status), (j: Job) => Shown(j, term, status, "all"));
  }

  /** `Math.round(total / n)` for `n > 0`: the nearest whole number, halves rounded up. */
  function RoundedAverage(total: int, n: nat): (r: int)
    requires n > 0
    ensures 2 * n * r <= 2 * total + n < 2 * n * (r + 1)
  {
    var r := (2 * total + n) / (2 * n);
    DivBounds(2 * total + n, 2 * n);
    assert 2 * n * (r + 1) == 2 * n * r + 2 * n;
    r
  }

  /** An exact average is shown as it is. */
  lemma ExactAverage(k: int, n: nat)
    requires n > 0
    ensures RoundedAverage(k * n, n) == k
  {
    var r := RoundedAverage(k * n, n);
    assert (2 * n) * r < (2 * n) * (k + 1) by {
      assert 2 * n * r <= 2 * (k * n) + n;
      assert (2 * n) * (k + 1) == 2 * (k * n) + 2 * n;
    }
    MulLessCancel(2 * n, r, k + 1);
    assert (2 * n) * k < (2 * n) * (r + 1) by {
      assert (2 * n) * k == 2 * (k * n);
    }
    MulLessCancel(2 * n, k, r + 1);
  }

  /**
   * "Average per Job": shown only when more than zero jobs are completed, as
   * the rounded quotient of the earnings (missing earnings count as 0).
   */
  function AveragePerJob(totalEarnings: Option<int>, jobsCompleted: Option<nat>): (r: Option<int>)
    ensures r.Some? <==> jobsCompleted.Some? && jobsCompleted.value > 0
    ensures r.Some? ==> var t := if totalEarnings.Some? then totalEarnings.value else 0;
      var n := jobsCompleted.value;
      2 * n * r.value <= 2 * t + n < 2 * n * (r.value + 1)
  {
    if jobsCompleted.Some? && jobsCompleted.value > 0 then
      Some(RoundedAverage(if totalEarnings.Some? then totalEarnings.value else 0, jobsCompleted.value))
    else None
  }

  /**
   * "Rate Freelancer": offered on completed jobs only, and rates the
   * freelancer of the first accepted application of that same job; without
   * one the button does nothing.
   */
  function RateTarget(job: Job, apps: seq<Application>): (r: Option<UserId>)
    ensures job.status != Completed ==> r.None?
    ensures r.Some? ==> exists a :: a in apps && a.jobId == job.id && a.status == Accepted && a.freelancerId == r.value
    ensures job.status == Completed && r.None? ==> forall a :: a in apps ==> !(a.jobId == job.id && a.status == Accepted)
  {
    var accepted := AcceptedOf(apps, job.id);
    if job.status != Completed || accepted == [] then None
    else
      assert accepted[0] in accepted;
      Some(accepted[0].freelancerId)
  }

  /**
   * After select-freelancer chose the only applicant `freelancer` of a job,
   * rating that job once it is completed rates exactly that freelancer.
   */
  lemma RatesTheSelectedFreelancer(job: Job, apps: seq<Application>, freelancer: UserId)
    requires job.status == Completed
    requires |ApplicationsBy(apps, job.id, freelancer)| == 1
    ensures RateTarget(job, ResolveSelection(apps, job.id, freelancer)) == Some(freelancer)
  {
    SelectionAcceptsOne(apps, job.id, freelancer);
    var a := ApplicationsBy(apps, job.id, freelancer)[0];
    assert a in ApplicationsBy(apps, job.id, freelancer);
  }
}
