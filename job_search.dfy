// The public job search page (Social-Good-Juba-main/client/src/pages/JobSearch.js):
// the search, status and location filters, the location options, and the
// shortened descriptions on the job cards.

module JobSearch {
  import opened Common
  import opened JobTables

  /** An empty term matches everything; otherwise the title or the description contains it, ignoring case. */
  predicate MatchesSearch(job: Job, term: string)
  {
    term == "" || Includes(Lower(job.title), Lower(term)) || Includes(Lower(job.description), Lower(term))
  }

  /** `all` matches everything; otherwise the status must be the selected one. */
  predicate MatchesStatus(job: Job, status: string)
  {
    status == "all" || StatusName(job.status) == status
  }

  /** `all` matches everything; otherwise the location contains the selected one, ignoring case. */
  predicate MatchesLocation(job: Job, location: string)
  {
    location == "all" || Includes(Lower(job.location), Lower(location))
  }

  predicate Shown(job: Job, term: string, status: string, location: string)
  {
    MatchesSearch(job, term) && MatchesStatus(job, status) && MatchesLocation(job, location)
  }

  /** `filteredJobs`: the jobs all three filters let through, in their order. */
  function FilteredJobs(jobs: seq<Job>, term: string, status: string, location: string): (r: seq<Job>)
    ensures forall j :: j in r <==> j in jobs && Shown(j, term, status, location)
    ensures |r| <= |jobs|
  {
    Filter(jobs, (j: Job) => Shown(j, term, status, location))
  }

  lemma {:induction false} FilterKeepsAll<T(!new)>(s: seq<T>, p: T -> bool)
    requires forall x :: x in s ==> p(x)
    ensures Filter(s, p) == s
  {
    if s != [] {
      assert forall x :: x in s[1..] ==> x in s;
      FilterKeepsAll(s[1..], p);
    }
  }

  /** With no search term and both filters on `all`, every job is shown, in order. */
  lemma NoFiltersShowAll(jobs: seq<Job>)
    ensures FilteredJobs(jobs, "", "all", "all") == jobs
  {
    FilterKeepsAll(jobs, (j: Job) => Shown(j, "", "all", "all"));
  }

  /** `s` without any copy of `x`, in order. */
  function RemoveAll(s: seq<string>, x: string): (r: seq<string>)
    ensures forall y :: y in r <==> y in s && y != x
    ensures |r| <= |s|
  {
    if s == [] then []
    else if s[0] == x then RemoveAll(s[1..], x)
    else [s[0]] + RemoveAll(s[1..], x)
  }

  predicate NoDuplicates(s: seq<string>)
  {
    forall i, j :: 0 <= i < j < |s| ==> s[i] != s[j]
  }

  lemma {:induction false} RemoveAllKeepsDistinct(s: seq<string>, x: string)
    requires NoDuplicates(s)
    ensures NoDuplicates(RemoveAll(s, x))
  {
    if s != [] {
      var rest := s[1..];
      assert NoDuplicates(rest) by {
        forall i, j | 0 <= i < j < |rest| ensures rest[i] != rest[j] {
          assert rest[i] == s[i + 1] && rest[j] == s[j + 1];
        }
      }
      RemoveAllKeepsDistinct(rest, x);
      if s[0] != x {
        var r := [s[0]] + RemoveAll(rest, x);
        assert s[0] !in rest by {
          forall k | 0 <= k < |rest| ensures rest[k] != s[0] {
            assert rest[k] == s[k + 1];
          }
        }
        forall i, j | 0 <= i < j < |r| ensures r[i] != r[j] {
          assert r[j] == RemoveAll(rest, x)[j - 1];
          if i > 0 {
            assert r[i] == RemoveAll(rest, x)[i - 1];
          } else {
            assert r[j] in RemoveAll(rest, x);
          }
        }
      }
    }
  }

  /** `[...new Set(s)]`: each value once, at its first position. */
  function Distinct(s: seq<string>): (r: seq<string>)
    ensures forall y :: y in r <==> y in s
    ensures NoDuplicates(r)
    decreases |s|
  {
    if s == [] then []
    else
      var rest := Distinct(RemoveAll(s[1..], s[0]));
      assert s[0] !in rest;
      [s[0]] + rest
  }

  /** `jobs.map(job => job.location)`. */
  function Locations(jobs: seq<Job>): (r: seq<string>)
    ensures |r| == |jobs|
    ensures forall i :: 0 <= i < |jobs| ==> r[i] == jobs[i].location
  {
    seq(|jobs|, i requires 0 <= i < |jobs| => jobs[i].location)
  }

  /** `uniqueLocations`: every job's location once, without empty ones. */
  function UniqueLocations(jobs: seq<Job>): (r: seq<string>)
    ensures NoDuplicates(r)
    ensures "" !in r
    ensures forall l :: l in r <==> l != "" && exists j :: j in jobs && j.location == l
  {
    var ls := Locations(jobs);
    RemoveAllKeepsDistinct(Distinct(ls), "");
    var r := RemoveAll(Distinct(ls), "");
    assert forall l :: l in ls <==> exists j :: j in jobs && j.location == l by {
      forall l ensures l in ls <==> exists j :: j in jobs && j.location == l {
        if l in ls {
          var i :| 0 <= i < |ls| && ls[i] == l;
          assert jobs[i] in jobs;
        }
        if exists j :: j in jobs && j.location == l {
          var j :| j in jobs && j.location == l;
          var i :| 0 <= i < |jobs| && jobs[i] == j;
          assert ls[i] == l;
        }
      }
    }
    r
  }

  /** Every location offered by the location filter shows at least one job. */
  lemma LocationOptionsMatch(jobs: seq<Job>, location: string)
    requires location in UniqueLocations(jobs)
    ensures FilteredJobs(jobs, "", "all", location) != []
  {
    var j :| j in jobs && j.location == location;
    assert Lower(j.location) <= Lower(j.location);
    assert Shown(j, "", "all", location);
    assert j in FilteredJobs(jobs, "", "all", location);
  }

  /** A card's description: the first 150 characters and "..." when longer. */
  function CardDescription(job: Job): (r: string)
    ensures |job.description| <= 150 ==> r == job.description
    ensures |job.description| > 150 ==> |r| == 153 && r[..150] == job.description[..150] && r[150..] == "..."
  {
    Ellipsize(job.description, 150)
  }

  /** `job.timeline || 'Not specified'`. */
  function TimelineText(job: Job): (r: string)
    ensures Present(job.timeline) ==> r == job.timeline.value
    ensures !Present(job.timeline) ==> r == "Not specified"
  {
    if Present(job.timeline) then job.timeline.value else "Not specified"
  }
}
