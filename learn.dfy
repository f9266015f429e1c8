// The learning page (Social-Good-Juba-main/client/src/pages/Learn.js):
// the lesson catalogue, the set of completed lessons, and the per-section
// progress percentage.

module Learn {
  import opened Common

  datatype Section = Section(id: string, lessons: seq<string>)

  /** The catalogue's section and lesson ids, in page order. */
  const LearningSections: seq<Section> := [
    Section("getting-started", ["platform-overview", "creating-account", "profile-setup"]),
    Section("for-clients", ["posting-jobs", "choosing-freelancers", "managing-projects"]),
    Section("for-freelancers", ["becoming-freelancer", "finding-jobs", "pricing-services"]),
    Section("scaling-business", ["building-reputation", "expanding-services", "time-management"]),
    Section("marketing-advertising", ["online-marketing", "social-media", "word-of-mouth"]),
    Section("financial-management", ["budgeting", "pricing-strategies", "tax-basics"])
  ]

  /** `learningSections.find(s => s.id === id)`. */
  function FindSection(sections: seq<Section>, id: string): (r: Option<Section>)
    ensures r.Some? ==> r.value in sections && r.value.id == id
    ensures r.None? <==> forall i :: 0 <= i < |sections| ==> sections[i].id != id
  {
    if sections == [] then None
    else if sections[0].id == id then Some(sections[0])
    else FindSection(sections[1..], id)
  }

  /** The section's lessons that are in the completed set. */
  function CompletedIn(s: Section, done: set<string>): (n: nat)
    ensures n <= |s.lessons|
  {
    CountIf(s.lessons, (l: string) => l in done)
  }

  /** `Math.round(100 * c / n)` for `0 <= c <= n`, `n > 0`: halves round up. */
  function RoundPercent(c: nat, n: nat): (p: nat)
    requires 0 < n && c <= n
    ensures p <= 100
    ensures 2 * n * p <= 200 * c + n < 2 * n * (p + 1)
  {
    var p := (200 * c + n) / (2 * n);
    DivBounds(200 * c + n, 2 * n);
    assert 2 * n * (p + 1) == 2 * n * p + 2 * n;
    assert 200 * c + n <= 201 * n;
    assert (2 * n) * p < (2 * n) * 101;
    MulLessCancel(2 * n, p, 101);
    p
  }

  /**
   * `getProgressPercentage(id)`: 0 for an unknown section; otherwise the
   * rounded share of its lessons completed. A section without lessons
   * divides by zero, which JavaScript shows as NaN (here `None`).
   */
  function ProgressPercentage(sections: seq<Section>, done: set<string>, id: string): (r: Option<nat>)
    ensures FindSection(sections, id).None? ==> r == Some(0)
    ensures FindSection(sections, id).Some? && FindSection(sections, id).value.lessons == [] ==> r.None?
    ensures FindSection(sections, id).Some? && FindSection(sections, id).value.lessons != [] ==>
      var s := FindSection(sections, id).value;
      r == Some(RoundPercent(CompletedIn(s, done), |s.lessons|))
  {
    var s := FindSection(sections, id);
    if s.None? then Some(0)
    else if s.value.lessons == [] then None
    else Some(RoundPercent(CompletedIn(s.value, done), |s.value.lessons|))
  }

  /** With fewer than 200 lessons, the percentage is 100 exactly when all are completed and 0 exactly when none is. */
  lemma FullExactlyWhenAllDone(c: nat, n: nat)
    requires 0 < n < 200 && c <= n
    ensures RoundPercent(c, n) == 100 <==> c == n
    ensures RoundPercent(c, n) == 0 <==> c == 0
  {
    var p := RoundPercent(c, n);
    if c == n {
      assert 2 * n * 100 <= 200 * c + n;
      assert (2 * n) * 99 < (2 * n) * p by {
        assert (2 * n) * 99 == 198 * n;
      }
      MulLessCancel(2 * n, 99, p);
    }
    if c == 0 {
      assert n < (2 * n) * (p + 1);
      assert (2 * n) * 0 < (2 * n) * 1;
      if p > 0 {
        MulMonotone(2 * n, 1, p);
      }
    }
  }

  /** Completing more lessons never lowers a percentage. */
  lemma RoundMonotone(c: nat, c': nat, n: nat)
    requires 0 < n && c <= c' <= n
    ensures RoundPercent(c, n) <= RoundPercent(c', n)
  {
    var p, p' := RoundPercent(c, n), RoundPercent(c', n);
    assert (2 * n) * p <= 200 * c + n;
    assert 200 * c' + n < (2 * n) * (p' + 1);
    assert (2 * n) * p < (2 * n) * (p' + 1);
    MulLessCancel(2 * n, p, p' + 1);
  }

  lemma {:induction false} CountMonotone(lessons: seq<string>, done: set<string>, done': set<string>)
    requires done <= done'
    ensures CountIf(lessons, (l: string) => l in done) <= CountIf(lessons, (l: string) => l in done')
  {
    if lessons != [] {
      CountMonotone(lessons[1..], done, done');
    }
  }

  /** Marking a lesson complete never lowers the progress of any section. */
  lemma MarkingNeverLowersProgress(sections: seq<Section>, done: set<string>, lesson: string, id: string)
    requires ProgressPercentage(sections, done, id).Some?
    ensures ProgressPercentage(sections, done + {lesson}, id).Some?
    ensures ProgressPercentage(sections, done, id).value <= ProgressPercentage(sections, done + {lesson}, id).value
  {
    var s := FindSection(sections, id);
    if s.Some? {
      CountMonotone(s.value.lessons, done, done + {lesson});
      RoundMonotone(CompletedIn(s.value, done), CompletedIn(s.value, done + {lesson}), |s.value.lessons|);
    }
  }

  /** `learningSections.reduce((total, s) => total + s.lessons.length, 0)`. */
  function TotalLessons(sections: seq<Section>): (n: nat)
    ensures sections == [] ==> n == 0
  {
    if sections == [] then 0 else |sections[0].lessons| + TotalLessons(sections[1..])
  }

  /** The catalogue has six sections of three lessons each: 18 lessons. */
  lemma CatalogueTotals()
    ensures |LearningSections| == 6
    ensures forall s :: s in LearningSections ==> |s.lessons| == 3
    ensures TotalLessons(LearningSections) == 18
  {
    var ls := LearningSections;
    assert TotalLessons(ls[5..]) == 3 by { assert ls[5..][1..] == []; }
    assert ls[4..][1..] == ls[5..];
    assert ls[3..][1..] == ls[4..];
    assert ls[2..][1..] == ls[3..];
    assert ls[1..][1..] == ls[2..];
  }

  /** The page's completed-lesson set. */
  class LessonProgress {
    var completed: set<string>

    constructor ()
      ensures completed == {}
    {
      completed := {};
    }

    /** `markLessonComplete(id)`: adds the lesson; marking it again changes nothing. */
    method MarkLessonComplete(lesson: string)
      modifies this
      ensures completed == old(completed) + {lesson}
      ensures lesson in old(completed) ==> completed == old(completed)
      ensures |completed| == |old(completed)| + (if lesson in old(completed) then 0 else 1)
    {
      completed := completed + {lesson};
    }
  }
}
