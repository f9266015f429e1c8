// Reviews (server/routes/ratings.js): the per-user aggregation of GET
// /user/:userId, and the rules of submitting, editing and deleting a review.
// Ratings are whole stars: the reviews table constrains `rating` to 1..5.

module Ratings {
  import opened Common
  import opened JobTables

  // ---------------------------------------------------------------------
  // Aggregation

  /** The `reduce` that totals the ratings. */
  function Sum(s: seq<int>): int
  {
    if s == [] then 0 else s[0] + Sum(s[1..])
  }

  /**
   * `Math.round(total / count * 10)`: the average in tenths of a star,
   * rounded half up; 0 when there are no reviews.
   */
  function AverageTenths(ratings: seq<int>): (t: int)
    ensures ratings == [] ==> t == 0
    ensures ratings != [] ==>
      2 * |ratings| * t - |ratings| <= 20 * Sum(ratings) < 2 * |ratings| * t + |ratings|
  {
    if ratings == [] then 0
    else
      var n := |ratings|;
      var z := 20 * Sum(ratings) + n;
      var t := z / (2 * n);
      assert z == 2 * n * t + z % (2 * n);
      t
  }

  lemma {:induction false} SumBounds(ratings: seq<int>)
    requires forall i :: 0 <= i < |ratings| ==> 1 <= ratings[i] <= 5
    ensures |ratings| <= Sum(ratings) <= 5 * |ratings|
  {
    if ratings != [] {
      SumBounds(ratings[1..]);
    }
  }

  /** The average of whole-star ratings lies between 1.0 and 5.0 stars. */
  lemma AverageTenthsRange(ratings: seq<int>)
    requires forall i :: 0 <= i < |ratings| ==> 1 <= ratings[i] <= 5
    ensures ratings != [] ==> 10 <= AverageTenths(ratings) <= 50
    ensures ratings == [] ==> AverageTenths(ratings) == 0
  {
    if ratings != [] {
      SumBounds(ratings);
      var n, t := |ratings|, AverageTenths(ratings);
      if t > 50 {
        assert 2 * n * t >= 2 * n * 51 by { MulMono(2 * n, 51, t); }
      }
      if t < 10 {
        assert 2 * n * t <= 2 * n * 9 by { MulMono(2 * n, t, 9); }
      }
    }
  }

  lemma MulMono(k: nat, a: int, b: int)
    requires a <= b
    ensures k * a <= k * b
  {
  }

  /** When every review gives the same number of stars, that is the average. */
  lemma {:induction false} AverageOfEqualRatings(ratings: seq<int>, stars: int)
    requires ratings != [] && forall i :: 0 <= i < |ratings| ==> ratings[i] == stars
    ensures AverageTenths(ratings) == 10 * stars
  {
    SumOfEqual(ratings, stars);
    var n := |ratings|;
    assert 20 * Sum(ratings) == 2 * n * (10 * stars);
    NearestMultiple(n, AverageTenths(ratings), 10 * stars);
  }

  /** `t` rounds `2nk / 2n` to the nearest whole number only when `t` is `k`. */
  lemma NearestMultiple(n: nat, t: int, k: int)
    requires n > 0 && 2 * n * t - n <= 2 * n * k < 2 * n * t + n
    ensures t == k
  {
    var d := t - k;
    assert 2 * n * t == 2 * n * k + 2 * n * d;
    if d >= 1 {
      MulMono(2 * n, 1, d);
    } else if d <= -1 {
      MulMono(2 * n, d, -1);
    }
  }

  lemma {:induction false} SumOfEqual(ratings: seq<int>, stars: int)
    requires forall i :: 0 <= i < |ratings| ==> ratings[i] == stars
    ensures Sum(ratings) == |ratings| * stars
  {
    if ratings != [] {
      SumOfEqual(ratings[1..], stars);
    }
  }

  /**
   * The `forEach` that fills `{1: 0, …, 5: 0}` with the number of reviews
   * giving each number of stars.
   */
  method CountStars(ratings: seq<int>) returns (counts: map<int, nat>)
    requires forall i :: 0 <= i < |ratings| ==> 1 <= ratings[i] <= 5
    ensures counts.Keys == {1, 2, 3, 4, 5}
    ensures forall s :: s in counts ==> counts[s] == multiset(ratings)[s]
  {
    counts := map[1 := 0, 2 := 0, 3 := 0, 4 := 0, 5 := 0];
    var i := 0;
    while i < |ratings|
      invariant 0 <= i <= |ratings|
      invariant counts.Keys == {1, 2, 3, 4, 5}
      invariant forall s :: s in counts ==> counts[s] == multiset(ratings[..i])[s]
    {
      assert ratings[..i + 1] == ratings[..i] + [ratings[i]];
      counts := counts[ratings[i] := counts[ratings[i]] + 1];
      i := i + 1;
    }
    assert ratings[..i] == ratings;
  }

  /** The five star counts add up to the number of reviews. */
  lemma {:induction false} StarCountsTotal(ratings: seq<int>)
    requires forall i :: 0 <= i < |ratings| ==> 1 <= ratings[i] <= 5
    ensures var m := multiset(ratings); m[1] + m[2] + m[3] + m[4] + m[5] == |ratings|
  {
    if ratings != [] {
      var rest := ratings[1..];
      assert ratings == [ratings[0]] + rest;
      StarCountsTotal(rest);
      assert multiset(ratings) == multiset(rest) + multiset{ratings[0]};
      StarCountsStep(multiset(rest), ratings[0]);
    }
  }

  /** One more whole-star rating adds one to exactly one of the five counts. */
  lemma StarCountsStep(m: multiset<int>, x: int)
    requires 1 <= x <= 5
    ensures var m' := m + multiset{x};
      m'[1] + m'[2] + m'[3] + m'[4] + m'[5] == m[1] + m[2] + m[3] + m[4] + m[5] + 1
  {
    var m' := m + multiset{x};
    assert m'[x] == m[x] + 1;
    assert forall c :: c != x ==> m'[c] == m[c];
  }

  /** The body of GET /user/:userId. */
  datatype RatingSummary = RatingSummary(averageTenths: int, totalReviews: nat, counts: map<int, nat>)

  method Summarize(ratings: seq<int>) returns (s: RatingSummary)
    requires forall i :: 0 <= i < |ratings| ==> 1 <= ratings[i] <= 5
    ensures ratings == [] ==> s == RatingSummary(0, 0, map[])
    ensures ratings != [] ==>
      && s.averageTenths == AverageTenths(ratings) && 10 <= s.averageTenths <= 50
      && s.totalReviews == |ratings|
      && s.counts.Keys == {1, 2, 3, 4, 5}
      && (forall k :: k in s.counts ==> s.counts[k] == multiset(ratings)[k])
      && s.counts[1] + s.counts[2] + s.counts[3] + s.counts[4] + s.counts[5] == s.totalReviews
  {
    if ratings == [] {
      return RatingSummary(0, 0, map[]);
    }
    var counts := CountStars(ratings);
    StarCountsTotal(ratings);
    AverageTenthsRange(ratings);
    s := RatingSummary(AverageTenths(ratings), |ratings|, counts);
  }

  // ---------------------------------------------------------------------
  // The reviews table

  datatype Review = Review(
    id: RowId,
    jobId: RowId,
    reviewerId: UserId,
    reviewedId: UserId,
    rating: int,
    comment: Option<string>,
    timestamp: int)

  datatype RatingError =
    | RatingOutOfRange      // 400
    | RatedJobMissing       // 404
    | RatedJobNotCompleted  // 400
    | NoAcceptedFreelancer  // 400
    | NotParticipant        // 403
    | DuplicateReview       // 400
    | ReviewMissing         // 404
    | NotReviewer           // 403

  /** `!rating || rating < 1 || rating > 5` fails exactly when this does not hold. */
  predicate ValidRating(rating: Option<int>)
  {
    rating.Some? && 1 <= rating.value <= 5
  }

  /** The reviews with this (job, reviewer, reviewed) key. */
  function ReviewsWithKey(reviews: seq<Review>, jobId: RowId, reviewer: UserId, reviewed: UserId): (r: seq<Review>)
    ensures forall v :: v in r <==> v in reviews && v.jobId == jobId && v.reviewerId == reviewer && v.reviewedId == reviewed
    ensures |r| <= |reviews|
  {
    if reviews == [] then []
    else
      var rest := ReviewsWithKey(reviews[1..], jobId, reviewer, reviewed);
      var v := reviews[0];
      if v.jobId == jobId && v.reviewerId == reviewer && v.reviewedId == reviewed then [v] + rest else rest
  }

  /** No two reviews share a (job, reviewer, reviewed) key. */
  predicate NoDuplicateReviews(reviews: seq<Review>)
  {
    forall i, j :: 0 <= i < j < |reviews| ==>
      !(reviews[i].jobId == reviews[j].jobId && reviews[i].reviewerId == reviews[j].reviewerId
        && reviews[i].reviewedId == reviews[j].reviewedId)
  }

  lemma {:induction false} KeyedAtMostOne(reviews: seq<Review>, jobId: RowId, reviewer: UserId, reviewed: UserId)
    requires NoDuplicateReviews(reviews)
    ensures |ReviewsWithKey(reviews, jobId, reviewer, reviewed)| <= 1
  {
    if reviews != [] {
      var rest := reviews[1..];
      assert NoDuplicateReviews(rest) by {
        forall i, j | 0 <= i < j < |rest| ensures !(rest[i].jobId == rest[j].jobId && rest[i].reviewerId == rest[j].reviewerId
          && rest[i].reviewedId == rest[j].reviewedId) {
          assert rest[i] == reviews[i + 1] && rest[j] == reviews[j + 1];
        }
      }
      KeyedAtMostOne(rest, jobId, reviewer, reviewed);
      var v := reviews[0];
      if v.jobId == jobId && v.reviewerId == reviewer && v.reviewedId == reviewed {
        forall w | w in rest ensures !(w.jobId == jobId && w.reviewerId == reviewer && w.reviewedId == reviewed) {
          var j :| 0 <= j < |rest| && rest[j] == w;
          assert reviews[j + 1] == w;
        }
        NoneKeyed(rest, jobId, reviewer, reviewed);
      }
    }
  }

  /**
   * The guards of POST /, in order. The duplicate test is a `.single()`
   * lookup, so it fires only when exactly one review has the key.
   */
  function SubmitCheck(reviews: seq<Review>, jobs: seq<Job>, apps: seq<Application>, caller: UserId,
                       jobId: RowId, reviewed: UserId, rating: Option<int>): (e: Option<RatingError>)
    ensures e.None? ==> ValidRating(rating)
    ensures e.None? ==> FindJob(jobs, jobId).Some? && FindJob(jobs, jobId).value.status == Completed
    ensures e.None? ==>
      |AcceptedOf(apps, jobId)| == 1
      && (caller == FindJob(jobs, jobId).value.clientId || caller == AcceptedOf(apps, jobId)[0].freelancerId)
    ensures e.None? && NoDuplicateReviews(reviews) ==>
      forall v :: v in reviews ==> !(v.jobId == jobId && v.reviewerId == caller && v.reviewedId == reviewed)
    ensures e == Some(RatingOutOfRange) <==> !ValidRating(rating)
    ensures ValidRating(rating) && FindJob(jobs, jobId).None? ==> e == Some(RatedJobMissing)
  {
    if !ValidRating(rating) then Some(RatingOutOfRange)
    else if FindJob(jobs, jobId).None? then Some(RatedJobMissing)
    else if FindJob(jobs, jobId).value.status != Completed then Some(RatedJobNotCompleted)
    else if |AcceptedOf(apps, jobId)| != 1 then Some(NoAcceptedFreelancer)
    else if caller != FindJob(jobs, jobId).value.clientId && caller != AcceptedOf(apps, jobId)[0].freelancerId then Some(NotParticipant)
    else if |ReviewsWithKey(reviews, jobId, caller, reviewed)| == 1 then Some(DuplicateReview)
    else
      NotKeyed(reviews, jobId, caller, reviewed);
      None
  }

  lemma {:induction false} NoneKeyed(reviews: seq<Review>, jobId: RowId, reviewer: UserId, reviewed: UserId)
    requires forall w :: w in reviews ==> !(w.jobId == jobId && w.reviewerId == reviewer && w.reviewedId == reviewed)
    ensures ReviewsWithKey(reviews, jobId, reviewer, reviewed) == []
  {
    if reviews != [] {
      NoneKeyed(reviews[1..], jobId, reviewer, reviewed);
    }
  }

  /** Without duplicates, a key that does not match exactly one review matches none. */
  lemma NotKeyed(reviews: seq<Review>, jobId: RowId, reviewer: UserId, reviewed: UserId)
    requires |ReviewsWithKey(reviews, jobId, reviewer, reviewed)| != 1
    ensures NoDuplicateReviews(reviews) ==>
      forall v :: v in reviews ==> !(v.jobId == jobId && v.reviewerId == reviewer && v.reviewedId == reviewed)
  {
    if NoDuplicateReviews(reviews) {
      KeyedAtMostOne(reviews, jobId, reviewer, reviewed);
      assert ReviewsWithKey(reviews, jobId, reviewer, reviewed) == [];
    }
  }

  /** Position of the review with this id, or `|reviews|` when there is none. */
  function ReviewIndex(reviews: seq<Review>, id: RowId): (k: nat)
    ensures k <= |reviews|
    ensures k < |reviews| ==> reviews[k].id == id
    ensures forall i :: 0 <= i < k ==> reviews[i].id != id
  {
    if reviews == [] || reviews[0].id == id then 0 else 1 + ReviewIndex(reviews[1..], id)
  }

  /** `delete().eq('id', id)`. */
  function RemoveReview(reviews: seq<Review>, id: RowId): (r: seq<Review>)
    ensures forall v :: v in r <==> v in reviews && v.id != id
    ensures |r| <= |reviews|
  {
    if reviews == [] then []
    else if reviews[0].id == id then RemoveReview(reviews[1..], id)
    else [reviews[0]] + RemoveReview(reviews[1..], id)
  }

  class ReviewBook {
    var reviews: seq<Review>
    var nextId: nat

    ghost predicate Valid()
      reads this
    {
      && (forall i, j :: 0 <= i < j < |reviews| ==> reviews[i].id != reviews[j].id)
      && (forall v :: v in reviews ==> v.id < nextId && 1 <= v.rating <= 5)
      && NoDuplicateReviews(reviews)
    }

    constructor ()
      ensures Valid() && reviews == []
    {
      reviews, nextId := [], 0;
    }

    /**
     * POST / : the caller rates `reviewed` for a completed job in which the
     * caller is the client or the accepted freelancer, once per key.
     */
    method Submit(jobs: seq<Job>, apps: seq<Application>, caller: UserId, jobId: RowId, reviewed: UserId,
                  rating: Option<int>, comment: Option<string>, now: int) returns (r: Result<Review, RatingError>)
      requires Valid()
      modifies this
      ensures Valid()
      ensures SubmitCheck(old(reviews), jobs, apps, caller, jobId, reviewed, rating).Some? ==>
        r == Err(SubmitCheck(old(reviews), jobs, apps, caller, jobId, reviewed, rating).value) && unchanged(this)
      ensures SubmitCheck(old(reviews), jobs, apps, caller, jobId, reviewed, rating).None? ==>
        && r == Ok(Review(old(nextId), jobId, caller, reviewed, rating.value, NullIfEmpty(comment), now))
        && reviews == old(reviews) + [r.value]
    {
      var check := SubmitCheck(reviews, jobs, apps, caller, jobId, reviewed, rating);
      if check.Some? {
        return Err(check.value);
      }
      var v := Review(nextId, jobId, caller, reviewed, rating.value, NullIfEmpty(comment), now);
      reviews := reviews + [v];
      nextId := nextId + 1;
      r := Ok(v);
    }

    /** PUT /:reviewId : only the review's author edits, and the rating is checked again. */
    method Update(caller: UserId, reviewId: RowId, rating: Option<int>, comment: Option<string>, now: int)
      returns (r: Result<Review, RatingError>)
      requires Valid()
      modifies this
      ensures Valid()
      ensures !ValidRating(rating) ==> r == Err(RatingOutOfRange) && unchanged(this)
      ensures ValidRating(rating) && ReviewIndex(old(reviews), reviewId) == |old(reviews)| ==>
        r == Err(ReviewMissing) && unchanged(this)
      ensures ValidRating(rating) && ReviewIndex(old(reviews), reviewId) < |old(reviews)| ==>
        var k := ReviewIndex(old(reviews), reviewId);
        if old(reviews)[k].reviewerId != caller then r == Err(NotReviewer) && unchanged(this)
        else
          && r == Ok(old(reviews)[k].(rating := rating.value, comment := NullIfEmpty(comment), timestamp := now))
          && reviews == old(reviews)[k := r.value] && nextId == old(nextId)
    {
      if !ValidRating(rating) {
        return Err(RatingOutOfRange);
      }
      var k := ReviewIndex(reviews, reviewId);
      if k == |reviews| {
        return Err(ReviewMissing);
      }
      if reviews[k].reviewerId != caller {
        return Err(NotReviewer);
      }
      var v := reviews[k].(rating := rating.value, comment := NullIfEmpty(comment), timestamp := now);
      reviews := reviews[k := v];
      r := Ok(v);
      assert forall i :: 0 <= i < |reviews| ==>
        (reviews[i].id == old(reviews)[i].id && reviews[i].jobId == old(reviews)[i].jobId
         && reviews[i].reviewerId == old(reviews)[i].reviewerId && reviews[i].reviewedId == old(reviews)[i].reviewedId);
    }

    /** DELETE /:reviewId : only the review's author deletes. */
    method Delete(caller: UserId, reviewId: RowId) returns (r: Result<(), RatingError>)
      requires Valid()
      modifies this
      ensures Valid()
      ensures ReviewIndex(old(reviews), reviewId) == |old(reviews)| ==> r == Err(ReviewMissing) && unchanged(this)
      ensures ReviewIndex(old(reviews), reviewId) < |old(reviews)| ==>
        if old(reviews)[ReviewIndex(old(reviews), reviewId)].reviewerId != caller then r == Err(NotReviewer) && unchanged(this)
        else r == Ok(()) && reviews == RemoveReview(old(reviews), reviewId) && nextId == old(nextId)
    {
      var k := ReviewIndex(reviews, reviewId);
      if k == |reviews| {
        return Err(ReviewMissing);
      }
      if reviews[k].reviewerId != caller {
        return Err(NotReviewer);
      }
      RemoveKeepsValid(reviews, reviewId);
      reviews := RemoveReview(reviews, reviewId);
      r := Ok(());
    }
  }

  lemma RemoveKeepsValid(reviews: seq<Review>, id: RowId)
    requires forall i, j :: 0 <= i < j < |reviews| ==> reviews[i].id != reviews[j].id
    requires NoDuplicateReviews(reviews)
    ensures var r := RemoveReview(reviews, id);
      (forall i, j :: 0 <= i < j < |r| ==> r[i].id != r[j].id) && NoDuplicateReviews(r)
  {
    RemoveKeepsApart(reviews, id);
  }

  /** Two reviews differ in id and in their (job, reviewer, reviewed) triple. */
  predicate Apart(u: Review, v: Review)
  {
    u.id != v.id && !(u.jobId == v.jobId && u.reviewerId == v.reviewerId && u.reviewedId == v.reviewedId)
  }

  predicate AllApart(s: seq<Review>)
  {
    forall i, j :: 0 <= i < j < |s| ==> Apart(s[i], s[j])
  }

  lemma {:induction false} RemoveKeepsApart(reviews: seq<Review>, id: RowId)
    requires AllApart(reviews)
    ensures AllApart(RemoveReview(reviews, id))
  {
    if reviews != [] {
      ApartTail(reviews);
      RemoveKeepsApart(reviews[1..], id);
      if reviews[0].id != id {
        ApartCons(reviews[0], RemoveReview(reviews[1..], id));
      }
    }
  }

  lemma ApartTail(s: seq<Review>)
    requires s != [] && AllApart(s)
    ensures AllApart(s[1..])
    ensures forall v :: v in s[1..] ==> Apart(s[0], v)
  {
    forall i, j | 0 <= i < j < |s[1..]| ensures Apart(s[1..][i], s[1..][j]) {
      assert s[1..][i] == s[i + 1] && s[1..][j] == s[j + 1];
    }
    forall v | v in s[1..] ensures Apart(s[0], v) {
      var j :| 0 <= j < |s[1..]| && s[1..][j] == v;
      assert s[j + 1] == v;
    }
  }

  lemma ApartCons(x: Review, t: seq<Review>)
    requires AllApart(t) && forall v :: v in t ==> Apart(x, v)
    ensures AllApart([x] + t)
  {
    var s := [x] + t;
    forall i, j | 0 <= i < j < |s| ensures Apart(s[i], s[j]) {
      assert s[j] == t[j - 1];
      if i > 0 {
        assert s[i] == t[i - 1];
      } else {
        assert t[j - 1] in t;
      }
    }
  }
}
