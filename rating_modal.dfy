// The rating dialog (Social-Good-Juba-main/client/src/components/RatingModal.js):
// the chosen star, the comment box, the submit guard, the request it sends,
// and the reset after a successful submit or a cancel.

module RatingModal {
  import opened Common
  import opened JobTables
  import opened Ratings

  const CommentLimit: nat := 500

  /** The words under the stars; nothing for a value the buttons cannot produce. */
  function RatingLabel(rating: int): (r: string)
    ensures rating == 0 <==> r == "Select a rating"
    ensures 1 <= rating <= 5 ==> r in {"Poor", "Fair", "Good", "Very Good", "Excellent"}
    ensures !(0 <= rating <= 5) <==> r == ""
  {
    if rating == 1 then "Poor"
    else if rating == 2 then "Fair"
    else if rating == 3 then "Good"
    else if rating == 4 then "Very Good"
    else if rating == 5 then "Excellent"
    else if rating == 0 then "Select a rating"
    else ""
  }

  /** Ratings from 0 to 5 have pairwise different labels: one label per rating. */
  lemma LabelsDistinct(a: int, b: int)
    requires 0 <= a <= 5 && 0 <= b <= 5
    ensures RatingLabel(a) == RatingLabel(b) <==> a == b
  {
  }

  /** A star is drawn filled up to the hovered star, or up to the chosen one when none is hovered. */
  predicate StarFilled(star: int, hovered: int, rating: int)
  {
    star <= (if hovered != 0 then hovered else rating)
  }

  /** The submit button is disabled while a request runs and while no star is chosen. */
  predicate SubmitDisabled(isSubmitting: bool, rating: int)
  {
    isSubmitting || rating == 0
  }

  /** `comment.trim() || null`. */
  function CommentPayload(comment: string): (r: Option<string>)
    ensures r.None? <==> AllSpace(comment)
    ensures r.Some? ==> r.value == Trim(comment) && r.value != ""
    ensures r.Some? ==> !IsSpace(r.value[0]) && !IsSpace(r.value[|r.value| - 1])
  {
    var t := Trim(comment);
    if t == "" then None else Some(t)
  }

  /** What the dialog posts to the ratings route. */
  datatype RatingRequest = RatingRequest(jobId: RowId, reviewedUserId: UserId, rating: int, comment: Option<string>)

  /**
   * A request the dialog sends always passes the route's range check, and
   * the route stores its comment unchanged (the route's own `|| null` has
   * nothing left to do).
   */
  lemma RequestPassesRangeCheck(req: RatingRequest, comment: string, reviews: seq<Review>, jobs: seq<Job>,
                                apps: seq<Application>, caller: UserId)
    requires 1 <= req.rating <= 5 && req.comment == CommentPayload(comment)
    ensures SubmitCheck(reviews, jobs, apps, caller, req.jobId, req.reviewedUserId, Some(req.rating)) != Some(RatingOutOfRange)
    ensures NullIfEmpty(req.comment) == req.comment
  {
  }

  /** The dialog's state. */
  class RatingDialog {
    const jobId: RowId
    const reviewedUserId: UserId
    var rating: int
    var comment: string
    var hoveredRating: int

    ghost predicate Valid()
      reads this
    {
      0 <= rating <= 5 && 0 <= hoveredRating <= 5 && |comment| <= CommentLimit
    }

    constructor (jobId: RowId, reviewedUserId: UserId)
      ensures Valid()
      ensures this.jobId == jobId && this.reviewedUserId == reviewedUserId
      ensures rating == 0 && comment == "" && hoveredRating == 0
    {
      this.jobId := jobId;
      this.reviewedUserId := reviewedUserId;
      rating, comment, hoveredRating := 0, "", 0;
    }

    /** A click on one of the five stars. */
    method ChooseStar(star: int)
      requires Valid() && 1 <= star <= 5
      modifies this
      ensures Valid()
      ensures rating == star && comment == old(comment) && hoveredRating == old(hoveredRating)
    {
      rating := star;
    }

    /** Hovering a star (1 to 5) or leaving it (0). */
    method Hover(star: int)
      requires Valid() && 0 <= star <= 5
      modifies this
      ensures Valid()
      ensures hoveredRating == star && rating == old(rating) && comment == old(comment)
    {
      hoveredRating := star;
    }

    /** Typing in the comment box, whose `maxLength` keeps at most 500 characters. */
    method EditComment(text: string)
      requires Valid()
      modifies this
      ensures Valid()
      ensures comment == (if |text| <= CommentLimit then text else text[..CommentLimit])
      ensures rating == old(rating) && hoveredRating == old(hoveredRating)
    {
      comment := if |text| <= CommentLimit then text else text[..CommentLimit];
    }

    /**
     * `handleSubmit`: without a star nothing is sent; otherwise the request
     * carries the star and the normalised comment, and only a request the
     * server accepts clears the dialog (a refused one keeps what was typed).
     */
    method Submit(serverAccepts: bool) returns (sent: Option<RatingRequest>)
      requires Valid()
      modifies this
      ensures Valid()
      ensures old(rating) == 0 <==> sent.None?
      ensures sent.None? ==> unchanged(this)
      ensures sent.Some? ==> sent.value == RatingRequest(jobId, reviewedUserId, old(rating), CommentPayload(old(comment)))
      ensures sent.Some? ==> 1 <= sent.value.rating <= 5
      ensures sent.Some? && serverAccepts ==> rating == 0 && comment == ""
      ensures sent.Some? && !serverAccepts ==> rating == old(rating) && comment == old(comment)
      ensures hoveredRating == old(hoveredRating)
    {
      if rating == 0 {
        return None;
      }
      sent := Some(RatingRequest(jobId, reviewedUserId, rating, CommentPayload(comment)));
      if serverAccepts {
        rating := 0;
        comment := "";
      }
    }

    /** `handleCancel`: the star and the comment are cleared. */
    method Cancel()
      requires Valid()
      modifies this
      ensures Valid()
      ensures rating == 0 && comment == "" && hoveredRating == old(hoveredRating)
    {
      rating := 0;
      comment := "";
    }
  }
}
