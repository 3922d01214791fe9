/** The company rating widget: the star picker, the modal, and the submit guard. */
module CompanyRatingWidget {
  import opened Wrappers
  import opened Lists

  /** `hoverRating || rating`: the hovered star wins while there is one. */
  function Shown(hover: int, rating: int): int {
    if hover != 0 then hover else rating
  }

  /** The fill state of stars 1 to 5, in order: star `i` is filled when `i <= hoverRating || rating`. */
  function Stars(hover: int, rating: int): (r: seq<bool>)
    ensures |r| == 5
  {
    seq(5, i requires 0 <= i < 5 => i + 1 <= Shown(hover, rating))
  }

  function IsFilled(b: bool): bool { b }

  /** Star `i + 1` is filled exactly when it is at most the shown value. */
  lemma StarAt(hover: int, rating: int, i: int)
    requires 0 <= i < 5
    ensures Stars(hover, rating)[i] <==> i + 1 <= Shown(hover, rating)
  {
    var f := i requires 0 <= i < 5 => i + 1 <= Shown(hover, rating);
    assert Stars(hover, rating) == seq(5, f);
  }

  /** While a star is hovered, the stars up to it are filled whatever the rating; otherwise the
      stars up to the rating are. */
  lemma StarFill(hover: int, rating: int, star: int)
    requires 1 <= star <= 5
    ensures hover != 0 ==> (Stars(hover, rating)[star - 1] <==> star <= hover)
    ensures hover == 0 ==> (Stars(hover, rating)[star - 1] <==> star <= rating)
  {
    StarAt(hover, rating, star - 1);
  }

  /** The filled stars are a run from the first: as many as the shown value, within 0 to 5. */
  lemma FilledStars(hover: int, rating: int)
    ensures forall i, j :: 0 <= i <= j < 5 && Stars(hover, rating)[j] ==> Stars(hover, rating)[i]
    ensures var n := Shown(hover, rating);
      Count(Stars(hover, rating), IsFilled) == if n < 0 then 0 else if n > 5 then 5 else n
  {
    var s := Stars(hover, rating);
    forall i | 0 <= i < 5
      ensures s[i] <==> i + 1 <= Shown(hover, rating)
    {
      StarAt(hover, rating, i);
    }
    var c := (b: bool) => if b then 1 else 0;
    assert Count([s[4]], IsFilled) == c(s[4]);
    assert Count([s[3], s[4]], IsFilled) == c(s[3]) + c(s[4]) by {
      assert [s[3], s[4]][1..] == [s[4]];
    }
    assert Count([s[2], s[3], s[4]], IsFilled) == c(s[2]) + c(s[3]) + c(s[4]) by {
      assert [s[2], s[3], s[4]][1..] == [s[3], s[4]];
    }
    assert Count([s[1], s[2], s[3], s[4]], IsFilled) == c(s[1]) + c(s[2]) + c(s[3]) + c(s[4]) by {
      assert [s[1], s[2], s[3], s[4]][1..] == [s[2], s[3], s[4]];
    }
    assert Count(s, IsFilled) == c(s[0]) + c(s[1]) + c(s[2]) + c(s[3]) + c(s[4]) by {
      assert s[1..] == [s[1], s[2], s[3], s[4]];
    }
  }

  /** `data.hasRated`, `data.rating` and `data.review_text` of the earlier rating, if any. */
  datatype PriorRating = PriorRating(hasRated: bool, rating: int, reviewText: Option<string>)

  /** What the rate request carries. */
  datatype RateRequest = RateRequest(rating: int, reviewText: string)

  /** How the rate request ended: answered ok (with the new average), answered with an error,
      or thrown. */
  datatype SubmitOutcome = Accepted(averageRating: int) | Refused | Threw

  class RatingWidget {
    var showModal: bool
    var rating: int
    var hoverRating: int
    var reviewText: string
    var isSubmitting: bool
    var userRating: Option<PriorRating>
    var hasRated: bool

    constructor()
      ensures !showModal && rating == 0 && hoverRating == 0 && reviewText == ""
      ensures !isSubmitting && userRating.None? && !hasRated
    {
      showModal := false;
      rating := 0;
      hoverRating := 0;
      reviewText := "";
      isSubmitting := false;
      userRating := None;
      hasRated := false;
    }

    /** The submit button is disabled with no rating chosen or while a request is out. */
    function SubmitDisabled(): (r: bool)
      reads this
      ensures !r <==> rating != 0 && !isSubmitting
    {
      rating == 0 || isSubmitting
    }

    /** `loadUserRating`: an earlier rating marks the company as rated and fills the picker. */
    method LoadUserRating(answer: Option<PriorRating>)
      modifies this
      ensures answer.Some? && answer.value.hasRated ==>
        && userRating == answer && hasRated && rating == answer.value.rating
        && reviewText == OrDefault(answer.value.reviewText, "")
      ensures !(answer.Some? && answer.value.hasRated) ==>
        userRating == old(userRating) && hasRated == old(hasRated) && rating == old(rating) && reviewText == old(reviewText)
      ensures showModal == old(showModal) && hoverRating == old(hoverRating) && isSubmitting == old(isSubmitting)
    {
      if answer.Some? && answer.value.hasRated {
        userRating := answer;
        hasRated := true;
        rating := answer.value.rating;
        reviewText := OrDefault(answer.value.reviewText, "");
      }
    }

    /** Clicking star `star` (one of 1 to 5) chooses it. */
    method Click(star: int)
      requires 1 <= star <= 5
      modifies this
      ensures rating == star && 1 <= rating <= 5
      ensures hoverRating == 0 ==> Count(Stars(hoverRating, rating), IsFilled) == star
      ensures showModal == old(showModal) && hoverRating == old(hoverRating) && reviewText == old(reviewText)
      ensures isSubmitting == old(isSubmitting) && userRating == old(userRating) && hasRated == old(hasRated)
    {
      rating := star;
      FilledStars(hoverRating, rating);
    }

    /** Pointing at star `star` previews it. */
    method Hover(star: int)
      requires 1 <= star <= 5
      modifies this
      ensures hoverRating == star
      ensures Count(Stars(hoverRating, rating), IsFilled) == star
      ensures showModal == old(showModal) && rating == old(rating) && reviewText == old(reviewText)
      ensures isSubmitting == old(isSubmitting) && userRating == old(userRating) && hasRated == old(hasRated)
    {
      hoverRating := star;
      FilledStars(hoverRating, rating);
    }

    /** Leaving a star ends the preview: the chosen rating shows again. */
    method Leave()
      modifies this
      ensures hoverRating == 0 && Stars(hoverRating, rating) == Stars(0, rating)
      ensures showModal == old(showModal) && rating == old(rating) && reviewText == old(reviewText)
      ensures isSubmitting == old(isSubmitting) && userRating == old(userRating) && hasRated == old(hasRated)
    {
      hoverRating := 0;
    }

    method Open()
      modifies this
      ensures showModal
      ensures rating == old(rating) && hoverRating == old(hoverRating) && reviewText == old(reviewText)
      ensures isSubmitting == old(isSubmitting) && userRating == old(userRating) && hasRated == old(hasRated)
    {
      showModal := true;
    }

    method Cancel()
      modifies this
      ensures !showModal
      ensures rating == old(rating) && hoverRating == old(hoverRating) && reviewText == old(reviewText)
      ensures isSubmitting == old(isSubmitting) && userRating == old(userRating) && hasRated == old(hasRated)
    {
      showModal := false;
    }

    /** `handleSubmit`: with no rating chosen nothing happens and nothing is sent; otherwise the
        rating and review are sent, and an ok answer marks the company rated and closes the modal.
        `notified` is what `onRatingSubmitted` receives. */
    method Submit(outcome: SubmitOutcome) returns (sent: Option<RateRequest>, notified: Option<int>)
      modifies this
      ensures old(rating) == 0 ==> sent.None? && notified.None?
      ensures old(rating) == 0 ==>
        && showModal == old(showModal) && hasRated == old(hasRated) && isSubmitting == old(isSubmitting)
      ensures old(rating) != 0 ==> sent == Some(RateRequest(old(rating), old(reviewText))) && !isSubmitting
      ensures old(rating) != 0 && outcome.Accepted? ==>
        hasRated && !showModal && notified == Some(outcome.averageRating)
      ensures !(old(rating) != 0 && outcome.Accepted?) ==>
        hasRated == old(hasRated) && showModal == old(showModal) && notified.None?
      ensures rating == old(rating) && hoverRating == old(hoverRating) && reviewText == old(reviewText)
      ensures userRating == old(userRating)
    {
      if rating == 0 {
        return None, None;
      }
      isSubmitting := true;
      sent := Some(RateRequest(rating, reviewText));
      notified := None;
      if outcome.Accepted? {
        hasRated := true;
        showModal := false;
        notified := Some(outcome.averageRating);
      }
      isSubmitting := false;
    }
  }
}
