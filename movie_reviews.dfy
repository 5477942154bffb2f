/**
 * The review panel of the detail dialog: the reviews shown for a movie, the
 * review form with its star row and submit guard, and the comment box of
 * each review. Both forms are shown only to a signed-in viewer.
 */
module MovieReviews {
  import opened Seqs
  import opened JsString
  import opened UserStore

  datatype ReviewForm = ReviewForm(text: string, rating: int)

  const EmptyReviewForm := ReviewForm("", 0)

  /** The submit guard: trimmed text is non-empty and a star was chosen. */
  predicate CanSubmitReview(form: ReviewForm) {
    !IsBlank(form.text) && form.rating > 0
  }

  /** What the viewer can do to the review form. */
  datatype FormEvent = TypeText(text: string) | ClickStar(star: int) | Submit

  /** The form after one event: typing replaces the text, a star sets the rating, a passing submit resets the form. */
  function ApplyEvent(form: ReviewForm, e: FormEvent): ReviewForm {
    match e
    case TypeText(t) => form.(text := t)
    case ClickStar(s) => form.(rating := s)
    case Submit => if CanSubmitReview(form) then EmptyReviewForm else form
  }

  /** The form after a run of events from the empty form. */
  function ReplayForm(events: seq<FormEvent>): ReviewForm {
    if events == [] then EmptyReviewForm else ApplyEvent(ReplayForm(events[..|events| - 1]), events[|events| - 1])
  }

  /** The star row offers 1 to 5 only. */
  predicate StarsFromRow(events: seq<FormEvent>) {
    forall i | 0 <= i < |events| :: events[i].ClickStar? ==> 1 <= events[i].star <= 5
  }

  /** With stars from the row, the form's rating stays within 0..5, and a form that may be submitted is rated 1..5. */
  lemma {:induction false} ReplayedRatingInRange(events: seq<FormEvent>)
    requires StarsFromRow(events)
    ensures 0 <= ReplayForm(events).rating <= 5
    ensures CanSubmitReview(ReplayForm(events)) ==> 1 <= ReplayForm(events).rating <= 5
  {
    if events != [] {
      var prefix := events[..|events| - 1];
      assert StarsFromRow(prefix) by {
        forall i | 0 <= i < |prefix| ensures prefix[i].ClickStar? ==> 1 <= prefix[i].star <= 5 {
          assert prefix[i] == events[i];
        }
      }
      ReplayedRatingInRange(prefix);
    }
  }

  /** `handleSubmitReview(e)`: a passing form becomes a review of this movie and the form resets. */
  method HandleSubmitReview(account: UserStore.Store, movieId: int, form: ReviewForm, newId: string, now: string)
    returns (next: ReviewForm)
    requires account.user.Some?
    modifies account`reviews
    ensures next == ApplyEvent(form, Submit)
    ensures CanSubmitReview(form) ==>
      account.reviews == old(account.reviews) + [Review(newId, movieId, account.user.value.id, form.text, form.rating, now, 0, [])]
    ensures !CanSubmitReview(form) ==> account.reviews == old(account.reviews)
  {
    next := form;
    if CanSubmitReview(form) {
      account.AddReview(movieId, ReviewDraft(form.text, form.rating), newId, now);
      next := EmptyReviewForm;
    }
  }

  /** `handleSubmitComment(e)`: a comment with visible text goes on the review and the box is cleared. */
  method HandleSubmitComment(account: UserStore.Store, reviewId: string, comment: string, newId: string, now: string)
    returns (nextComment: string)
    requires account.user.Some?
    modifies account`reviews
    ensures !IsBlank(comment) ==>
      account.reviews == WithComment(old(account.reviews), reviewId, Comment(newId, account.user.value.id, comment, now))
      && nextComment == ""
    ensures IsBlank(comment) ==> account.reviews == old(account.reviews) && nextComment == comment
  {
    nextComment := comment;
    if !IsBlank(comment) {
      account.AddComment(reviewId, comment, newId, now);
      nextComment := "";
    }
  }

  function ReviewMovieIdOf(r: Review): int { r.movieId }

  /** `reviews.filter(review => review.movieId === movieId)` */
  function MovieReviewsOf(reviews: seq<Review>, movieId: int): seq<Review> {
    FilterKeep(reviews, ReviewMovieIdOf, movieId)
  }

  /** The panel shows exactly the reviews of this movie, in store order, each as often as the store holds it. */
  lemma MovieReviewsExact(reviews: seq<Review>, movieId: int)
    ensures IsSubsequence(MovieReviewsOf(reviews, movieId), reviews)
    ensures forall i | 0 <= i < |MovieReviewsOf(reviews, movieId)| :: MovieReviewsOf(reviews, movieId)[i].movieId == movieId
    ensures forall r :: multiset(MovieReviewsOf(reviews, movieId))[r] == if r.movieId == movieId then multiset(reviews)[r] else 0
  {
    FilterKeepExact(reviews, ReviewMovieIdOf, movieId);
    var shown := MovieReviewsOf(reviews, movieId);
    assert forall i | 0 <= i < |shown| :: ReviewMovieIdOf(shown[i]) == movieId;
  }

  /** A review just submitted for a movie appears last in that movie's panel, and other panels are unchanged. */
  lemma SubmittedReviewShownLast(reviews: seq<Review>, r: Review, movieId: int)
    ensures MovieReviewsOf(reviews + [r], movieId) ==
      if r.movieId == movieId then MovieReviewsOf(reviews, movieId) + [r] else MovieReviewsOf(reviews, movieId)
  {
    FilterKeepAppend(reviews, [r], ReviewMovieIdOf, movieId);
    assert [r][1..] == [];
  }
}
