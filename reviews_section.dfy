/** The reviews panel of src/components/content/ReviewsSection.tsx: the review
    form's schema, the record a submission writes to `content/{id}/reviews`, the
    "already reviewed" test that chooses the form panel, and the star rows of the
    listing and of the rating input. The write's completion is an explicit call. */
module ReviewsSection {
  import opened Types

  const RatingTooLow := "Please select a rating."
  /** The schema library's own message for a number above the maximum. */
  const RatingTooHigh := "Number must be less than or equal to 5"
  const CommentTooShort := "Your review must be at least 10 characters."
  const CommentTooLong := "Your review cannot exceed 1000 characters."

  /** The messages the schema reports, rating first. */
  function FormIssues(rating: int, comment: string): (issues: seq<string>)
    ensures issues == [] <==> 1 <= rating <= 5 && 10 <= |comment| <= 1000
    ensures RatingTooLow in issues <==> rating < 1
    ensures CommentTooShort in issues <==> |comment| < 10
    ensures |issues| <= 2
  {
    assert |RatingTooLow| != |CommentTooShort| && |RatingTooLow| != |CommentTooLong|;
    assert |RatingTooHigh| != |CommentTooShort| && |RatingTooHigh| != |CommentTooLong|;
    (if rating < 1 then [RatingTooLow] else if rating > 5 then [RatingTooHigh] else [])
    + (if |comment| < 10 then [CommentTooShort] else if |comment| > 1000 then [CommentTooLong] else [])
  }

  /** The form starts at rating 0 and an empty comment, which the schema refuses on
      both fields. */
  lemma DefaultsAreInvalid()
    ensures FormIssues(0, "") == [RatingTooLow, CommentTooShort]
  {
  }

  /** The document a signed-in user's submission writes: the form's values, the
      user's id, name (else 'Anonymous'), photo (else '') and a server time. */
  function NewReview(user: AuthUser, rating: int, comment: string): (d: Fields)
    ensures d.Keys == {"rating", "comment", "userId", "displayName", "photoURL", "createdAt"}
    ensures d["userId"] == Str(user.uid) && d["createdAt"] == ServerTimestamp
    ensures d["rating"] == Num(rating) && d["comment"] == Str(comment)
    ensures d["displayName"] == Str(if Truthy(user.displayName) then user.displayName.value else "Anonymous")
    ensures d["photoURL"] == Str(if Truthy(user.photoURL) then user.photoURL.value else "")
  {
    map[
      "rating" := Num(rating),
      "comment" := Str(comment),
      "userId" := Str(user.uid),
      "displayName" := Str(OrDefault(user.displayName, "Anonymous")),
      "photoURL" := Str(OrDefault(user.photoURL, "")),
      "createdAt" := ServerTimestamp]
  }

  /** `reviews.some(review => review.userId === user?.uid)`: never without a user. */
  predicate HasReviewed(reviews: seq<Review>, user: Option<AuthUser>)
  {
    user.Some? && exists i :: 0 <= i < |reviews| && reviews[i].userId == user.value.uid
  }

  datatype FormPanel = LoginPrompt | AlreadyReviewed | ReviewForm

  /** The right-hand card: a login prompt without a user, the thanks note once the
      user has reviewed, the form otherwise. */
  function Panel(reviews: seq<Review>, user: Option<AuthUser>): (p: FormPanel)
    ensures p == ReviewForm <==> user.Some? && forall r :: r in reviews ==> r.userId != user.value.uid
    ensures p == LoginPrompt <==> user.None?
    ensures p == AlreadyReviewed <==> user.Some? && exists r :: r in reviews && r.userId == user.value.uid
  {
    if user.None? then LoginPrompt
    else if HasReviewed(reviews, user) then AlreadyReviewed
    else ReviewForm
  }

  /** A review stored under a user's id keeps the form hidden from that user. */
  lemma ReviewHidesForm(reviews: seq<Review>, r: Review, user: AuthUser)
    requires r in reviews && r.userId == user.uid
    ensures Panel(reviews, Some(user)) == AlreadyReviewed
    ensures Panel(reviews + [r], Some(user)) == AlreadyReviewed
  {
    assert r in reviews + [r];
  }

  /** The five display stars of a listed review: star `i` is filled when `i < rating`. */
  function StarRow(rating: int): (row: seq<bool>)
    ensures |row| == 5
    ensures forall i :: 0 <= i < 5 ==> (row[i] <==> i < rating)
  {
    seq(5, i => i < rating)
  }

  function CountTrue(row: seq<bool>): nat
  {
    if row == [] then 0 else (if row[0] then 1 else 0) + CountTrue(row[1..])
  }

  lemma {:induction false} CountTruePrefix(row: seq<bool>, k: nat)
    requires k <= |row|
    requires forall i :: 0 <= i < |row| ==> (row[i] <==> i < k)
    ensures CountTrue(row) == k
    decreases |row|
  {
    if row != [] {
      if k == 0 {
        CountTruePrefix(row[1..], 0);
      } else {
        CountTruePrefix(row[1..], k - 1);
      }
    }
  }

  /** The filled stars are a prefix and number the rating, clamped to 0..5. */
  lemma FilledStars(rating: int)
    ensures CountTrue(StarRow(rating)) == if rating < 0 then 0 else if rating > 5 then 5 else rating
  {
    var k := if rating < 0 then 0 else if rating > 5 then 5 else rating;
    CountTruePrefix(StarRow(rating), k);
  }

  /** The rating input: star `k` (1 to 5) is lit when `(hover || value) >= k`. */
  function InputStars(hover: int, value: int): (row: seq<bool>)
    ensures |row| == 5
    ensures forall i :: 0 <= i < 5 ==> (row[i] <==> (if hover != 0 then hover else value) >= i + 1)
  {
    var level := if hover != 0 then hover else value;
    seq(5, i => level >= i + 1)
  }

  /** Without a hover the input lights exactly the stars a review with that rating
      shows; a hover overrides the chosen value. */
  lemma InputAgreesWithDisplay(hover: int, value: int)
    ensures InputStars(0, value) == StarRow(value)
    ensures hover != 0 ==> InputStars(hover, value) == StarRow(hover)
  {
  }

  const LoginToast := Toast("You must be logged in to leave a review.", None, true)
  const SubmittedToast := Toast("Review submitted!", Some("Thanks for your feedback."), false)

  /** The reviews path of one content item. */
  function ReviewsPath(contentId: string): string
  {
    "content/" + contentId + "/reviews"
  }

  class ReviewComposer {
    const contentId: string
    /** The form's current values. */
    var rating: int
    var comment: string
    var isSubmitting: bool
    /** The document whose write is outstanding. */
    var pending: Option<Fields>
    /** The reviews collection as the backend holds it. */
    var store: seq<Fields>
    ghost var errors: seq<PermissionError>

    ghost predicate Valid()
      reads this
    {
      isSubmitting <==> pending.Some?
    }

    constructor (contentId: string, existing: seq<Fields>)
      ensures Valid() && this.contentId == contentId
      ensures rating == 0 && comment == "" && !isSubmitting && store == existing && errors == []
    {
      this.contentId := contentId;
      rating, comment, isSubmitting, pending := 0, "", false, None;
      store, errors := existing, [];
    }

    /** The user editing the form. */
    method Edit(r: int, c: string)
      requires Valid()
      modifies this`rating, this`comment
      ensures Valid() && rating == r && comment == c
    {
      rating, comment := r, c;
    }

    /** `onSubmit`, reached only with values the schema accepts. Without a user or a
        database: the login toast and nothing else. Otherwise the submission flag is
        set and the record's write starts. */
    method Submit(user: Option<AuthUser>, hasFirestore: bool) returns (toast: Option<Toast>)
      requires Valid() && !isSubmitting && FormIssues(rating, comment) == []
      modifies this`isSubmitting, this`pending
      ensures Valid()
      ensures user.None? || !hasFirestore ==> toast == Some(LoginToast) && !isSubmitting
      ensures user.Some? && hasFirestore ==>
        toast.None? && isSubmitting && pending == Some(NewReview(user.value, rating, comment))
    {
      if user.None? || !hasFirestore {
        return Some(LoginToast);
      }
      isSubmitting := true;
      pending := Some(NewReview(user.value, rating, comment));
      toast := None;
    }

    /** The write's completion. Accepted: the record is stored, the thanks toast
        shows and the form returns to its defaults. Refused: one `create` report for
        the reviews path with the record. The flag is cleared either way. */
    method Complete(accepted: bool) returns (toast: Option<Toast>)
      requires Valid() && isSubmitting
      modifies this
      ensures Valid() && !isSubmitting
      ensures accepted ==> (store == old(store) + [old(pending).value] && errors == old(errors)
        && toast == Some(SubmittedToast) && rating == 0 && comment == "")
      ensures !accepted ==> (store == old(store) && toast.None?
        && rating == old(rating) && comment == old(comment)
        && errors == old(errors) + [PermissionError(ReviewsPath(contentId), Create, old(pending))])
    {
      if accepted {
        store := store + [pending.value];
        rating, comment := 0, "";
        toast := Some(SubmittedToast);
      } else {
        errors := errors + [PermissionError(ReviewsPath(contentId), Create, pending)];
        toast := None;
      }
      isSubmitting := false;
      pending := None;
    }
  }

  /** A signed-in user without a name submits: the stored review names them
      'Anonymous', carries their id, and the form is reset to values the schema
      would refuse again. */
  method AnonymousSubmission(u: AuthUser, contentId: string)
    requires u.displayName.None?
  {
    var f := new ReviewComposer(contentId, []);
    f.Edit(4, "A moving, well acted story.");
    var t := f.Submit(Some(u), true);
    t := f.Complete(true);
    assert f.store[0]["displayName"] == Str("Anonymous");
    assert f.store[0]["userId"] == Str(u.uid);
    assert FormIssues(f.rating, f.comment) != [];
  }
}
