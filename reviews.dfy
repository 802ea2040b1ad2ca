/** The review views of core/controllers/ReviewController.py and the review
    validation of ReviewSerializer: list, create, detail, full update and
    delete, with writes restricted to the review's author. */
module Reviews {
  import opened Wrappers
  import opened Store
  import Text
  import Permissions

  const RATING_MIN := 1
  const RATING_MAX := 5

  /** A request body for a review. `author` is read-only in the serializer:
      whatever the body says there is ignored. An absent field is `None`. */
  datatype ReviewInput = ReviewInput(worker: Option<Id>, author: Option<Id>, rating: Option<int>, comment: Option<string>)

  /** The serializer's `comment` field (DRF's `CharField`, blank allowed):
      absent, or text without a NUL character; the trimmed text that is then
      saved has none either. */
  function CommentAccepted(comment: Option<string>): (ok: bool)
    ensures ok && comment.Some? ==> '\0' !in Text.Strip(comment.value, Text.WHITESPACE)
  {
    comment.None? || '\0' !in comment.value
  }

  /** `ReviewSerializer(data=...).is_valid()`: `worker` names a stored worker,
      `rating` is one of `Review.RATING_CHOICES` and the comment is accepted. */
  predicate IsValidInput(workers: map<Id, WorkerRow>, input: ReviewInput) {
    && input.worker.Some? && input.worker.value in workers
    && input.rating.Some? && RATING_MIN <= input.rating.value <= RATING_MAX
    && CommentAccepted(input.comment)
  }

  /** A body the serializer accepts saves a row about a stored worker, rated
      within `RATING_CHOICES`, whose comment has no NUL character. */
  lemma ValidInputSavesValidRow(workers: map<Id, WorkerRow>, input: ReviewInput, author: Id)
    requires IsValidInput(workers, input)
    ensures var row := NewReview(input, author);
      && row.worker in workers && row.author == author
      && RATING_MIN <= row.rating <= RATING_MAX && '\0' !in row.comment
  {
  }

  /** A comment made only of whitespace is saved blank: `trim_whitespace`
      strips it to "", which `allow_blank` accepts. */
  lemma {:induction false} BlankCommentSavedEmpty(comment: string)
    requires forall k | 0 <= k < |comment| :: comment[k] in Text.WHITESPACE
    ensures Text.Strip(comment, Text.WHITESPACE) == []
  {
  }

  /** The row a valid body creates for `author`; an absent comment is blank. */
  function NewReview(input: ReviewInput, author: Id): (row: ReviewRow)
    requires input.worker.Some? && input.rating.Some?
    ensures row.worker == input.worker.value && row.rating == input.rating.value && row.author == author
    ensures input.comment.Some? ==> row.comment == Text.Strip(input.comment.value, Text.WHITESPACE)
    ensures input.comment.None? ==> row.comment == ""
  {
    ReviewRow(input.worker.value, author, input.rating.value,
              if input.comment.Some? then Text.Strip(input.comment.value, Text.WHITESPACE) else "")
  }

  /** The row a valid full update leaves: worker, rating and (when given) the
      trimmed comment are replaced; the author is kept. */
  function UpdatedReview(current: ReviewRow, input: ReviewInput): (row: ReviewRow)
    requires input.worker.Some? && input.rating.Some?
    ensures row.author == current.author
    ensures row.worker == input.worker.value && row.rating == input.rating.value
    ensures input.comment.Some? ==> row.comment == Text.Strip(input.comment.value, Text.WHITESPACE)
    ensures input.comment.None? ==> row.comment == current.comment
  {
    ReviewRow(input.worker.value, current.author, input.rating.value,
              if input.comment.Some? then Text.Strip(input.comment.value, Text.WHITESPACE) else current.comment)
  }

  /** The exception the foreign-key lookup raises on a value `int()` rejects;
      nothing in the view catches it, so the request ends in HTTP 500. */
  const VALUE_ERROR := "ValueError"

  /** `ReviewController.get`, given the raw `worker_id` query parameter (absent
      is `None`) and `toInt`, Python's `int()` as the key lookup applies it
      (`None` where it raises): every review for an absent or empty parameter,
      a failure for a value `int()` rejects, otherwise that worker's reviews,
      in scan order. */
  function ListReviews(reviews: map<Id, ReviewRow>, order: seq<Id>, workerId: Option<string>,
                       toInt: string -> Option<int>): (r: Result<seq<Id>>)
    ensures r.Fail? <==> workerId.Some? && workerId.value != "" && toInt(workerId.value).None?
    ensures r.Fail? ==> r == Fail(INTERNAL_SERVER_ERROR, VALUE_ERROR)
    ensures r.Ok? ==> IsSubsequence(r.value, order)
    ensures r.Ok? ==> forall id :: id in r.value <==>
      id in order && id in reviews
      && (workerId.Some? && workerId.value != "" ==> reviews[id].worker == toInt(workerId.value).value)
  {
    if workerId.None? || workerId.value == "" then Ok(Select(order, reviews, (r: ReviewRow) => true))
    else match toInt(workerId.value)
      case None => Fail(INTERNAL_SERVER_ERROR, VALUE_ERROR)
      case Some(w) => Ok(Select(order, reviews, (r: ReviewRow) => r.worker == w))
  }

  /** `ReviewDetailController.get` */
  function ReviewDetail(reviews: map<Id, ReviewRow>, pk: Id): (r: Result<ReviewRow>)
    ensures r.Ok? <==> pk in reviews
    ensures r.Ok? ==> r.value == reviews[pk]
    ensures r.Fail? ==> r == Fail(NOT_FOUND, "Review not found")
  {
    Lookup(reviews, pk, "Review not found")
  }

  /** `IsOwnerOrReadOnly().has_object_permission` on a review, which has an
      `author` and no `user`: anyone may read it, only its registered author
      may update or delete it. */
  function MayWrite(verb: string, user: Principal, review: ReviewRow): (allowed: bool)
    ensures verb in Permissions.SAFE_METHODS ==> allowed
    ensures verb !in Permissions.SAFE_METHODS ==> (allowed <==> user.Registered? && user.id == review.author)
  {
    Permissions.IsOwnerOrReadOnly(verb, user, Permissions.Owners(None, Some(review.author)))
  }

  /** `serializer.is_valid()` then `serializer.save(author=...)`: the insert
      shared by both POST handlers. */
  method SaveNewReview(db: Database, author: Id, input: ReviewInput) returns (r: Result<Id>)
    requires db.Valid()
    modifies db
    ensures db.Valid()
    ensures !IsValidInput(old(db.workers), input) ==>
      r == Fail(VALIDATION_ERROR, "Invalid data") && db.reviews == old(db.reviews) && db.nextId == old(db.nextId)
    ensures IsValidInput(old(db.workers), input) ==>
      r.Ok? && r.value !in old(db.reviews) && db.reviews == old(db.reviews)[r.value := NewReview(input, author)]
    ensures db.users == old(db.users) && db.categories == old(db.categories) && db.workers == old(db.workers)
  {
    if !IsValidInput(db.workers, input) {
      return Fail(VALIDATION_ERROR, "Invalid data");
    }
    var id := db.AddReview(NewReview(input, author));
    r := Ok(id);
  }

  /** `ReviewController.post`: the author is the requesting user. */
  method CreateReview(db: Database, user: Principal, input: ReviewInput) returns (r: Result<Id>)
    requires db.Valid()
    modifies db
    ensures db.Valid()
    ensures !IsAuthenticated(user) ==>
      r == Fail(UNAUTHORIZED, "Authentication required") && db.reviews == old(db.reviews)
    ensures IsAuthenticated(user) && !IsValidInput(old(db.workers), input) ==>
      r == Fail(VALIDATION_ERROR, "Invalid data") && db.reviews == old(db.reviews)
    ensures IsAuthenticated(user) && IsValidInput(old(db.workers), input) ==>
      r.Ok? && r.value !in old(db.reviews) && db.reviews == old(db.reviews)[r.value := NewReview(input, user.id)]
    ensures db.users == old(db.users) && db.categories == old(db.categories) && db.workers == old(db.workers)
  {
    if !IsAuthenticated(user) {
      return Fail(UNAUTHORIZED, "Authentication required");
    }
    r := SaveNewReview(db, user.id, input);
  }

  /** `ReviewDetailController.put`: a full update by the author. */
  method UpdateReview(db: Database, user: Principal, pk: Id, input: ReviewInput) returns (r: Result<ReviewRow>)
    requires db.Valid()
    modifies db
    ensures db.Valid()
    ensures pk !in old(db.reviews) ==> r == Fail(NOT_FOUND, "Review not found")
    ensures pk in old(db.reviews) && !MayWrite("PUT", user, old(db.reviews)[pk]) ==>
      r == Fail(FORBIDDEN, "Not allowed")
    ensures pk in old(db.reviews) && MayWrite("PUT", user, old(db.reviews)[pk]) && !IsValidInput(old(db.workers), input) ==>
      r == Fail(VALIDATION_ERROR, "Invalid data")
    ensures r.Fail? ==> db.reviews == old(db.reviews)
    ensures r.Ok? <==> pk in old(db.reviews) && MayWrite("PUT", user, old(db.reviews)[pk]) && IsValidInput(old(db.workers), input)
    ensures r.Ok? ==> db.reviews == old(db.reviews)[pk := r.value] && r.value == UpdatedReview(old(db.reviews)[pk], input)
    ensures db.users == old(db.users) && db.categories == old(db.categories) && db.workers == old(db.workers)
    ensures db.nextId == old(db.nextId)
  {
    if pk !in db.reviews {
      return Fail(NOT_FOUND, "Review not found");
    }
    var review := db.reviews[pk];
    if !MayWrite("PUT", user, review) {
      return Fail(FORBIDDEN, "Not allowed");
    }
    if !IsValidInput(db.workers, input) {
      return Fail(VALIDATION_ERROR, "Invalid data");
    }
    var row := UpdatedReview(review, input);
    db.reviews := db.reviews[pk := row];
    r := Ok(row);
  }

  /** `ReviewDetailController.delete`: the author removes the review, and nothing else. */
  method DeleteReview(db: Database, user: Principal, pk: Id) returns (r: Result<()>)
    requires db.Valid()
    modifies db
    ensures db.Valid()
    ensures pk !in old(db.reviews) ==> r == Fail(NOT_FOUND, "Review not found")
    ensures pk in old(db.reviews) && !MayWrite("DELETE", user, old(db.reviews)[pk]) ==>
      r == Fail(FORBIDDEN, "Not allowed")
    ensures r.Ok? <==> pk in old(db.reviews) && MayWrite("DELETE", user, old(db.reviews)[pk])
    ensures r.Ok? ==> db.reviews == old(db.reviews) - {pk}
    ensures r.Fail? ==> db.reviews == old(db.reviews)
    ensures db.users == old(db.users) && db.categories == old(db.categories) && db.workers == old(db.workers)
    ensures db.nextId == old(db.nextId)
  {
    if pk !in db.reviews {
      return Fail(NOT_FOUND, "Review not found");
    }
    if !MayWrite("DELETE", user, db.reviews[pk]) {
      return Fail(FORBIDDEN, "Not allowed");
    }
    db.reviews := db.reviews - {pk};
    r := Ok(());
  }

  /** A created review shows up in the listing filtered by its worker. */
  lemma {:induction false} CreatedReviewListed(reviews: map<Id, ReviewRow>, order: seq<Id>, id: Id, row: ReviewRow,
                                               workerId: string, toInt: string -> Option<int>)
    requires id in order && workerId != "" && toInt(workerId) == Some(row.worker)
    ensures var listed := ListReviews(reviews[id := row], order, Some(workerId), toInt);
      listed.Ok? && id in listed.value
  {
  }
}
