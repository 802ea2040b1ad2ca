/** The per-worker review views of core/controllers/WorkerReviewsController.py:
    the reviews of one worker, and a review posted to that worker. */
module WorkerReviews {
  import opened Wrappers
  import opened Store
  import Reviews

  /** `WorkerReviewsController.get` */
  function WorkerReviewList(workers: map<Id, WorkerRow>, reviews: map<Id, ReviewRow>,
                            order: seq<Id>, pk: Id): (r: Result<seq<Id>>)
    ensures r.Fail? <==> pk !in workers
    ensures r.Fail? ==> r == Fail(NOT_FOUND, "Worker not found")
    ensures r.Ok? ==> IsSubsequence(r.value, order)
    ensures r.Ok? ==> forall id :: id in r.value <==> id in order && id in reviews && reviews[id].worker == pk
  {
    if pk !in workers then Fail(NOT_FOUND, "Worker not found")
    else Ok(Select(order, reviews, (r: ReviewRow) => r.worker == pk))
  }

  /** `WorkerReviewsController.post`: the body's `worker` is replaced by `pk`
      and the author is the requesting user. Authentication is checked before
      the worker is looked up. */
  method CreateWorkerReview(db: Database, user: Principal, pk: Id, input: Reviews.ReviewInput)
    returns (r: Result<Id>)
    requires db.Valid()
    modifies db
    ensures db.Valid()
    ensures !IsAuthenticated(user) ==> r == Fail(UNAUTHORIZED, "Authentication required")
    ensures IsAuthenticated(user) && pk !in old(db.workers) ==> r == Fail(NOT_FOUND, "Worker not found")
    ensures IsAuthenticated(user) && pk in old(db.workers) && !Reviews.IsValidInput(old(db.workers), input.(worker := Some(pk))) ==>
      r == Fail(VALIDATION_ERROR, "Invalid data")
    ensures r.Fail? ==> db.reviews == old(db.reviews)
    ensures r.Ok? <==> IsAuthenticated(user) && pk in old(db.workers) && input.rating.Some?
                       && Reviews.RATING_MIN <= input.rating.value <= Reviews.RATING_MAX
                       && Reviews.CommentAccepted(input.comment)
    ensures r.Ok? ==> r.value !in old(db.reviews)
    ensures r.Ok? ==> db.reviews == old(db.reviews)[r.value := Reviews.NewReview(input.(worker := Some(pk)), user.id)]
    ensures r.Ok? ==> db.reviews[r.value].worker == pk && db.reviews[r.value].author == user.id
    ensures db.users == old(db.users) && db.categories == old(db.categories) && db.workers == old(db.workers)
  {
    if !IsAuthenticated(user) {
      return Fail(UNAUTHORIZED, "Authentication required");
    }
    if pk !in db.workers {
      return Fail(NOT_FOUND, "Worker not found");
    }
    r := Reviews.SaveNewReview(db, user.id, input.(worker := Some(pk)));
  }

  /** A review posted through the worker's own route is listed for that worker. */
  lemma {:induction false} PostedReviewListed(workers: map<Id, WorkerRow>, reviews: map<Id, ReviewRow>,
                                              order: seq<Id>, pk: Id, id: Id, row: ReviewRow)
    requires pk in workers && id in order && row.worker == pk
    ensures var listed := WorkerReviewList(workers, reviews[id := row], order, pk);
            listed.Ok? && id in listed.value
  {
  }
}
