/**
 * The review handlers: submitting one review for a completed booking,
 * skipping the review instead, and the client's list of bookings still
 * awaiting a rating.
 */
module ReviewController {
  import opened Common
  import opened BookingSchema
  import opened ReviewSchema
  import opened Store
  import Text

  /** The handler's rating guard `!rating || rating < 1 || rating > 5`,
      negated: the ratings it lets through. */
  function RatingAccepted(rating: int): (ok: bool)
    ensures ok <==> RatingInBounds(rating)
  {
    !(rating == 0 || rating < 1 || rating > 5)
  }

  /** The eligibility test shared by submit and skip. */
  predicate Eligible(b: Booking)
    ensures Eligible(b) <==> MarkedCompleted(b) == b
  {
    b.pendingRating && b.status == Completed
  }

  /** Some review already references the booking. */
  predicate HasReview(reviews: map<ReviewId, Review>, bookingId: BookingId) {
    exists id :: id in reviews && reviews[id].bookingId == bookingId
  }

  /** The booking after a review was submitted for it. */
  function Reviewed(b: Booking): (r: Booking)
    ensures !Eligible(r) && r.status == b.status
  {
    b.(pendingRating := false)
  }

  /** The booking after its review was skipped. */
  function Skipped(b: Booking): (r: Booking)
    ensures !Eligible(r) && r.status == b.status && r.skippedRating
  {
    b.(pendingRating := false, skippedRating := true)
  }

  /** submitReview. An absent or unknown booking id is a 404; review text that
      is still over 1000 characters after trimming fails the save (500). The
      review takes its client and provider from the booking. */
  method SubmitReview(db: Database, bookingId: Option<BookingId>, rating: int, text: string)
      returns (r: Result<ReviewId>)
    requires db.Valid()
    modifies db`reviews, db`bookings, db`nextId
    ensures db.Valid()
    ensures r.Err? ==> db.reviews == old(db.reviews) && db.bookings == old(db.bookings) && db.nextId == old(db.nextId)
    ensures !RatingInBounds(rating) ==> r == Err(BadRequest)
    ensures RatingInBounds(rating) && (bookingId.None? || bookingId.value !in old(db.bookings)) ==> r == Err(NotFound)
    ensures RatingInBounds(rating) && bookingId.Some? && bookingId.value in old(db.bookings) ==>
      var b := old(db.bookings)[bookingId.value];
      && (!Eligible(b) ==> r == Err(BadRequest))
      && (Eligible(b) && HasReview(old(db.reviews), bookingId.value) ==> r == Err(BadRequest))
      && (Eligible(b) && !HasReview(old(db.reviews), bookingId.value) && |Text.Trim(text)| > MaxReviewLength ==>
            r == Err(ServerError))
      && (Eligible(b) && !HasReview(old(db.reviews), bookingId.value) && |Text.Trim(text)| <= MaxReviewLength ==>
            && r == Ok(old(db.nextId))
            && db.nextId == old(db.nextId) + 1
            && db.reviews == old(db.reviews)[r.value := NewReview(bookingId.value, b.userId, b.providerId, rating, text)]
            && db.bookings == old(db.bookings)[bookingId.value := Reviewed(b)])
  {
    if !RatingAccepted(rating) {
      return Err(BadRequest);
    }
    if bookingId.None? || bookingId.value !in db.bookings {
      return Err(NotFound);
    }
    var id := bookingId.value;
    var b := db.bookings[id];
    if !b.pendingRating || b.status != Completed {
      return Err(BadRequest);
    }
    var existing := exists rid :: rid in db.reviews && db.reviews[rid].bookingId == id;
    if existing {
      return Err(BadRequest);
    }
    var review := NewReview(id, b.userId, b.providerId, rating, text);
    if |review.text| > MaxReviewLength {
      return Err(ServerError);
    }
    var rid := db.nextId;
    db.reviews := db.reviews[rid := review];
    db.nextId := db.nextId + 1;
    db.bookings := db.bookings[id := Reviewed(b)];
    r := Ok(rid);
  }

  /** skipReview: the same eligibility test, no review check, no review made. */
  method SkipReview(db: Database, bookingId: Option<BookingId>) returns (r: Result<()>)
    requires db.Valid()
    modifies db`bookings
    ensures db.Valid()
    ensures bookingId.None? || bookingId.value !in old(db.bookings) ==>
      r == Err(NotFound) && db.bookings == old(db.bookings)
    ensures bookingId.Some? && bookingId.value in old(db.bookings) && !Eligible(old(db.bookings)[bookingId.value]) ==>
      r == Err(BadRequest) && db.bookings == old(db.bookings)
    ensures bookingId.Some? && bookingId.value in old(db.bookings) && Eligible(old(db.bookings)[bookingId.value]) ==>
      r == Ok(()) && db.bookings == old(db.bookings)[bookingId.value := Skipped(old(db.bookings)[bookingId.value])]
  {
    if bookingId.None? || bookingId.value !in db.bookings {
      return Err(NotFound);
    }
    var id := bookingId.value;
    var b := db.bookings[id];
    if !b.pendingRating || b.status != Completed {
      return Err(BadRequest);
    }
    db.bookings := db.bookings[id := Skipped(b)];
    r := Ok(());
  }

  /** getPendingReviews: the client's completed bookings still awaiting a rating. */
  function PendingReviews(bookings: map<BookingId, Booking>, client: UserId): (r: set<BookingId>)
    ensures r <= bookings.Keys
    ensures forall id :: id in r ==> bookings[id].userId == client && Eligible(bookings[id])
  {
    set id | id in bookings && bookings[id].userId == client && bookings[id].status == Completed && bookings[id].pendingRating
  }

  /** The pending list holds exactly the client's bookings that submit and skip
      would accept. */
  lemma PendingReviewsAreEligible(bookings: map<BookingId, Booking>, client: UserId, id: BookingId)
    ensures id in PendingReviews(bookings, client) <==> id in bookings && bookings[id].userId == client && Eligible(bookings[id])
  {
  }

  /** The rating cycle of one booking: completing it puts it on its client's
      pending list; submitting or skipping takes it off and makes it ineligible
      for both until it is completed again; the other bookings' entries do not
      move. */
  lemma RatingCycle(bookings: map<BookingId, Booking>, id: BookingId, other: BookingId, client: UserId)
    requires id in bookings && other != id
    ensures var done := bookings[id := MarkedCompleted(bookings[id])];
      && Eligible(done[id])
      && id in PendingReviews(done, done[id].userId)
      && !Eligible(Reviewed(done[id])) && !Eligible(Skipped(done[id]))
      && id !in PendingReviews(done[id := Reviewed(done[id])], client)
      && id !in PendingReviews(done[id := Skipped(done[id])], client)
      && Eligible(MarkedCompleted(Reviewed(done[id])))
      && (other in PendingReviews(done[id := Reviewed(done[id])], client) <==> other in PendingReviews(bookings, client))
  {
    var done := bookings[id := MarkedCompleted(bookings[id])];
    assert done[id].userId == bookings[id].userId;
  }
}
