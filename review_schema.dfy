/** The Review document: one rating (and optional text) for one booking. */
module ReviewSchema {
  import opened Common
  import Text

  /** The `maxlength` of the review text. */
  const MaxReviewLength: nat := 1000

  datatype Review = Review(
    bookingId: BookingId,
    userId: UserId,
    providerId: UserId,
    rating: int,
    text: string)

  /** The `min: 1, max: 5` validators on the rating. */
  predicate RatingInBounds(rating: int) {
    1 <= rating <= 5
  }

  /** The checks a review passes when it is saved: rating bounds and text length
      (measured after the `trim` setter has run). */
  predicate Saveable(r: Review) {
    RatingInBounds(r.rating) && |r.text| <= MaxReviewLength
  }

  /** The review a save builds: the `trim` setter is applied to the text. */
  function NewReview(bookingId: BookingId, userId: UserId, providerId: UserId, rating: int, raw: string): (r: Review)
    ensures r.bookingId == bookingId && r.userId == userId && r.providerId == providerId && r.rating == rating
    ensures r.text == Text.Trim(raw)
    ensures r.text != [] ==> !Text.IsWhiteSpace(r.text[0]) && !Text.IsWhiteSpace(r.text[|r.text| - 1])
  {
    Review(bookingId, userId, providerId, rating, Text.Trim(raw))
  }

  /** The unique index on `bookingId`: no two reviews share a booking. */
  predicate OneReviewPerBooking(reviews: map<ReviewId, Review>) {
    forall a, b :: a in reviews && b in reviews && reviews[a].bookingId == reviews[b].bookingId ==> a == b
  }

  /** The compound unique index on (bookingId, userId). */
  predicate OneReviewPerBookingAndUser(reviews: map<ReviewId, Review>) {
    forall a, b ::
      a in reviews && b in reviews && reviews[a].bookingId == reviews[b].bookingId && reviews[a].userId == reviews[b].userId
      ==> a == b
  }

  /** The compound index never rejects a review the `bookingId` index admits. */
  lemma CompoundIndexImplied(reviews: map<ReviewId, Review>)
    requires OneReviewPerBooking(reviews)
    ensures OneReviewPerBookingAndUser(reviews)
  {
  }
}
