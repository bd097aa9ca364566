/** The Booking document: its fields, its status enumeration and its defaults. */
module BookingSchema {
  import opened Common
  import Text

  /** The four values the status enumeration admits. */
  datatype BookingStatus = Pending | Rejected | Confirmed | Completed

  /** The stored spelling of a status. */
  function StatusName(s: BookingStatus): string {
    match s
    case Pending => "pending"
    case Rejected => "rejected"
    case Confirmed => "confirmed"
    case Completed => "completed"
  }

  /** Reads a stored spelling back; any other string is not a status. */
  function ParseStatus(name: string): (r: Option<BookingStatus>)
    ensures r.Some? ==> StatusName(r.value) == name
  {
    if name == "pending" then Some(Pending)
    else if name == "rejected" then Some(Rejected)
    else if name == "confirmed" then Some(Confirmed)
    else if name == "completed" then Some(Completed)
    else None
  }

  /** Every status is spelled in lower case and reads back as itself, so the
      spellings are distinct and a lower-cased query parameter can match them. */
  lemma StatusNameRoundTrip(s: BookingStatus)
    ensures ParseStatus(StatusName(s)) == Some(s)
    ensures Text.Lower(StatusName(s)) == StatusName(s)
  {
    var n := StatusName(s);
    assert forall i :: 0 <= i < |n| ==> !('A' <= n[i] <= 'Z');
    assert Text.Lower(n) == n;
  }

  /** A booking as stored. `deletedByUsers` lists the viewers who hid it. */
  datatype Booking = Booking(
    userId: UserId,
    providerId: UserId,
    serviceName: string,
    date: string,
    time: string,
    price: int,
    address: string,
    status: BookingStatus,
    pendingRating: bool,
    skippedRating: bool,
    deletedByUsers: seq<UserId>)

  /** A booking built from the client's request: status pending, no rating pending
      or skipped, hidden from nobody. */
  function NewBooking(userId: UserId, providerId: UserId, serviceName: string, date: string,
                      time: string, price: int, address: string): (b: Booking)
    ensures b.status == Pending && !b.pendingRating && !b.skippedRating && b.deletedByUsers == []
    ensures b.userId == userId && b.providerId == providerId && b.serviceName == serviceName
    ensures b.date == date && b.time == time && b.price == price && b.address == address
  {
    Booking(userId, providerId, serviceName, date, time, price, address, Pending, false, false, [])
  }

  /** The schema's `required` validators: the strings must be non-empty (a
      price of 0 passes the `required` check on a Number). */
  predicate HasRequiredFields(b: Booking) {
    b.serviceName != "" && b.date != "" && b.time != "" && b.address != ""
  }

  /** The update `{ status: s }`; nothing else changes. */
  function WithStatus(b: Booking, s: BookingStatus): (r: Booking)
    ensures r.status == s && r.(status := b.status) == b
  {
    b.(status := s)
  }

  /** The update `{ status: "completed", pendingRating: true }`. */
  function MarkedCompleted(b: Booking): (r: Booking)
    ensures r.status == Completed && r.pendingRating
    ensures r.(status := b.status, pendingRating := b.pendingRating) == b
  {
    b.(status := Completed, pendingRating := true)
  }

  /** Adds `viewer` to `deletedByUsers` unless already there: a per-viewer
      soft delete. */
  function HiddenFor(b: Booking, viewer: UserId): (r: Booking)
    ensures viewer in r.deletedByUsers
    ensures forall u :: u in r.deletedByUsers <==> u in b.deletedByUsers || u == viewer
    ensures NoDuplicates(b.deletedByUsers) ==> NoDuplicates(r.deletedByUsers)
    ensures r.(deletedByUsers := b.deletedByUsers) == b
  {
    if viewer in b.deletedByUsers then b else b.(deletedByUsers := b.deletedByUsers + [viewer])
  }

  /** Hiding a booking twice for the same viewer is hiding it once. */
  lemma HiddenForIdempotent(b: Booking, viewer: UserId)
    ensures HiddenFor(HiddenFor(b, viewer), viewer) == HiddenFor(b, viewer)
  {
  }

  /** Neither a status change nor completion clears a pending rating: a booking
      completed and then accepted is confirmed with a rating still pending. */
  lemma PendingRatingSurvivesStatusChange(b: Booking, s: BookingStatus)
    ensures WithStatus(MarkedCompleted(b), s).pendingRating
    ensures WithStatus(MarkedCompleted(b), s).status == s
  {
  }
}
