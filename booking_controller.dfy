/**
 * The booking handlers: creation with field validation and the first-booking
 * payment side effect, the provider's accept / reject / complete actions, the
 * client's cancel and hard delete of a pending booking, the per-viewer soft
 * delete of rejected and completed bookings, and the listings that honour it.
 */
module BookingController {
  import opened Common
  import opened BookingSchema
  import opened Store
  import PD = ProviderDetailsSchema
  import Text

  /** The request body fields bookService checks, in the order it checks them. */
  datatype Field = UserIdField | ProviderIdField | ServiceNameField | DateField | TimeField | PriceField | AddressField

  /** The name the validation message uses for a field. */
  function FieldName(f: Field): string {
    match f
    case UserIdField => "userId"
    case ProviderIdField => "providerId"
    case ServiceNameField => "serviceName"
    case DateField => "date"
    case TimeField => "time"
    case PriceField => "price"
    case AddressField => "address"
  }

  /** The position of a field in the checking order. */
  function Rank(f: Field): nat {
    match f
    case UserIdField => 0
    case ProviderIdField => 1
    case ServiceNameField => 2
    case DateField => 3
    case TimeField => 4
    case PriceField => 5
    case AddressField => 6
  }

  /** A booking request body. An absent id is None; an absent string is "";
      an absent price is 0. */
  datatype BookingRequest = BookingRequest(
    userId: Option<UserId>,
    providerId: Option<UserId>,
    serviceName: string,
    date: string,
    time: string,
    price: int,
    address: string)

  /** A field is missing when JavaScript reads it as falsy: an absent id, an
      empty string, or a price of 0. */
  predicate IsMissing(req: BookingRequest, f: Field) {
    match f
    case UserIdField => req.userId.None?
    case ProviderIdField => req.providerId.None?
    case ServiceNameField => req.serviceName == ""
    case DateField => req.date == ""
    case TimeField => req.time == ""
    case PriceField => req.price == 0
    case AddressField => req.address == ""
  }

  /** No field is missing. */
  predicate AllPresent(req: BookingRequest) {
    req.userId.Some? && req.providerId.Some? && req.serviceName != "" && req.date != ""
    && req.time != "" && req.price != 0 && req.address != ""
  }

  /** `missing` holds, in checking order, exactly the missing fields among the
      first `k` checked. */
  predicate CollectedUpTo(req: BookingRequest, missing: seq<Field>, k: nat) {
    && (forall f :: f in missing <==> Rank(f) < k && IsMissing(req, f))
    && (forall i, j :: 0 <= i < j < |missing| ==> Rank(missing[i]) < Rank(missing[j]))
  }

  /** One `if (!field) missingFields.push(...)` step. */
  lemma PushStep(req: BookingRequest, missing: seq<Field>, f: Field)
    requires CollectedUpTo(req, missing, Rank(f))
    ensures CollectedUpTo(req, if IsMissing(req, f) then missing + [f] else missing, Rank(f) + 1)
  {
    if IsMissing(req, f) {
      var m := missing + [f];
      forall i, j | 0 <= i < j < |m| ensures Rank(m[i]) < Rank(m[j]) {
        if j == |m| - 1 { assert m[i] in missing; }
      }
    }
  }

  /** One `if (!field) missingFields.push(name)` step. */
  method CheckField(req: BookingRequest, missing: seq<Field>, f: Field) returns (m: seq<Field>)
    requires CollectedUpTo(req, missing, Rank(f))
    ensures CollectedUpTo(req, m, Rank(f) + 1)
  {
    PushStep(req, missing, f);
    m := missing;
    if IsMissing(req, f) {
      m := missing + [f];
    }
  }

  /** Collects the missing fields by successive checks: exactly the falsy ones,
      in checking order. */
  method MissingFields(req: BookingRequest) returns (missing: seq<Field>)
    ensures forall f :: f in missing <==> IsMissing(req, f)
    ensures forall i, j :: 0 <= i < j < |missing| ==> Rank(missing[i]) < Rank(missing[j])
    ensures missing == [] <==> AllPresent(req)
  {
    missing := CheckField(req, [], UserIdField);
    missing := CheckField(req, missing, ProviderIdField);
    missing := CheckField(req, missing, ServiceNameField);
    missing := CheckField(req, missing, DateField);
    missing := CheckField(req, missing, TimeField);
    missing := CheckField(req, missing, PriceField);
    missing := CheckField(req, missing, AddressField);
    assert forall f :: Rank(f) < 7;
    if missing == [] {
      assert !IsMissing(req, UserIdField) && !IsMissing(req, ProviderIdField) && !IsMissing(req, ServiceNameField);
      assert !IsMissing(req, DateField) && !IsMissing(req, TimeField) && !IsMissing(req, PriceField);
      assert !IsMissing(req, AddressField);
    } else {
      assert IsMissing(req, missing[0]);
    }
  }

  /** The provider already has at least one booking on record (any status). */
  predicate HasBookings(bookings: map<BookingId, Booking>, provider: UserId) {
    exists id :: id in bookings && bookings[id].providerId == provider
  }

  /** The first-booking side effect: when the provider has no booking yet, its
      details (if any) get paymentStatus Unpaid whatever they held before. */
  function AfterFirstBooking(details: map<UserId, PD.ProviderDetails>, bookings: map<BookingId, Booking>,
                             provider: UserId): (r: map<UserId, PD.ProviderDetails>)
    ensures r.Keys == details.Keys
    ensures forall u :: u in details && u != provider ==> r[u] == details[u]
    ensures provider in details && HasBookings(bookings, provider) ==> r[provider] == details[provider]
    ensures provider in details && !HasBookings(bookings, provider) ==>
      r[provider].paymentStatus == PD.Unpaid && r[provider].(paymentStatus := details[provider].paymentStatus) == details[provider]
  {
    if provider in details && !HasBookings(bookings, provider) then
      details[provider := details[provider].(paymentStatus := PD.Unpaid)]
    else
      details
  }

  /** Once a provider has a booking, a further booking never touches its
      details: the switch to Unpaid fires only while the provider has none. */
  lemma SecondBookingLeavesDetails(details: map<UserId, PD.ProviderDetails>, bookings: map<BookingId, Booking>,
                                   id: BookingId, b: Booking)
    ensures AfterFirstBooking(details, bookings[id := b], b.providerId) == details
  {
    assert bookings[id := b][id].providerId == b.providerId;
  }

  /** The read-then-write at the start of a booking: a provider with no booking
      yet is moved to the unpaid plan. */
  method MarkFirstBooking(db: Database, provider: UserId)
    requires db.Valid()
    modifies db`details
    ensures db.Valid()
    ensures db.details == AfterFirstBooking(old(db.details), db.bookings, provider)
  {
    var existing := exists id :: id in db.bookings && db.bookings[id].providerId == provider;
    if !existing && provider in db.details {
      db.details := db.details[provider := db.details[provider].(paymentStatus := PD.Unpaid)];
    }
  }

  /** `new Booking(...).save()`: the booking is stored under a fresh id. */
  method InsertBooking(db: Database, b: Booking) returns (id: BookingId)
    requires db.Valid()
    requires NoDuplicates(b.deletedByUsers) && HasRequiredFields(b)
    modifies db`bookings, db`nextId
    ensures db.Valid()
    ensures id == old(db.nextId) && id !in old(db.bookings)
    ensures db.nextId == old(db.nextId) + 1 && db.bookings == old(db.bookings)[id := b]
  {
    id := db.nextId;
    db.bookings := db.bookings[id := b];
    db.nextId := db.nextId + 1;
  }

  /** bookService. */
  method BookService(db: Database, req: BookingRequest) returns (r: Result<BookingId>, missing: seq<Field>)
    requires db.Valid()
    modifies db`bookings, db`details, db`nextId
    ensures db.Valid()
    ensures forall f :: f in missing <==> IsMissing(req, f)
    ensures forall i, j :: 0 <= i < j < |missing| ==> Rank(missing[i]) < Rank(missing[j])
    ensures !AllPresent(req) ==> r == Err(BadRequest) && missing != []
    ensures !AllPresent(req) || req.providerId.value !in db.users || req.userId.value !in db.users ==>
      db.bookings == old(db.bookings) && db.details == old(db.details) && db.nextId == old(db.nextId)
    ensures AllPresent(req) ==> missing == []
    ensures AllPresent(req) && (req.providerId.value !in db.users || req.userId.value !in db.users) ==>
      r == Err(NotFound)
    ensures AllPresent(req) && req.providerId.value in db.users && req.userId.value in db.users ==>
      && r == Ok(old(db.nextId))
      && db.nextId == old(db.nextId) + 1
      && db.bookings == old(db.bookings)[r.value := NewBooking(req.userId.value, req.providerId.value,
           req.serviceName, req.date, req.time, req.price, req.address)]
      && db.details == AfterFirstBooking(old(db.details), old(db.bookings), req.providerId.value)
  {
    missing := MissingFields(req);
    if missing != [] {
      return Err(BadRequest), missing;
    }
    var provider, client := req.providerId.value, req.userId.value;
    if provider !in db.users {
      return Err(NotFound), missing;
    }
    if client !in db.users {
      return Err(NotFound), missing;
    }
    MarkFirstBooking(db, provider);
    var id := InsertBooking(db, NewBooking(client, provider, req.serviceName, req.date, req.time, req.price, req.address));
    r := Ok(id);
  }

  /** acceptBooking and rejectBooking: the status is written whatever it was;
      the confirmation email then dereferences the client, which throws when
      the client's account is gone. */
  method SetStatusByProvider(db: Database, id: BookingId, s: BookingStatus) returns (r: Result<()>)
    requires db.Valid()
    requires s == Confirmed || s == Rejected
    modifies db`bookings
    ensures db.Valid()
    ensures id !in old(db.bookings) ==> r == Err(NotFound) && db.bookings == old(db.bookings)
    ensures id in old(db.bookings) ==>
      && db.bookings == old(db.bookings)[id := WithStatus(old(db.bookings)[id], s)]
      && r == (if old(db.bookings)[id].userId in db.users then Ok(()) else Err(ServerError))
  {
    if id !in db.bookings {
      return Err(NotFound);
    }
    var b := db.bookings[id];
    db.bookings := db.bookings[id := WithStatus(b, s)];
    r := if b.userId in db.users then Ok(()) else Err(ServerError);
  }

  /** acceptBooking. */
  method AcceptBooking(db: Database, id: BookingId) returns (r: Result<()>)
    requires db.Valid()
    modifies db`bookings
    ensures db.Valid()
    ensures id !in old(db.bookings) ==> r == Err(NotFound) && db.bookings == old(db.bookings)
    ensures id in old(db.bookings) ==>
      && db.bookings == old(db.bookings)[id := WithStatus(old(db.bookings)[id], Confirmed)]
      && r == (if old(db.bookings)[id].userId in db.users then Ok(()) else Err(ServerError))
  {
    r := SetStatusByProvider(db, id, Confirmed);
  }

  /** rejectBooking. */
  method RejectBooking(db: Database, id: BookingId) returns (r: Result<()>)
    requires db.Valid()
    modifies db`bookings
    ensures db.Valid()
    ensures id !in old(db.bookings) ==> r == Err(NotFound) && db.bookings == old(db.bookings)
    ensures id in old(db.bookings) ==>
      && db.bookings == old(db.bookings)[id := WithStatus(old(db.bookings)[id], Rejected)]
      && r == (if old(db.bookings)[id].userId in db.users then Ok(()) else Err(ServerError))
  {
    r := SetStatusByProvider(db, id, Rejected);
  }

  /** completeJob: the write comes first, so a missing client (404) or a missing
      provider (500, thrown while building the email) leaves it in place. */
  method CompleteJob(db: Database, id: BookingId) returns (r: Result<()>)
    requires db.Valid()
    modifies db`bookings
    ensures db.Valid()
    ensures id !in old(db.bookings) ==> r == Err(NotFound) && db.bookings == old(db.bookings)
    ensures id in old(db.bookings) ==>
      && db.bookings == old(db.bookings)[id := MarkedCompleted(old(db.bookings)[id])]
      && r == (if old(db.bookings)[id].userId !in db.users then Err(NotFound)
               else if old(db.bookings)[id].providerId !in db.users then Err(ServerError)
               else Ok(()))
  {
    if id !in db.bookings {
      return Err(NotFound);
    }
    var b := db.bookings[id];
    db.bookings := db.bookings[id := MarkedCompleted(b)];
    if b.userId !in db.users {
      return Err(NotFound);
    }
    if b.providerId !in db.users {
      return Err(ServerError);
    }
    r := Ok(());
  }

  /** The filter `{ _id, userId: client, status: "pending" }` matches. */
  predicate PendingOwnedBy(bookings: map<BookingId, Booking>, id: BookingId, client: UserId) {
    id in bookings && bookings[id].userId == client && bookings[id].status == Pending
  }

  /** cancelBooking: an owned pending booking becomes rejected; anything else is
      a 404 and changes nothing. */
  method CancelBooking(db: Database, id: BookingId, client: UserId) returns (r: Result<()>)
    requires db.Valid()
    modifies db`bookings
    ensures db.Valid()
    ensures PendingOwnedBy(old(db.bookings), id, client) ==>
      r == Ok(()) && db.bookings == old(db.bookings)[id := WithStatus(old(db.bookings)[id], Rejected)]
    ensures !PendingOwnedBy(old(db.bookings), id, client) ==> r == Err(NotFound) && db.bookings == old(db.bookings)
  {
    if !PendingOwnedBy(db.bookings, id, client) {
      return Err(NotFound);
    }
    db.bookings := db.bookings[id := WithStatus(db.bookings[id], Rejected)];
    r := Ok(());
  }

  /** deletePendingRecord: an owned pending booking is removed from the store;
      anything else is a 404 and changes nothing. */
  method DeletePendingRecord(db: Database, id: BookingId, client: UserId) returns (r: Result<()>)
    requires db.Valid()
    modifies db`bookings
    ensures db.Valid()
    ensures PendingOwnedBy(old(db.bookings), id, client) ==> r == Ok(()) && db.bookings == old(db.bookings) - {id}
    ensures !PendingOwnedBy(old(db.bookings), id, client) ==> r == Err(NotFound) && db.bookings == old(db.bookings)
  {
    if !PendingOwnedBy(db.bookings, id, client) {
      return Err(NotFound);
    }
    db.bookings := db.bookings - {id};
    r := Ok(());
  }

  /** The common body of the two soft-delete handlers: a booking in the expected
      status is hidden for the viewer (at most one entry per viewer); a booking
      in another status is a 400. */
  method SoftDelete(db: Database, id: BookingId, viewer: UserId, expected: BookingStatus) returns (r: Result<()>)
    requires db.Valid()
    modifies db`bookings
    ensures db.Valid()
    ensures id !in old(db.bookings) ==> r == Err(NotFound) && db.bookings == old(db.bookings)
    ensures id in old(db.bookings) && old(db.bookings)[id].status != expected ==>
      r == Err(BadRequest) && db.bookings == old(db.bookings)
    ensures id in old(db.bookings) && old(db.bookings)[id].status == expected ==>
      r == Ok(()) && db.bookings == old(db.bookings)[id := HiddenFor(old(db.bookings)[id], viewer)]
  {
    if id !in db.bookings {
      return Err(NotFound);
    }
    var b := db.bookings[id];
    if b.status != expected {
      return Err(BadRequest);
    }
    if viewer !in b.deletedByUsers {
      db.bookings := db.bookings[id := b.(deletedByUsers := b.deletedByUsers + [viewer])];
    }
    r := Ok(());
  }

  /** deleteRejectedRecord (PUT /rejected/:id). */
  method DeleteRejectedRecord(db: Database, id: BookingId, viewer: UserId) returns (r: Result<()>)
    requires db.Valid()
    modifies db`bookings
    ensures db.Valid()
    ensures id !in old(db.bookings) ==> r == Err(NotFound) && db.bookings == old(db.bookings)
    ensures id in old(db.bookings) && old(db.bookings)[id].status != Rejected ==>
      r == Err(BadRequest) && db.bookings == old(db.bookings)
    ensures id in old(db.bookings) && old(db.bookings)[id].status == Rejected ==>
      r == Ok(()) && db.bookings == old(db.bookings)[id := HiddenFor(old(db.bookings)[id], viewer)]
  {
    r := SoftDelete(db, id, viewer, Rejected);
  }

  /** deleteCompletedJob (PUT /completed/:id). */
  method DeleteCompletedJob(db: Database, id: BookingId, viewer: UserId) returns (r: Result<()>)
    requires db.Valid()
    modifies db`bookings
    ensures db.Valid()
    ensures id !in old(db.bookings) ==> r == Err(NotFound) && db.bookings == old(db.bookings)
    ensures id in old(db.bookings) && old(db.bookings)[id].status != Completed ==>
      r == Err(BadRequest) && db.bookings == old(db.bookings)
    ensures id in old(db.bookings) && old(db.bookings)[id].status == Completed ==>
      r == Ok(()) && db.bookings == old(db.bookings)[id := HiddenFor(old(db.bookings)[id], viewer)]
  {
    r := SoftDelete(db, id, viewer, Completed);
  }

  /** getBookingsForProvider: the provider's bookings whose stored status
      equals the lower-cased path parameter, that is, whose status the
      lower-cased parameter spells; for "completed" and "rejected" the ones the
      provider hid are left out. */
  function ProviderBookings(bookings: map<BookingId, Booking>, provider: UserId, status: string): (r: set<BookingId>)
    ensures r <= bookings.Keys
    ensures forall id :: id in r ==>
              bookings[id].providerId == provider && StatusName(bookings[id].status) == Text.Lower(status)
    ensures forall id :: id in r && (bookings[id].status == Completed || bookings[id].status == Rejected) ==>
              provider !in bookings[id].deletedByUsers
    ensures forall id :: (id in bookings && bookings[id].providerId == provider && provider !in bookings[id].deletedByUsers
                          && StatusName(bookings[id].status) == Text.Lower(status)) ==> id in r
    ensures forall id :: (id in bookings && bookings[id].providerId == provider
                          && bookings[id].status != Completed && bookings[id].status != Rejected
                          && StatusName(bookings[id].status) == Text.Lower(status)) ==> id in r
  {
    var s := ParseStatus(Text.Lower(status));
    if s.None? then
      assert forall id :: id in bookings ==> StatusName(bookings[id].status) != Text.Lower(status) by {
        forall id | id in bookings ensures StatusName(bookings[id].status) != Text.Lower(status) {
          StatusNameRoundTrip(bookings[id].status);
        }
      }
      {}
    else
      assert forall id :: id in bookings ==> (StatusName(bookings[id].status) == Text.Lower(status) <==> bookings[id].status == s.value) by {
        forall id | id in bookings
          ensures StatusName(bookings[id].status) == Text.Lower(status) <==> bookings[id].status == s.value {
          StatusNameRoundTrip(bookings[id].status);
        }
      }
      set id | id in bookings && bookings[id].providerId == provider && bookings[id].status == s.value
                  && ((s.value == Completed || s.value == Rejected) ==> provider !in bookings[id].deletedByUsers)
  }

  /** getAllHistory (status pending), getCompletedHistory and getRejectedHistory:
      the client's bookings in that status that the client has not hidden. */
  function ClientHistory(bookings: map<BookingId, Booking>, client: UserId, status: BookingStatus): (r: set<BookingId>)
    ensures r <= bookings.Keys
    ensures forall id :: id in r ==> bookings[id].userId == client && bookings[id].status == status
    ensures forall id :: id in bookings && bookings[id].userId == client && bookings[id].status == status ==>
              (id in r <==> client !in bookings[id].deletedByUsers)
  {
    set id | id in bookings && bookings[id].userId == client && bookings[id].status == status
                && client !in bookings[id].deletedByUsers
  }

  /** The provider listing ignores the case of the status parameter, and a
      parameter that spells no status lists nothing. */
  lemma ProviderListingCaseInsensitive(bookings: map<BookingId, Booking>, provider: UserId, status: string)
    ensures ProviderBookings(bookings, provider, status) == ProviderBookings(bookings, provider, Text.Lower(status))
    ensures ParseStatus(Text.Lower(status)).None? ==> ProviderBookings(bookings, provider, status) == {}
  {
    Text.LowerIdempotent(status);
  }

  /** A soft delete by `viewer` hides the booking from the viewer's own client
      history and from the viewer's provider listing of its status, and changes
      no listing of any other user. */
  lemma SoftDeleteIsolation(bookings: map<BookingId, Booking>, id: BookingId, viewer: UserId,
                            other: UserId, status: BookingStatus, param: string)
    requires id in bookings
    requires bookings[id].status == Rejected || bookings[id].status == Completed
    requires other != viewer
    ensures var after := bookings[id := HiddenFor(bookings[id], viewer)];
      && ClientHistory(after, viewer, status) == ClientHistory(bookings, viewer, status) - {id}
      && ProviderBookings(after, viewer, param) == ProviderBookings(bookings, viewer, param) - {id}
      && ClientHistory(after, other, status) == ClientHistory(bookings, other, status)
      && ProviderBookings(after, other, param) == ProviderBookings(bookings, other, param)
  {
    var after := bookings[id := HiddenFor(bookings[id], viewer)];
    assert id !in ProviderBookings(after, viewer, param);
  }

  /** The provider's hide list only filters completed and rejected bookings: a
      rejected booking the provider hid and then accepted is listed again under
      "confirmed", while its client's rejected history no longer shows it. */
  lemma HiddenThenAcceptedListedAgain(bookings: map<BookingId, Booking>, id: BookingId)
    requires id in bookings && bookings[id].status == Rejected
    ensures var provider := bookings[id].providerId;
      var hidden := bookings[id := HiddenFor(bookings[id], provider)];
      var accepted := hidden[id := WithStatus(hidden[id], Confirmed)];
      && id !in ProviderBookings(hidden, provider, "rejected")
      && id in ProviderBookings(accepted, provider, "confirmed")
      && id !in ClientHistory(accepted, bookings[id].userId, Rejected)
  {
    var provider := bookings[id].providerId;
    var hidden := bookings[id := HiddenFor(bookings[id], provider)];
    var accepted := hidden[id := WithStatus(hidden[id], Confirmed)];
    StatusNameRoundTrip(Rejected);
    StatusNameRoundTrip(Confirmed);
    assert StatusName(accepted[id].status) == Text.Lower("confirmed");
  }

  /** A booking just created shows in its client's pending history and in its
      provider's pending listing. */
  lemma NewBookingListed(bookings: map<BookingId, Booking>, id: BookingId, client: UserId, provider: UserId,
                         serviceName: string, date: string, time: string, price: int, address: string)
    ensures var after := bookings[id := NewBooking(client, provider, serviceName, date, time, price, address)];
      id in ClientHistory(after, client, Pending) && id in ProviderBookings(after, provider, "pending")
  {
    var after := bookings[id := NewBooking(client, provider, serviceName, date, time, price, address)];
    StatusNameRoundTrip(Pending);
    assert after[id].providerId == provider && StatusName(after[id].status) == Text.Lower("pending");
  }
}
