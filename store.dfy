/**
 * The document store the handlers read and write: one map per collection,
 * keyed by document id (provider details and profiles by their owner's user
 * id, catalog services by their unique name), and the counter from which new
 * ids are drawn. Requests run one at a time against it.
 */
module Store {
  import opened Common
  import opened BookingSchema
  import opened ReviewSchema
  import PD = ProviderDetailsSchema
  import CP = CompleteProfileSchema

  datatype Role = Client | Provider

  /** The parts of a User document the modelled handlers use. `password` holds
      the hash computed outside the model. */
  datatype User = User(
    email: string,
    role: Role,
    password: string,
    resetOtp: Option<string>,
    resetExpires: Option<int>)

  /** An entry of the global service catalog (the Service collection). */
  datatype CatalogService = CatalogService(
    name: string, category: string, description: string, icon: string, color: string, imageUrl: string)

  /** The unique index on the user's email. */
  predicate UniqueEmails(users: map<UserId, User>) {
    forall a, b :: a in users && b in users && users[a].email == users[b].email ==> a == b
  }

  /** Every review belongs to an existing booking that has left `pending`, and
      names the booking's client and provider. */
  predicate ReviewsConsistent(bookings: map<BookingId, Booking>, reviews: map<ReviewId, Review>) {
    forall r :: r in reviews ==>
      && reviews[r].bookingId in bookings
      && bookings[reviews[r].bookingId].status != BookingStatus.Pending
      && bookings[reviews[r].bookingId].userId == reviews[r].userId
      && bookings[reviews[r].bookingId].providerId == reviews[r].providerId
  }

  class Database {
    var users: map<UserId, User>
    var bookings: map<BookingId, Booking>
    var reviews: map<ReviewId, Review>
    var details: map<UserId, PD.ProviderDetails>
    var profiles: map<UserId, CP.Profile>
    var catalog: map<string, CatalogService>
    var nextId: nat

    /** The store's invariant: ids below the counter, the unique indexes, the
        booking, review, provider-details and profile validators, catalog entries with a category,
        soft-delete lists without repeats, and paid amounts that only ever grew
        from 0 by positive payments. */
    ghost predicate Valid()
      reads this
    {
      && (forall id :: id in bookings ==> id < nextId)
      && (forall id :: id in reviews ==> id < nextId)
      && (forall u, i :: u in profiles && 0 <= i < |profiles[u].services| ==> profiles[u].services[i].id < nextId)
      && (forall id :: id in bookings ==> NoDuplicates(bookings[id].deletedByUsers))
      && (forall id :: id in bookings ==> HasRequiredFields(bookings[id]))
      && (forall id :: id in reviews ==> Saveable(reviews[id]))
      && (forall u :: u in details ==> details[u].paidAmount >= 0 && PD.HasRequiredFields(details[u]))
      && (forall u :: u in profiles ==> CP.Saveable(profiles[u]))
      && ReviewsConsistent(bookings, reviews)
      && OneReviewPerBooking(reviews)
      && UniqueEmails(users)
      && (forall n :: n in catalog ==> catalog[n].name == n && catalog[n].category != "")
    }

    /** An empty store. */
    constructor ()
      ensures Valid()
      ensures users == map[] && bookings == map[] && reviews == map[]
      ensures details == map[] && profiles == map[] && catalog == map[] && nextId == 0
    {
      users, bookings, reviews := map[], map[], map[];
      details, profiles, catalog := map[], map[], map[];
      nextId := 0;
    }
  }

  /** The user `p` holds `email` and has the Provider role. */
  predicate IsProviderWithEmail(users: map<UserId, User>, email: string, p: UserId) {
    p in users && users[p].email == email && users[p].role == Provider
  }

  /** `User.findOne({ email })` followed by the handlers' role test
      `!user || user.role !== "Provider"`. */
  method FindProviderByEmail(db: Database, email: string) returns (r: Option<UserId>)
    requires db.Valid()
    ensures r.Some? ==> IsProviderWithEmail(db.users, email, r.value)
    ensures r.None? ==> forall p :: !IsProviderWithEmail(db.users, email, p)
  {
    var u := FindUserByEmail(db, email);
    if u.None? || db.users[u.value].role != Provider {
      return None;
    }
    r := u;
  }

  /** `User.findOne({ email })`: the user holding that email, if any. */
  method FindUserByEmail(db: Database, email: string) returns (r: Option<UserId>)
    ensures r.Some? ==> r.value in db.users && db.users[r.value].email == email
    ensures r.None? ==> forall id :: id in db.users ==> db.users[id].email != email
  {
    if id :| id in db.users && db.users[id].email == email {
      r := Some(id);
    } else {
      r := None;
    }
  }
}
