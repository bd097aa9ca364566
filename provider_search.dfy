/**
 * The marketplace search: the visible providers whose profile offers the
 * requested service (and whose town matches the requested location), in the
 * default order — providers on the paid plan first, then those with more
 * completed bookings.
 */
module ProviderSearch {
  import opened Common
  import opened BookingSchema
  import opened Store
  import PD = ProviderDetailsSchema
  import CP = CompleteProfileSchema
  import Text
  import ProviderStatus

  /** The profile lists a service under exactly this name. */
  predicate OffersService(p: CP.Profile, serviceName: string) {
    exists i :: 0 <= i < |p.services| && p.services[i].name == serviceName
  }

  /** The location filter: only when both the requested location and the
      profile's town are non-empty must the town contain the location,
      ignoring case. */
  predicate LocationMatches(town: string, location: string)
    ensures location == "" || town == "" ==> LocationMatches(town, location)
    ensures Text.Contains(Text.Lower(town), Text.Lower(location)) ==> LocationMatches(town, location)
    ensures LocationMatches(town, location) ==> location == "" || town == "" || |location| <= |town|
  {
    location != "" && town != "" ==> Text.Contains(Text.Lower(town), Text.Lower(location))
  }

  /** The providers the search returns, in no particular order. */
  function Matches(details: map<UserId, PD.ProviderDetails>, profiles: map<UserId, CP.Profile>,
                   serviceName: string, location: string): (r: set<UserId>)
    ensures r <= ProviderStatus.ActiveProviders(details)
    ensures forall u :: u in r ==> u in profiles && OffersService(profiles[u], serviceName)
    ensures forall u :: u in r ==> LocationMatches(profiles[u].town, location)
    ensures forall u :: (u in ProviderStatus.ActiveProviders(details) && u in profiles
                         && OffersService(profiles[u], serviceName) && LocationMatches(profiles[u].town, location)) ==> u in r
    ensures location == "" ==>
              forall u :: (u in ProviderStatus.ActiveProviders(details) && u in profiles
                           && OffersService(profiles[u], serviceName)) ==> u in r
  {
    set u | u in ProviderStatus.ActiveProviders(details) && u in profiles
              && OffersService(profiles[u], serviceName) && LocationMatches(profiles[u].town, location)
  }

  /** The number of completed bookings of a provider (hidden ones included). */
  function CompletedCount(bookings: map<BookingId, Booking>, provider: UserId): nat {
    |set id | id in bookings && bookings[id].providerId == provider && bookings[id].status == Completed|
  }

  /** The two integer sort keys: 1 for the paid plan, else 0; and the number of
      completed bookings. */
  datatype Standing = Standing(paid: int, completed: nat)

  function StandingOf(details: map<UserId, PD.ProviderDetails>, bookings: map<BookingId, Booking>,
                      u: UserId): (s: Standing)
    requires u in details
    ensures s.paid == 1 <==> details[u].paymentStatus == PD.Paid
    ensures s.paid == 0 || s.paid == 1
    ensures s.completed == CompletedCount(bookings, u)
  {
    Standing(if details[u].paymentStatus == PD.Paid then 1 else 0, CompletedCount(bookings, u))
  }

  /** The comparator `bPaid - aPaid || bCompleted - aCompleted` does not put
      `b` before `a`. */
  predicate Precedes(a: Standing, b: Standing) {
    a.paid > b.paid || (a.paid == b.paid && a.completed >= b.completed)
  }

  lemma PrecedesTransitive(a: Standing, b: Standing, c: Standing)
    requires Precedes(a, b) && Precedes(b, c)
    ensures Precedes(a, c)
  {
  }

  /** A list is in the default order when each entry precedes all later ones. */
  predicate InStandingOrder(keys: map<UserId, Standing>, list: seq<UserId>) {
    forall i, j :: 0 <= i < j < |list| ==> list[i] in keys && list[j] in keys && Precedes(keys[list[i]], keys[list[j]])
  }

  /** Places `x` after the entries that precede it and before the first that
      does not: one step of a stable insertion sort. */
  method InsertByStanding(keys: map<UserId, Standing>, ys: seq<UserId>, x: UserId) returns (zs: seq<UserId>)
    requires x in keys && (forall u :: u in ys ==> u in keys)
    requires InStandingOrder(keys, ys) && NoDuplicates(ys) && x !in ys
    ensures InStandingOrder(keys, zs) && NoDuplicates(zs)
    ensures forall u :: u in zs <==> u in ys || u == x
    ensures |zs| == |ys| + 1
  {
    var k := 0;
    while k < |ys| && Precedes(keys[ys[k]], keys[x])
      invariant 0 <= k <= |ys|
      invariant forall i :: 0 <= i < k ==> Precedes(keys[ys[i]], keys[x])
    {
      k := k + 1;
    }
    zs := ys[..k] + [x] + ys[k..];
    assert forall u :: u in zs <==> u in ys[..k] || u == x || u in ys[k..];
    assert ys == ys[..k] + ys[k..];
    forall i, j | 0 <= i < j < |zs| ensures zs[i] != zs[j] {
      if i < k && j > k {
        assert zs[i] == ys[i] && zs[j] == ys[j - 1];
      } else if i > k {
        assert zs[i] == ys[i - 1] && zs[j] == ys[j - 1];
      }
    }
    forall i, j | 0 <= i < j < |zs|
      ensures zs[i] in keys && zs[j] in keys && Precedes(keys[zs[i]], keys[zs[j]])
    {
      if j == k {
      } else if i == k {
        PrecedesTransitive(keys[x], keys[ys[k]], keys[ys[j - 1]]);
      } else if i < k && j > k {
        PrecedesTransitive(keys[ys[i]], keys[x], keys[ys[j - 1]]);
      }
    }
  }

  /** Array.prototype.sort with the default comparator: the same distinct
      providers, now in standing order. */
  method SortByStanding(keys: map<UserId, Standing>, xs: seq<UserId>) returns (ys: seq<UserId>)
    requires forall u :: u in xs ==> u in keys
    requires NoDuplicates(xs)
    ensures InStandingOrder(keys, ys) && NoDuplicates(ys)
    ensures forall u :: u in ys <==> u in xs
    ensures |ys| == |xs|
  {
    ys := [];
    var i := 0;
    while i < |xs|
      invariant 0 <= i <= |xs|
      invariant InStandingOrder(keys, ys) && NoDuplicates(ys)
      invariant forall u :: u in ys <==> u in xs[..i]
      invariant forall u :: u in ys ==> u in keys
      invariant |ys| == i
    {
      assert xs[i] !in xs[..i];
      ys := InsertByStanding(keys, ys, xs[i]);
      assert xs[..i + 1] == xs[..i] + [xs[i]];
      i := i + 1;
    }
    assert xs[..i] == xs;
  }

  /** Lists the members of a set once each, in the order the store yields them. */
  method Enumerate(s: set<UserId>) returns (xs: seq<UserId>)
    ensures NoDuplicates(xs)
    ensures forall u :: u in xs <==> u in s
  {
    xs := [];
    var rest := s;
    while rest != {}
      invariant rest <= s
      invariant NoDuplicates(xs)
      invariant forall u :: u in xs <==> u in s - rest
      decreases |rest|
    {
      var u :| u in rest;
      NoDuplicatesAppend(xs, u);
      xs := xs + [u];
      rest := rest - {u};
    }
  }

  /** getVerifiedProviders with the default order. An empty service name is a
      400; a visible provider whose user account is gone makes the handler
      throw (500). */
  method SearchProviders(db: Database, serviceName: string, location: string) returns (r: Result<seq<UserId>>)
    ensures serviceName == "" ==> r == Err(BadRequest)
    ensures serviceName != "" && (exists u :: u in ProviderStatus.ActiveProviders(db.details) && u !in db.users) ==>
      r == Err(ServerError)
    ensures serviceName != "" && (forall u :: u in ProviderStatus.ActiveProviders(db.details) ==> u in db.users) ==>
      && r.Ok?
      && NoDuplicates(r.value)
      && (forall u :: u in r.value <==> u in Matches(db.details, db.profiles, serviceName, location))
      && (forall i, j :: 0 <= i < j < |r.value| ==>
            r.value[i] in db.details && r.value[j] in db.details &&
            Precedes(StandingOf(db.details, db.bookings, r.value[i]), StandingOf(db.details, db.bookings, r.value[j])))
  {
    if serviceName == "" {
      return Err(BadRequest);
    }
    var active := ProviderStatus.ActiveProviders(db.details);
    if exists u :: u in active && u !in db.users {
      return Err(ServerError);
    }
    var found := Matches(db.details, db.profiles, serviceName, location);
    var keys := map u | u in found :: StandingOf(db.details, db.bookings, u);
    var xs := Enumerate(found);
    var ys := SortByStanding(keys, xs);
    assert forall u :: u in ys ==> u in found && u in db.details && keys[u] == StandingOf(db.details, db.bookings, u);
    r := Ok(ys);
  }

  /** In the default order every provider on the paid plan comes before every
      provider that is not. */
  lemma PaidProvidersFirst(details: map<UserId, PD.ProviderDetails>, bookings: map<BookingId, Booking>,
                           list: seq<UserId>, i: int, j: int)
    requires forall k :: 0 <= k < |list| ==> list[k] in details
    requires forall a, b :: 0 <= a < b < |list| ==>
      Precedes(StandingOf(details, bookings, list[a]), StandingOf(details, bookings, list[b]))
    requires 0 <= i < j < |list| && details[list[j]].paymentStatus == PD.Paid
    ensures details[list[i]].paymentStatus == PD.Paid
  {
    var a, b := StandingOf(details, bookings, list[i]), StandingOf(details, bookings, list[j]);
    assert Precedes(a, b);
  }

  /** The location filter ignores case on both sides, and an empty location or
      an empty town lets every provider through. */
  lemma LocationFilterIgnoresCase(town: string, location: string)
    ensures LocationMatches(town, location) == LocationMatches(Text.Lower(town), Text.Lower(location))
    ensures location == "" || town == "" ==> LocationMatches(town, location)
  {
    Text.LowerIdempotent(town);
    Text.LowerIdempotent(location);
  }

  /** A town always matches a location it contains, whatever the case of
      either: the filter never drops a provider for a matching town. */
  lemma TownContainingLocationMatches(town: string, location: string, i: int)
    requires Text.OccursAt(Text.Lower(town), Text.Lower(location), i)
    ensures LocationMatches(town, location)
  {
  }

  /** A provider the search returns is visible, verified, offers the service,
      and stops being returned once its first booking moves it to the unpaid
      plan. */
  lemma SearchResultsAreActive(details: map<UserId, PD.ProviderDetails>, profiles: map<UserId, CP.Profile>,
                               serviceName: string, location: string, u: UserId)
    requires u in Matches(details, profiles, serviceName, location)
    ensures u in details && details[u].verificationStatus == PD.Verified
    ensures details[u].paymentStatus != PD.Unpaid
    ensures u in profiles && OffersService(profiles[u], serviceName)
    ensures u !in Matches(details[u := details[u].(paymentStatus := PD.Unpaid)], profiles, serviceName, location)
  {
  }
}
