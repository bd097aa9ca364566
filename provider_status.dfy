/**
 * A provider's standing in the marketplace: the admin's verification verdict,
 * recorded payments, the visibility rule shared by the search and the active
 * provider count, and the unpaid-plan reminder.
 */
module ProviderStatus {
  import opened Common
  import opened Store
  import opened PD = ProviderDetailsSchema
  import BookingSchema
  import BookingController

  /** The smallest payment that is recorded. */
  const MinimumPayment: int := 180

  /** The verdicts the admin may send: "Verified" or "Rejected", nothing else. */
  function ParseVerdict(s: string): (r: Option<Verification>)
    ensures r.Some? <==> s == "Verified" || s == "Rejected"
    ensures r == Some(Verified) <==> s == "Verified"
    ensures r != Some(Pending)
  {
    if s == "Verified" then Some(Verified) else if s == "Rejected" then Some(Rejected) else None
  }

  /** `adminNotes || null`: absent or empty notes are stored as null. */
  function StoredNotes(notes: Option<string>): (r: Option<string>)
    ensures r.None? <==> notes.None? || notes.value == ""
    ensures r.Some? ==> r == notes
  {
    if notes.Some? && notes.value != "" then notes else None
  }

  /** A provider is listed in the search and counted as active when verified
      and either on the free plan or paid with a positive amount. */
  predicate Visible(d: ProviderDetails)
    ensures Visible(d) ==> d.verificationStatus == Verified && d.paymentStatus != Unpaid
    ensures Visible(d) && d.paidAmount <= 0 ==> d.paymentStatus == Free
    ensures d.verificationStatus == Verified && d.paymentStatus == Free ==> Visible(d)
    ensures d.verificationStatus == Verified && d.paymentStatus == Paid && d.paidAmount > 0 ==> Visible(d)
  {
    d.verificationStatus == Verified && (d.paymentStatus == Free || (d.paymentStatus == Paid && d.paidAmount > 0))
  }

  /** The providers the analytics endpoint counts as active. */
  function ActiveProviders(details: map<UserId, ProviderDetails>): (r: set<UserId>)
    ensures r <= details.Keys
    ensures forall u :: u in r ==> details[u].verificationStatus == Verified && details[u].paymentStatus != Unpaid
    ensures forall u :: u in details && details[u].verificationStatus == Verified && details[u].paymentStatus == Free ==> u in r
    ensures forall u :: (u in details && details[u].verificationStatus == Verified && details[u].paymentStatus == Paid
                         && details[u].paidAmount > 0) ==> u in r
  {
    set u | u in details && Visible(details[u])
  }

  /** verifyDocuments: the verdict and the notes are written for the provider
      holding `email`; nothing else of the details changes. */
  method VerifyDocuments(db: Database, email: string, verdict: string, notes: Option<string>) returns (r: Result<()>)
    requires db.Valid()
    modifies db`details
    ensures db.Valid()
    ensures r.Err? ==> db.details == old(db.details)
    ensures ParseVerdict(verdict).None? ==> r == Err(BadRequest)
    ensures ParseVerdict(verdict).Some? && (forall p :: !IsProviderWithEmail(db.users, email, p)) ==> r == Err(NotFound)
    ensures ParseVerdict(verdict).Some? ==> forall p :: IsProviderWithEmail(db.users, email, p) ==>
      && (p !in old(db.details) ==> r == Err(NotFound))
      && (p in old(db.details) ==> r == Ok(()) && db.details == old(db.details)[p :=
            old(db.details)[p].(verificationStatus := ParseVerdict(verdict).value, adminNotes := StoredNotes(notes))])
  {
    var v := ParseVerdict(verdict);
    if v.None? {
      return Err(BadRequest);
    }
    var p := FindProviderByEmail(db, email);
    if p.None? {
      return Err(NotFound);
    }
    if p.value !in db.details {
      return Err(NotFound);
    }
    db.details := db.details[p.value := db.details[p.value].(verificationStatus := v.value, adminNotes := StoredNotes(notes))];
    r := Ok(());
  }

  /** The update updatePaymentStatus saves, as written: the amount is added to
      `paidAmount`; the `isPaid` flag it also sets is not a schema path and is
      dropped, so `paymentStatus` keeps its value. */
  function RecordPayment(d: ProviderDetails, amount: int): (r: ProviderDetails)
    ensures r.paymentStatus == d.paymentStatus && r.verificationStatus == d.verificationStatus
    ensures r.paidAmount - d.paidAmount == amount
    ensures r.(paidAmount := d.paidAmount) == d
  {
    d.(paidAmount := d.paidAmount + amount)
  }

  /** The update evidently intended: the amount is added and the provider is
      marked Paid. */
  function RecordPaymentIntended(d: ProviderDetails, amount: int): (r: ProviderDetails)
    ensures r.paymentStatus == Paid && r.verificationStatus == d.verificationStatus
    ensures r.paidAmount - d.paidAmount == amount
  {
    d.(paidAmount := d.paidAmount + amount, paymentStatus := Paid)
  }

  /** updatePaymentStatus, as written. A non-positive amount is a 400; an amount
      below 180 is acknowledged but stores nothing. */
  method UpdatePaymentStatus(db: Database, email: string, amount: int) returns (r: Result<()>)
    requires db.Valid()
    modifies db`details
    ensures db.Valid()
    ensures r.Err? || amount < MinimumPayment ==> db.details == old(db.details)
    ensures amount <= 0 ==> r == Err(BadRequest)
    ensures amount > 0 && (forall p :: !IsProviderWithEmail(db.users, email, p)) ==> r == Err(NotFound)
    ensures amount > 0 ==> forall p :: IsProviderWithEmail(db.users, email, p) ==>
      && (p !in old(db.details) ==> r == Err(NotFound))
      && (p in old(db.details) ==> r == Ok(()))
      && (p in old(db.details) && amount >= MinimumPayment ==>
            db.details == old(db.details)[p := RecordPayment(old(db.details)[p], amount)])
  {
    if amount <= 0 {
      return Err(BadRequest);
    }
    var p := FindProviderByEmail(db, email);
    if p.None? {
      return Err(NotFound);
    }
    if p.value !in db.details {
      return Err(NotFound);
    }
    if amount < MinimumPayment {
      return Ok(());
    }
    db.details := db.details[p.value := RecordPayment(db.details[p.value], amount)];
    r := Ok(());
  }

  /** unpaidReminder: a reminder is shown exactly when the caller has details
      on the free or the unpaid plan. */
  function ShowReminder(details: map<UserId, ProviderDetails>, user: UserId): (show: bool)
    ensures show <==> user in details && details[user].paymentStatus != Paid
  {
    !(user !in details || !(details[user].paymentStatus == Free || details[user].paymentStatus == Unpaid))
  }

  /** As written, a payment never changes who is active, except that a provider
      already marked Paid with nothing recorded becomes active. */
  lemma PaymentLeavesActiveProviders(details: map<UserId, ProviderDetails>, p: UserId, amount: int)
    requires p in details && amount >= MinimumPayment
    requires details[p].paymentStatus != Paid || details[p].paidAmount > 0
    ensures ActiveProviders(details[p := RecordPayment(details[p], amount)]) == ActiveProviders(details)
  {
    var after := details[p := RecordPayment(details[p], amount)];
    assert Visible(after[p]) <==> Visible(details[p]);
  }

  /** The discrepancy: a verified provider moved to Unpaid by its first booking
      pays the full amount and still is not active. */
  lemma UnpaidProviderStaysHidden()
    ensures var d := ProviderDetails(Verified, None, "id.pdf", "uploads/id.pdf", Unpaid, 0, None, None);
      && !Visible(d)
      && !Visible(RecordPayment(d, MinimumPayment))
      && ShowReminder(map[7 := RecordPayment(d, MinimumPayment)], 7)
  {
    var d := ProviderDetails(Verified, None, "id.pdf", "uploads/id.pdf", Unpaid, 0, None, None);
    var after := RecordPayment(d, MinimumPayment);
    assert after.paymentStatus == Unpaid;
  }

  /** With the intended update, a sufficient payment makes a provider active
      exactly when verified, and ends the reminder. */
  lemma IntendedPaymentActivates(details: map<UserId, ProviderDetails>, p: UserId, amount: int)
    requires p in details && details[p].paidAmount >= 0 && amount >= MinimumPayment
    ensures var after := details[p := RecordPaymentIntended(details[p], amount)];
      && (p in ActiveProviders(after) <==> details[p].verificationStatus == Verified)
      && ActiveProviders(after) - {p} == ActiveProviders(details) - {p}
      && !ShowReminder(after, p)
  {
    var after := details[p := RecordPaymentIntended(details[p], amount)];
    assert after[p].paidAmount > 0;
  }

  /** The first booking of a provider with details takes it off the active
      list whatever its plan was, and leaves every other provider's standing
      alone. No handler writes Paid, so nothing brings it back. */
  lemma FirstBookingDeactivates(details: map<UserId, ProviderDetails>, bookings: map<BookingId, BookingSchema.Booking>,
                                p: UserId)
    requires p in details && !BookingController.HasBookings(bookings, p)
    ensures p !in ActiveProviders(BookingController.AfterFirstBooking(details, bookings, p))
    ensures ActiveProviders(BookingController.AfterFirstBooking(details, bookings, p)) == ActiveProviders(details) - {p}
  {
  }
}
