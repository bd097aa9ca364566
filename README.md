# Service-booking backend: a verified model of its core

The system is an Express/Mongoose backend for a marketplace where clients
book local service providers. This project models in Dafny the parts whose
behaviour is decided by explicit guards:

- **Booking lifecycle** (`controllers/bookingController.js`). Creating a
  booking validates the request fields. A provider's first booking moves its
  provider details to the unpaid plan. Providers accept, reject and complete
  bookings. A client cancels or hard-deletes an own pending booking. Rejected
  and completed bookings are soft-deleted per viewer. The listings honour
  that soft delete.
- **Review eligibility** (`controllers/reviewController.js`). A completed
  booking with a rating pending gets one review, or is skipped.
- **Provider standing** (`controllers/authController.js`). Covers the admin's
  verification verdict, recorded payments (at least 180), the visibility rule
  shared by the search and the active-provider count, the unpaid-plan
  reminder, and the marketplace search with its location filter and default
  order.
- **Provider profile** (`controllers/authController.js`). Completing or
  updating the profile normalises operating hours and defaults the price
  type and description. Services are added from the catalog without
  duplicates. Services and images are removed by filters. Image paths are
  turned into URLs.
- **Password reset** by a one-time code valid for sixty seconds.
- **The four schemas.** Booking, Review, ProviderDetails and CompleteProfile:
  their shapes, enumerations, defaults and validators.

The database is one `Store.Database` object. It holds one map per
collection, keyed by document id, and the counter that hands out fresh ids.
Each request handler is a module-level method that takes the database as a
parameter, changes only the fields its `modifies` clause names, and answers
`Ok(value)` or `Err(BadRequest | NotFound | ServerError)` (HTTP 400/404/500).
Each one preserves the store invariant `Database.Valid()`:
- unique e-mails, and at most one review per booking;
- reviews agree with their booking, which has left `pending`;
- soft-delete lists without repeats;
- stored bookings, reviews, provider details and profiles pass their schema validators;
- catalog entries are keyed by their name and carry a category;
- paid amounts never negative.

Falsy request values are modelled as JavaScript reads them: an absent id is
`None`, an absent string is `""`, an absent price is `0`. The exception is an
absent e-mail used as a query filter (see Left out). Where a handler
throws (for example a `.populate` that yields `null` for a deleted user), the
model answers `ServerError`. Where the handler writes before it throws, the
write is kept.

Where the code's evident intent and its behaviour differ, the model follows the code:
- Accept, reject and complete apply to a booking in any status. They never
  clear `pendingRating`, so "a pending rating implies completed" is not an
  invariant of the store.
- `updatePaymentStatus` never changes `paymentStatus`; see Findings.
- `deleteImage` never removes a path stored with `/`; see Findings.
- The search's default order is modelled through its two integer keys only.

## Model

| member | source | states |
|---|---|---|
| Text.LowerChar | controllers/bookingController.js:225 | ASCII capitals map to the lower-case letter 32 code points up; every other character is kept |
| Text.Lower | controllers/bookingController.js:225 | the lower-cased string has the same length and is the character-wise lower-casing |
| Text.LowerIdempotent | controllers/bookingController.js:225-229 | lower-casing twice is lower-casing once |
| Text.Contains | controllers/authController.js:1598-1599 | `includes` is true exactly when the part occurs at some position |
| Text.Trim | models/Review.js:27-31 | the result is the slice of the input after the leading white space; what follows it is white space; the result neither starts nor ends with white space |
| Text.TrimIdempotent | models/Review.js:27-31 | trimming a trimmed text changes nothing |
| Text.ReplaceAll | controllers/authController.js:2368 | same length, each `from` replaced by `to`, others kept; no `from` remains when `from` differs from `to` |
| Text.SlashRoundTrip | controllers/authController.js:1077 | turning `/` into `\` and then `\` into `/` equals turning `\` into `/` directly |
| BookingSchema.ParseStatus | models/BookingSchema.js:35-39 | a string read as a status is that status's stored spelling |
| BookingSchema.StatusNameRoundTrip | models/BookingSchema.js:35-39 | each of the four statuses reads back as itself, and its spelling is already lower case |
| BookingSchema.NewBooking | models/BookingSchema.js:35-51 | a new booking is pending, with no rating pending or skipped, hidden from nobody, and carries the requested fields |
| BookingSchema.WithStatus | controllers/bookingController.js:274-276 | the status becomes the given one and no other field changes |
| BookingSchema.MarkedCompleted | controllers/bookingController.js:483-485 | the booking becomes completed with a rating pending, and no other field changes |
| BookingSchema.HiddenFor | controllers/bookingController.js:453-458 | the viewer is in the hidden list afterwards, exactly the old members plus the viewer, without repeats when there were none, and no other field changes |
| BookingSchema.HiddenForIdempotent | controllers/bookingController.js:596-599 | hiding twice for the same viewer is hiding once |
| BookingSchema.PendingRatingSurvivesStatusChange | controllers/bookingController.js:274-278 | a completed booking that is then accepted or rejected keeps `pendingRating` true with the new status |
| ReviewSchema.NewReview | models/Review.js:5-31 | the review copies booking, client, provider and rating, and stores the trimmed text, which neither starts nor ends with white space |
| ReviewSchema.CompoundIndexImplied | models/Review.js:42-43 | the unique `bookingId` index implies the unique (bookingId, userId) index |
| ProviderDetailsSchema.NewDetails | models/providerDetailsModel.js:5-27 | new details are Pending, on the Free plan, with 0 paid and no notes, expiry or reminder date, and pass the validators exactly when both document fields are given |
| CompleteProfileSchema.ParsePriceType | models/CompleteProfile.js:18 | an admitted price type reads back from its own spelling |
| CompleteProfileSchema.PriceTypeRoundTrip | models/CompleteProfile.js:18 | both price types read back as themselves |
| Store.FindUserByEmail | controllers/authController.js:194-197 | the user found holds the e-mail; none found means no user holds it |
| Store.FindProviderByEmail | controllers/authController.js:619-622 | the user found holds the e-mail and the Provider role; none found means no such user |
| BookingController.MissingFields | controllers/bookingController.js:17-24 | the list holds exactly the falsy fields (price 0 included), in checking order; it is empty exactly when all are present |
| BookingController.AfterFirstBooking | controllers/bookingController.js:61-78 | without earlier bookings the provider's details become Unpaid whatever they were, with nothing else changed; with earlier bookings, and for everyone else, nothing changes |
| BookingController.SecondBookingLeavesDetails | controllers/bookingController.js:61-71 | once a provider has a booking, a further booking leaves all details unchanged |
| BookingController.MarkFirstBooking | controllers/bookingController.js:61-78 | the details become `AfterFirstBooking` of the old ones |
| BookingController.InsertBooking | controllers/bookingController.js:82-93 | the booking is stored under a fresh id and the counter advances |
| BookingController.BookService | controllers/bookingController.js:17-93 | 400 with the missing fields; 404 when provider or client is unknown, storing nothing; otherwise a new pending booking under a fresh id plus the first-booking effect |
| BookingController.SetStatusByProvider | controllers/bookingController.js:274-285 | an unknown id is 404; otherwise the status is written whatever it was, and a deleted client makes the answer 500 after the write |
| BookingController.AcceptBooking | controllers/bookingController.js:274-285 | any existing booking becomes confirmed with nothing else changed; 404 for an unknown id; 500 after the write when the client is gone |
| BookingController.RejectBooking | controllers/bookingController.js:354-365 | any existing booking becomes rejected with nothing else changed; 404 for an unknown id; 500 after the write when the client is gone |
| BookingController.CompleteJob | controllers/bookingController.js:483-498 | any existing booking becomes completed with a rating pending; a missing client is 404 and a missing provider 500, both after the write |
| BookingController.CancelBooking | controllers/bookingController.js:738-749 | only an own pending booking becomes rejected; anything else is 404 and changes nothing |
| BookingController.DeletePendingRecord | controllers/bookingController.js:700-712 | only an own pending booking is removed; anything else is 404 and changes nothing |
| BookingController.SoftDelete | controllers/bookingController.js:433-458 | 404 for an unknown id, 400 for another status; otherwise the booking is hidden for the viewer |
| BookingController.DeleteRejectedRecord | controllers/bookingController.js:433-458 | a rejected booking is hidden for the provider, at most once; other statuses are 400 |
| BookingController.DeleteCompletedJob | controllers/bookingController.js:576-599 | a completed booking is hidden for the caller, at most once; other statuses are 400 |
| BookingController.ProviderListingCaseInsensitive | controllers/bookingController.js:223-231 | the provider listing is the same for a status in any case, and empty for a string naming no status |
| BookingController.SoftDeleteIsolation | controllers/bookingController.js:617-676 | a soft delete removes the booking from the viewer's client history and provider listing and changes no other user's listings |
| BookingController.NewBookingListed | controllers/bookingController.js:82-93 | a new booking shows in its client's pending history and its provider's pending listing |
| BookingController.ProviderBookings | controllers/bookingController.js:223-231 | only the provider's bookings whose status the lower-cased parameter spells; a hidden completed or rejected booking is never listed; every unhidden one in that status is, and a pending or confirmed one is listed even when the provider hid it |
| BookingController.HiddenThenAcceptedListedAgain | controllers/bookingController.js:223-231 | a rejected booking the provider hid leaves the rejected listing, but once accepted it is listed under "confirmed" again, while the client's rejected history no longer shows it |
| BookingController.ClientHistory | controllers/bookingController.js:617-676 | only the client's bookings in the requested status, and among those exactly the ones the client has not hidden |
| ReviewController.RatingAccepted | controllers/reviewController.js:15-20 | the rating guard lets through exactly the ratings from 1 to 5 |
| ReviewController.Eligible | controllers/reviewController.js:31-36 | a booking is eligible exactly when it is in the state completeJob leaves it in: completed with a rating pending |
| ReviewController.Reviewed | controllers/reviewController.js:60 | after a review the booking is no longer eligible and keeps its status |
| ReviewController.Skipped | controllers/reviewController.js:228-231 | after a skip the booking is no longer eligible, keeps its status and is marked skipped |
| ReviewController.SubmitReview | controllers/reviewController.js:15-60 | 400 for a bad rating, 404 for an unknown booking, 400 when ineligible or already reviewed, 500 for over-long text; else one review copied from the booking and the booking's rating resolved |
| ReviewController.SkipReview | controllers/reviewController.js:211-231 | 404 for an unknown booking, 400 when ineligible; otherwise the rating is resolved as skipped and no review is made |
| ReviewController.PendingReviewsAreEligible | controllers/reviewController.js:140-144 | the pending list is exactly the client's bookings that submit and skip accept |
| ReviewController.PendingReviews | controllers/reviewController.js:138-144 | every listed booking belongs to the client and is eligible for review |
| ReviewController.RatingCycle | controllers/reviewController.js:31-60 | completing puts a booking on its client's pending list; a review or skip takes it off until it is completed again; other bookings are untouched |
| ProviderStatus.ParseVerdict | controllers/authController.js:615-617 | only "Verified" and "Rejected" are accepted, never Pending |
| ProviderStatus.StoredNotes | controllers/authController.js:628 | absent or empty notes are stored as null; other notes as given |
| ProviderStatus.Visible | controllers/authController.js:1542-1547 | a visible provider is verified and never on the unpaid plan, and with nothing paid it is on the free plan; every verified provider on the free plan, and every verified Paid provider with a positive amount, is visible |
| ProviderStatus.ActiveProviders | controllers/authController.js:2605-2611 | the active providers are providers with details, verified and not on the unpaid plan, and include every verified provider on the free plan and every verified Paid provider with a positive amount |
| ProviderStatus.VerifyDocuments | controllers/authController.js:615-634 | 400 for another verdict, 404 without such a provider or details; else verdict and notes are written |
| ProviderStatus.RecordPayment | controllers/authController.js:897-899 | as written: the amount is added and the payment and verification status are kept |
| ProviderStatus.RecordPaymentIntended | controllers/authController.js:897-899 | the intended update: the amount is added and the provider is Paid |
| ProviderStatus.UpdatePaymentStatus | controllers/authController.js:849-899 | 400 for a non-positive amount, 404 without a provider or details, nothing stored below 180; else `RecordPayment` |
| ProviderStatus.ShowReminder | controllers/authController.js:2412-2426 | a reminder shows exactly for a caller with details not on the Paid plan |
| ProviderStatus.PaymentLeavesActiveProviders | controllers/authController.js:2605-2611 | as written, a payment never changes the set of active providers (except for a Paid provider with nothing recorded) |
| ProviderStatus.UnpaidProviderStaysHidden | controllers/authController.js:897-899 | a verified provider moved to Unpaid pays 180 and is still hidden and still reminded |
| ProviderStatus.IntendedPaymentActivates | controllers/authController.js:1542-1547 | with the intended update a paying provider is active exactly when verified and is no longer reminded |
| ProviderStatus.FirstBookingDeactivates | controllers/bookingController.js:61-71 | the first booking removes the provider, and only it, from the active providers |
| ProviderSearch.StandingOf | controllers/authController.js:1621-1625 | the paid key is 1 exactly for the Paid plan, else 0; the second key is the provider's number of completed bookings |
| ProviderSearch.LocationMatches | controllers/authController.js:1595-1603 | an empty location or town always matches; a town containing the location, ignoring case, matches; a non-empty location matches a non-empty town only if it is no longer than the town |
| ProviderSearch.Matches | controllers/authController.js:1542-1603 | the matches are active providers whose profile offers the service and whose town passes the location filter, and every active provider with a profile offering the service and a town passing the filter matches, for any location (an empty one passes every town) |
| ProviderSearch.PrecedesTransitive | controllers/authController.js:1642-1646 | the default comparator's order is transitive |
| ProviderSearch.InsertByStanding | controllers/authController.js:1617-1647 | inserting keeps the list ordered and free of repeats and adds exactly the element |
| ProviderSearch.SortByStanding | controllers/authController.js:1617-1647 | the sorted list holds exactly the same distinct providers, in the default order |
| ProviderSearch.Enumerate | controllers/authController.js:1542-1553 | each member of the set is listed exactly once |
| ProviderSearch.SearchProviders | controllers/authController.js:1534-1646 | 400 without a service name; 500 when a visible provider's user is gone; else exactly the matching providers, once each, paid first and then by completed bookings |
| ProviderSearch.PaidProvidersFirst | controllers/authController.js:1642-1644 | in the default order every Paid provider precedes every other |
| ProviderSearch.LocationFilterIgnoresCase | controllers/authController.js:1595-1603 | the location filter ignores case, and an empty location or town lets a provider through |
| ProviderSearch.TownContainingLocationMatches | controllers/authController.js:1598-1599 | a town containing the location, ignoring case, passes the filter |
| ProviderSearch.SearchResultsAreActive | controllers/authController.js:1542-1603 | every result is verified, not Unpaid, offers the service, and drops out once moved to Unpaid |
| ProviderProfile.StoreProfile | controllers/authController.js:2212-2214 | a profile that passes the validators is written for its owner |
| ProviderProfile.AllocateIds | controllers/authController.js:362-365 | the counter advances by the number of new service entries |
| ProviderProfile.NormalizeDay | controllers/authController.js:332-336 | a closed day has no times; an open day keeps a time exactly when it is non-empty; `isClosed` defaults to false |
| ProviderProfile.NormalizeDayIdempotent | controllers/authController.js:329-339 | normalising stored hours again changes nothing |
| ProviderProfile.StoredHours | controllers/authController.js:326-342 | a null day refuses the request; otherwise exactly the submitted weekdays are stored, each normalised |
| ProviderProfile.PriceTypeOrDefault | controllers/authController.js:362-365 | an absent price type becomes hourly, a given one is kept, so the result is valid exactly when the input is absent or valid |
| ProviderProfile.StoredService | models/CompleteProfile.js:13-19 | a service is stored exactly when name, category and price are given and the defaulted price type is valid, and then carries them |
| ProviderProfile.StoredServices | controllers/authController.js:360-365 | the list is stored exactly when every entry is, entry by entry with consecutive ids |
| ProviderProfile.ProfileUpdate | controllers/authController.js:315-405 | 400 exactly for a null day; success whenever hours, services, years, address, town and images pass; the saved profile passes the validators, carries the request's address, town and years, the normalised services (`StoredServices`) and hours (`StoredHours`, none when absent), and follows the create and update rules for description and images |
| ProviderProfile.EmptyDescriptionDependsOnPath | controllers/authController.js:368-395 | an empty description is stored as "" on create but replaced by the default on update |
| ProviderProfile.CompleteProfile | controllers/authController.js:304-405 | 400 without e-mail, 404 for an unknown user; else the profile of `ProfileUpdate`, reporting whether it was created |
| ProviderProfile.AppendKeepsNamesDistinct | controllers/authController.js:2274-2286 | appending a service whose name is not listed keeps names distinct |
| ProviderProfile.AddToCatalog | controllers/authController.js:2229-2270 | the name resolves exactly when it is in the catalog or its category has an entry; a new entry takes the name, category and description and copies the style of an entry of that category; a known name leaves the catalog unchanged |
| ProviderProfile.AddServiceToProvider | controllers/authController.js:2229-2297 | 400 for a falsy field or an unknown category; the catalog gains the new name; 404 without a profile, 400 for a listed name, 500 exactly for an invalid price type; otherwise success, with the service appended under a fresh id |
| ProviderProfile.RemoveService | controllers/authController.js:2212 | exactly the entries with another id remain |
| ProviderProfile.RemoveServiceSplits | controllers/authController.js:2212 | the filter distributes over concatenation, so kept entries keep their order |
| ProviderProfile.DeleteService | controllers/authController.js:2201-2214 | 404 without a profile; else the service is filtered out |
| ProviderProfile.RemoveImage | controllers/authController.js:2382 | exactly the other paths remain; an absent path changes nothing |
| ProviderProfile.RemoveImageSplits | controllers/authController.js:2382 | the image filter distributes over concatenation |
| ProviderProfile.AddImage | controllers/authController.js:2318-2338 | 400 without a file, 404 without a profile; else the path is appended at the end |
| ProviderProfile.MatchPath | controllers/authController.js:2368 | each `/` becomes `\` and every other character is kept, so the result contains no `/` |
| ProviderProfile.DeleteImage | controllers/authController.js:2360-2382 | 400 for an empty path, 404 without a profile; else every entry equal to the converted path is removed |
| ProviderProfile.DeleteImageMatchesBackslashPathsOnly | controllers/authController.js:2368-2382 | a stored path containing `/` is never removed; the entry equal to the converted path always is |
| ProviderProfile.RemoveImageIntended | controllers/authController.js:2368-2382 | the intended filter: exactly the paths naming another file remain, whichever separator they use |
| ProviderProfile.IntendedDeleteRemovesEitherSpelling | controllers/authController.js:2368-2382 | with the intended filter, naming a stored path with `/` or `\` removes it, and paths naming another file stay |
| ProviderProfile.IntendedDeleteAgreesOnBackslashPaths | controllers/authController.js:2368-2382 | where no stored path contains `/`, the handler's filter and the intended one give the same list |
| ProviderProfile.FormatImageUrl | controllers/authController.js:1076-1078 | an http URL is kept; any other path becomes the host followed by the path with each `\` turned into `/` and every other character kept |
| ProviderProfile.FormatImageUrls | controllers/authController.js:1075-1078 | one URL per stored path, in order |
| ProviderProfile.FormatImageUrlsIdempotent | controllers/authController.js:1076-1078 | formatting formatted URLs changes nothing |
| PasswordReset.Requested | controllers/authController.js:199-206 | the request stores the code and an expiry sixty seconds on, nothing else |
| PasswordReset.Cleared | controllers/authController.js:272-276 | the reset stores the new hash and clears code and expiry |
| PasswordReset.OtpAccepted | controllers/authController.js:262 | a code passes exactly when it equals the stored one and now is not past the expiry (null counts as 0) |
| PasswordReset.RequestPasswordReset | controllers/authController.js:194-206 | 404 for an unknown e-mail; else the code is stored |
| PasswordReset.ResetPassword | controllers/authController.js:248-276 | 400 for a missing input, 404 for an unknown e-mail, 400 for a wrong or expired code; else the password is replaced and the code cleared |
| PasswordReset.CodeValidForSixtySeconds | controllers/authController.js:200-262 | a code works up to sixty seconds after the request and not later; no other code works |
| PasswordReset.CodeSingleUse | controllers/authController.js:262-275 | after a reset no code works; a new request replaces the old code |

## Left out

- E-mail sending, its templates and its failures are left out. A failed send after a write would answer 500; the model answers success.
- The weekly reminder cron job is left out: it is a scheduled external side effect.
- Notification records are left out.
- Token signing, token checks and password hashing are left out: they call foreign libraries. The hash is a parameter of `ResetPassword`, and the caller's id is a parameter of each handler.
- OTP generation is random: the code is a parameter of `RequestPasswordReset`.
- The clock is a parameter `now`, in milliseconds, and `moment` formatting is left out.
- JSON parsing of `services` and `operatingHours` is left out: the model receives the parsed values, and a parse failure is not modelled.
- `socialLinks` is left out: it is stored without checks.
- Floating point is left out: the average rating, the rating tie-break in the default search order, and the `priceLow`, `priceHigh` and `ratingHigh` sort options.
- ProviderSearch.SearchProviders: equal standings may come out in any order, whereas JavaScript's stable sort would break ties by average rating and then by storage order.
- ProviderSearch.SearchProviders: it returns provider ids only, not the formatted provider records with names and prices.
- Regex searches, count and analytics endpoints, reviews per provider, tips, uploads and server wiring are plain store queries outside the modelled core. The active-provider count is `ProviderStatus.ActiveProviders`.
- The duplicate soft-delete handlers at controllers/bookingController.js:768-832 are left out: earlier routes for the same paths shadow them.
- Requests run one at a time, so concurrency is left out, including the read-then-write race of the first-booking effect.
- Lower-casing maps only ASCII letters. JavaScript's `toLowerCase` also maps other Unicode capitals.
- Ratings, prices and amounts are integers. Fractional or non-numeric body values, and casting errors on malformed ids, are left out.
- ReviewController.SubmitReview: an absent review text is modelled as "" and stored as ""; Mongoose would leave the field unset.
- ProviderProfile.CompleteProfile: subdocument ids of submitted services are always fresh; an `_id` sent by the client is ignored.
- ProviderProfile.AddServiceToProvider: the catalog entry it copies the style from is some entry of the category, not necessarily the first in storage order.
- ProviderProfile.AddToCatalog: of the Service schema's validators only the name and category are part of the store invariant; the new entry's icon, color and image URL are copied from an existing entry and assumed present.
- BookingController.BookService: a `date` that does not cast to a Date makes the booking's save fail with 500, after the first-booking update to Unpaid was already written; the model takes every date as valid and stores the booking.
- BookingController.ProviderBookings: getBookingsForProvider answers 500 when a listed booking's client was deleted (the populated client is null); the model always returns the listing.
- ReviewController.SubmitReview: the 1000-character limit is counted in Dafny characters, whereas Mongoose counts UTF-16 code units, so text with characters outside the Basic Multilingual Plane can pass here and fail there.
- ProviderStatus.VerifyDocuments: an absent e-mail makes the filter `{ email: undefined }`, which Mongoose treats as an empty filter that matches some user; the model looks up the e-mail as given and answers 404 when no user holds it.
- ProviderStatus.UpdatePaymentStatus: the same absent-e-mail lookup as verifyDocuments is modelled as a lookup of the e-mail as given.
- PasswordReset.RequestPasswordReset: the same absent-e-mail lookup is modelled as a lookup of the e-mail as given, so the model never stores a code for an arbitrary user.

## Findings

| source | as written | input that shows it | evidently intended | confidence | as-written member | corrected member |
|---|---|---|---|---|---|---|
| controllers/authController.js:897-899 | a payment of at least 180 sets `isPaid`, which is not a path of the ProviderDetails schema (models/providerDetailsModel.js:20-27) and is dropped on save; only `paidAmount` grows and `paymentStatus` stays as it was. Nothing else in the code sets Paid, so a provider moved to Unpaid by its first booking never becomes visible again | a verified provider on the Unpaid plan with 0 paid pays 180 | the provider is marked Paid and becomes visible (verified, Paid, positive amount) and the reminder stops | high (not executed) | ProviderStatus.UnpaidProviderStaysHidden | ProviderStatus.IntendedPaymentActivates |
| controllers/authController.js:2368 | deleteImage turns every `/` of the requested path into `\` and removes the entries equal to the result; addImage stores `req.file.path` (controllers/authController.js:2336-2337), which on the Linux host serving `ImageHost` is written with `/`, so no such entry ever equals the converted path | a profile whose images are `["uploads/a.png"]` and a request to delete `uploads/a.png` | the entry naming that file is removed whichever separator it is stored with | medium (not executed) | ProviderProfile.DeleteImageMatchesBackslashPathsOnly | ProviderProfile.IntendedDeleteRemovesEitherSpelling |
