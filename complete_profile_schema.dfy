/** The CompleteProfile document: a provider's business profile, services,
    weekly operating hours and image paths. */
module CompleteProfileSchema {
  import opened Common

  /** The `priceType` enumeration. */
  datatype PriceType = Hourly | OnceOff

  function PriceTypeName(t: PriceType): string {
    match t
    case Hourly => "hourly"
    case OnceOff => "once-off"
  }

  /** The enum validator: only the two spellings are admitted. */
  function ParsePriceType(s: string): (r: Option<PriceType>)
    ensures r.Some? ==> PriceTypeName(r.value) == s
  {
    if s == "hourly" then Some(Hourly) else if s == "once-off" then Some(OnceOff) else None
  }

  /** Each spelling reads back as its own price type. */
  lemma PriceTypeRoundTrip(t: PriceType)
    ensures ParsePriceType(PriceTypeName(t)) == Some(t)
  {
  }

  /** One entry of the services list; `id` is the subdocument's generated id. */
  datatype ProfileService = ProfileService(id: nat, name: string, category: string, price: int, priceType: PriceType)

  /** One day of operating hours; a missing start or end is None. */
  datatype Hours = Hours(start: Option<string>, end: Option<string>, isClosed: bool)

  /** The days the `operatingHours` path declares. */
  const Weekdays: seq<string> := ["Monday", "Tuesday", "Wednesday", "Thursday", "Friday", "Saturday", "Sunday"]

  /** One of the seven declared days. */
  predicate IsWeekday(d: string) {
    d in Weekdays
  }

  /** The default description. */
  const DefaultDescription: string := "No description provided."

  /** A stored profile, keyed in the store by the provider's user id. */
  datatype Profile = Profile(
    businessAddress: string,
    town: string,
    yearsOfExperience: int,
    description: string,
    services: seq<ProfileService>,
    operatingHours: map<string, Hours>,
    images: seq<string>)

  /** A services entry the `required` validators accept. */
  predicate ServiceHasRequiredFields(s: ProfileService) {
    s.name != "" && s.category != ""
  }

  /** The validators of the whole profile: required strings non-empty, every
      service complete, hours only for declared weekdays, every image path
      non-empty. */
  predicate Saveable(p: Profile) {
    && p.businessAddress != "" && p.town != ""
    && (forall i :: 0 <= i < |p.services| ==> ServiceHasRequiredFields(p.services[i]))
    && (forall d :: d in p.operatingHours ==> IsWeekday(d))
    && (forall i :: 0 <= i < |p.images| ==> p.images[i] != "")
  }
}
