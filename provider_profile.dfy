/**
 * The provider's business profile: completing or updating it (operating-hours
 * normalisation, the price-type default, the description default), adding and
 * removing offered services, adding and removing gallery images, and the
 * image URLs the profile details endpoint hands out.
 */
module ProviderProfile {
  import opened Common
  import opened CompleteProfileSchema
  import opened Store
  import Text

  // ---------------------------------------------------------------- storing

  /** A profile is only ever written after it passed the schema validators,
      and its service entries carry ids already handed out. */
  method StoreProfile(db: Database, u: UserId, p: Profile)
    requires db.Valid() && Saveable(p)
    requires forall i :: 0 <= i < |p.services| ==> p.services[i].id < db.nextId
    modifies db`profiles
    ensures db.Valid()
    ensures db.profiles == old(db.profiles)[u := p]
  {
    db.profiles := db.profiles[u := p];
  }

  /** Hands out `n` fresh ids, starting from the current counter. */
  method AllocateIds(db: Database, n: nat)
    requires db.Valid()
    modifies db`nextId
    ensures db.Valid()
    ensures db.nextId == old(db.nextId) + n
  {
    db.nextId := db.nextId + n;
  }

  /** The stored profile of a user, if any. */
  function ProfileOf(profiles: map<UserId, Profile>, u: UserId): Option<Profile> {
    if u in profiles then Some(profiles[u]) else None
  }

  // ---------------------------------------------------------- operating hours

  /** One day of the submitted hours. An absent or empty time is None; an
      absent isClosed is false. */
  datatype RawHours = RawHours(start: Option<string>, end: Option<string>, isClosed: bool)

  /** `t || null`: an empty time counts as absent. */
  function OrNull(t: Option<string>): Option<string> {
    if t.Some? && t.value != "" then t else None
  }

  /** `hours.isClosed ? null : hours.start || null` (and the same for `end`),
      with `isClosed || false`. */
  function NormalizeDay(h: RawHours): (r: Hours)
    ensures r.isClosed == h.isClosed
    ensures r.isClosed ==> r.start.None? && r.end.None?
    ensures !r.isClosed ==> (r.start.Some? <==> h.start.Some? && h.start.value != "")
    ensures !r.isClosed ==> (r.end.Some? <==> h.end.Some? && h.end.value != "")
    ensures r.start.Some? ==> r.start == h.start && r.start.value != ""
    ensures r.end.Some? ==> r.end == h.end && r.end.value != ""
  {
    Hours(if h.isClosed then None else OrNull(h.start), if h.isClosed then None else OrNull(h.end), h.isClosed)
  }

  /** The stored hours read back as submitted hours. */
  function AsRaw(h: Hours): RawHours {
    RawHours(h.start, h.end, h.isClosed)
  }

  /** Normalising is idempotent: submitting the stored hours again stores them
      unchanged. */
  lemma NormalizeDayIdempotent(h: RawHours)
    ensures NormalizeDay(AsRaw(NormalizeDay(h))) == NormalizeDay(h)
  {
  }

  /** The `reduce` over the submitted days followed by the schema, which keeps
      only the seven declared weekdays. A day given as null makes the reduce
      throw: the request is refused (None). */
  function StoredHours(m: map<string, Option<RawHours>>): (r: Option<map<string, Hours>>)
    ensures r.Some? <==> forall d :: d in m ==> m[d].Some?
    ensures r.Some? ==> forall d :: d in r.value <==> d in m && IsWeekday(d)
    ensures r.Some? ==> forall d :: d in r.value ==> r.value[d] == NormalizeDay(m[d].value)
  {
    if forall d :: d in m ==> m[d].Some? then
      Some(map d | d in m && IsWeekday(d) :: NormalizeDay(m[d].value))
    else
      None
  }

  // ------------------------------------------------------------------ services

  /** One submitted service; an absent priceType is "". */
  datatype RawService = RawService(name: string, category: string, price: Option<int>, priceType: string)

  /** `service.priceType || "hourly"`: the default makes an absent price type
      valid and changes nothing else. */
  function PriceTypeOrDefault(s: string): (r: string)
    ensures s == "" ==> ParsePriceType(r) == Some(Hourly)
    ensures s != "" ==> r == s
    ensures ParsePriceType(r).Some? <==> s == "" || ParsePriceType(s).Some?
  {
    if s == "" then PriceTypeName(Hourly) else s
  }

  /** The services entry stored for one submitted service, or None when the
      `required` or `enum` validators reject it. */
  function StoredService(raw: RawService, id: nat): (r: Option<ProfileService>)
    ensures r.Some? <==> raw.name != "" && raw.category != "" && raw.price.Some?
                         && ParsePriceType(PriceTypeOrDefault(raw.priceType)).Some?
    ensures r.Some? ==> ServiceHasRequiredFields(r.value) && r.value.id == id
    ensures r.Some? ==> r.value.name == raw.name && r.value.category == raw.category && r.value.price == raw.price.value
    ensures r.Some? ==> PriceTypeName(r.value.priceType) == PriceTypeOrDefault(raw.priceType)
  {
    var t := ParsePriceType(PriceTypeOrDefault(raw.priceType));
    if raw.name != "" && raw.category != "" && raw.price.Some? && t.Some? then
      Some(ProfileService(id, raw.name, raw.category, raw.price.value, t.value))
    else
      None
  }

  /** The services list stored for the submitted list, the entries numbered
      from `firstId`; None when any entry is rejected. */
  function StoredServices(raws: seq<RawService>, firstId: nat): (r: Option<seq<ProfileService>>)
    ensures r.Some? <==> forall i :: 0 <= i < |raws| ==> StoredService(raws[i], firstId + i).Some?
    ensures r.Some? ==> |r.value| == |raws|
    ensures r.Some? ==> forall i :: 0 <= i < |raws| ==> r.value[i] == StoredService(raws[i], firstId + i).value
    decreases |raws|
  {
    if raws == [] then Some([])
    else
      var first := StoredService(raws[0], firstId);
      var rest := StoredServices(raws[1..], firstId + 1);
      if first.None? then
        None
      else if rest.None? then
        assert exists i :: 1 <= i < |raws| && StoredService(raws[i], firstId + i).None? by {
          var k :| 0 <= k < |raws[1..]| && StoredService(raws[1..][k], firstId + 1 + k).None?;
          assert raws[1..][k] == raws[k + 1];
        }
        None
      else
        var r := [first.value] + rest.value;
        assert forall i :: 1 <= i < |raws| ==> raws[1..][i - 1] == raws[i];
        Some(r)
  }

  // -------------------------------------------------------- complete profile

  /** The body of a completeProfile request. Absent values are None (or ""
      for plain strings). */
  datatype ProfileRequest = ProfileRequest(
    email: string,
    businessAddress: string,
    town: string,
    yearsOfExperience: Option<int>,
    services: Option<seq<RawService>>,
    operatingHours: Option<map<string, Option<RawHours>>>,
    description: Option<string>,
    images: Option<seq<string>>)

  /** The profile completeProfile saves for a request, given the profile
      already stored (update) or none (create), numbering new services from
      `firstId`. A null day is a 400; a missing services list (the `.map`
      throws) or a failed validator is a 500. */
  function ProfileUpdate(existing: Option<Profile>, req: ProfileRequest, firstId: nat): (r: Result<Profile>)
    ensures r == Err(BadRequest) <==> req.operatingHours.Some? && StoredHours(req.operatingHours.value).None?
    ensures r.Ok? ==> Saveable(r.value)
    ensures r.Ok? ==> req.services.Some? && |r.value.services| == |req.services.value|
    ensures r.Ok? ==> forall i :: 0 <= i < |r.value.services| ==> r.value.services[i].id == firstId + i
    ensures r.Ok? ==> r.value.businessAddress == req.businessAddress && r.value.town == req.town
                      && req.yearsOfExperience == Some(r.value.yearsOfExperience)
    ensures r.Ok? ==> forall d :: d in r.value.operatingHours ==> IsWeekday(d)
    ensures r.Ok? && existing.Some? ==> r.value.description != ""
    ensures r.Ok? && existing.Some? && req.description.Some? && req.description.value != "" ==>
              r.value.description == req.description.value
    ensures r.Ok? && existing.None? && req.description.Some? ==> r.value.description == req.description.value
    ensures r.Ok? && req.description.None? ==> r.value.description == DefaultDescription
    ensures r.Ok? && existing.Some? && (req.images.None? || req.images.value == []) ==>
              r.value.images == existing.value.images
    ensures r.Ok? && req.images.Some? && req.images.value != [] ==> r.value.images == req.images.value
    ensures r.Ok? && existing.None? && req.images.None? ==> r.value.images == []
    ensures r.Ok? ==> StoredServices(req.services.value, firstId) == Some(r.value.services)
    ensures r.Ok? && req.operatingHours.Some? ==> StoredHours(req.operatingHours.value) == Some(r.value.operatingHours)
    ensures r.Ok? && req.operatingHours.None? ==> r.value.operatingHours == map[]
    ensures && (req.operatingHours.None? || StoredHours(req.operatingHours.value).Some?)
            && req.services.Some? && StoredServices(req.services.value, firstId).Some?
            && req.yearsOfExperience.Some? && req.businessAddress != "" && req.town != ""
            && (req.images.Some? ==> forall i :: 0 <= i < |req.images.value| ==> req.images.value[i] != "")
            && (existing.Some? ==> Saveable(existing.value))
            ==> r.Ok?
  {
    var hours := StoredHours(if req.operatingHours.Some? then req.operatingHours.value else map[]);
    if hours.None? then
      Err(BadRequest)
    else if req.services.None? then
      Err(ServerError)
    else
      var services := StoredServices(req.services.value, firstId);
      var description :=
        if existing.Some? then
          (if req.description.Some? && req.description.value != "" then req.description.value else DefaultDescription)
        else
          (if req.description.Some? then req.description.value else DefaultDescription);
      var images :=
        if existing.Some? then
          (if req.images.Some? && req.images.value != [] then req.images.value else existing.value.images)
        else
          (if req.images.Some? then req.images.value else []);
      if services.None? || req.yearsOfExperience.None? then
        Err(ServerError)
      else
        var p := Profile(req.businessAddress, req.town, req.yearsOfExperience.value, description,
                         services.value, hours.value, images);
        if Saveable(p) then Ok(p) else Err(ServerError)
  }

  /** An empty description is stored as given when the profile is created but
      replaced by the default when it is updated. */
  lemma EmptyDescriptionDependsOnPath(existing: Profile, req: ProfileRequest, firstId: nat)
    requires req.description == Some("")
    requires ProfileUpdate(None, req, firstId).Ok? && ProfileUpdate(Some(existing), req, firstId).Ok?
    ensures ProfileUpdate(None, req, firstId).value.description == ""
    ensures ProfileUpdate(Some(existing), req, firstId).value.description == DefaultDescription
  {
  }

  /** completeProfile. The user is found by email; the answer is Ok(true) when
      a profile was created (201) and Ok(false) when one was updated (200). */
  method CompleteProfile(db: Database, req: ProfileRequest) returns (r: Result<bool>)
    requires db.Valid()
    modifies db`profiles, db`nextId
    ensures db.Valid()
    ensures r.Err? ==> db.profiles == old(db.profiles) && db.nextId == old(db.nextId)
    ensures req.email == "" ==> r == Err(BadRequest)
    ensures req.email != "" && (forall u :: u in db.users ==> db.users[u].email != req.email) ==> r == Err(NotFound)
    ensures req.email != "" ==> forall u :: u in db.users && db.users[u].email == req.email ==>
      var res := ProfileUpdate(ProfileOf(old(db.profiles), u), req, old(db.nextId));
      && (res.Err? ==> r == Err(res.failure))
      && (res.Ok? ==> r.Ok? && (r.value <==> u !in old(db.profiles)) && db.profiles == old(db.profiles)[u := res.value]
                      && db.nextId == old(db.nextId) + |req.services.value|)
  {
    if req.email == "" {
      return Err(BadRequest);
    }
    var user := FindUserByEmail(db, req.email);
    if user.None? {
      return Err(NotFound);
    }
    var u := user.value;
    var existing := ProfileOf(db.profiles, u);
    var res := ProfileUpdate(existing, req, db.nextId);
    if res.Err? {
      return Err(res.failure);
    }
    AllocateIds(db, |req.services.value|);
    StoreProfile(db, u, res.value);
    r := Ok(existing.None?);
  }

  // -------------------------------------------------- adding a catalog service

  /** Some entry of the list carries this name. */
  predicate HasServiceNamed(services: seq<ProfileService>, name: string) {
    exists i :: 0 <= i < |services| && services[i].name == name
  }

  /** No two entries share a name. */
  predicate DistinctServiceNames(services: seq<ProfileService>) {
    forall i, j :: 0 <= i < j < |services| ==> services[i].name != services[j].name
  }

  /** Appending a service whose name is not yet listed keeps the names
      distinct, and makes the name listed. */
  lemma AppendKeepsNamesDistinct(services: seq<ProfileService>, s: ProfileService)
    requires DistinctServiceNames(services) && !HasServiceNamed(services, s.name)
    ensures DistinctServiceNames(services + [s])
    ensures HasServiceNamed(services + [s], s.name)
  {
    var t := services + [s];
    assert t[|services|].name == s.name;
    forall i, j | 0 <= i < j < |t| ensures t[i].name != t[j].name {
      if j == |services| {
        assert t[i] == services[i];
      }
    }
  }

  /** None of the request fields is falsy (a price of 0 counts as missing). */
  predicate ServiceRequestComplete(userId: Option<UserId>, name: string, category: string, description: string,
                                   price: int, priceType: string) {
    userId.Some? && name != "" && category != "" && description != "" && price != 0 && priceType != ""
  }

  /** The catalog has the service, or a category to model a new entry on. */
  predicate CatalogResolves(catalog: map<string, CatalogService>, name: string, category: string) {
    name in catalog || CategoryExists(catalog, category)
  }

  /** Some catalog entry is in this category. */
  predicate CategoryExists(catalog: map<string, CatalogService>, category: string) {
    exists n :: n in catalog && catalog[n].category == category
  }

  /** The catalog step of addServiceToProvider: a name not yet in the catalog
      is added, styled after some entry of the requested category; without
      such an entry nothing is added and the answer is false. */
  method AddToCatalog(db: Database, name: string, category: string, description: string) returns (resolved: bool)
    requires db.Valid() && name != "" && category != ""
    modifies db`catalog
    ensures db.Valid()
    ensures resolved <==> CatalogResolves(old(db.catalog), name, category)
    ensures !resolved || name in old(db.catalog) ==> db.catalog == old(db.catalog)
    ensures resolved ==> name in db.catalog && db.catalog.Keys == old(db.catalog).Keys + {name}
    ensures resolved && name !in old(db.catalog) ==>
      && db.catalog == old(db.catalog)[name := db.catalog[name]]
      && db.catalog[name].name == name && db.catalog[name].category == category
      && db.catalog[name].description == description
      && exists n :: n in old(db.catalog) && old(db.catalog)[n].category == category
           && old(db.catalog)[n].icon == db.catalog[name].icon && old(db.catalog)[n].color == db.catalog[name].color
           && old(db.catalog)[n].imageUrl == db.catalog[name].imageUrl
  {
    if name in db.catalog {
      return true;
    }
    if !CategoryExists(db.catalog, category) {
      return false;
    }
    var n :| n in db.catalog && db.catalog[n].category == category;
    var like := db.catalog[n];
    db.catalog := db.catalog[name := CatalogService(name, category, description, like.icon, like.color, like.imageUrl)];
    resolved := true;
  }

  /** addServiceToProvider. The catalog step may add the name to the catalog
      (a 400 when it cannot), and that entry stays even when the later steps
      fail. The profile gets the catalog entry's name and category with the
      requested price and price type, appended at the end, unless it already
      lists that name. */
  method AddServiceToProvider(db: Database, userId: Option<UserId>, name: string, category: string,
                              description: string, price: int, priceType: string) returns (r: Result<()>)
    requires db.Valid()
    modifies db`catalog, db`profiles, db`nextId
    ensures db.Valid()
    ensures r.Err? ==> db.profiles == old(db.profiles) && db.nextId == old(db.nextId)
    ensures !ServiceRequestComplete(userId, name, category, description, price, priceType) ==>
      r == Err(BadRequest) && db.catalog == old(db.catalog)
    ensures ServiceRequestComplete(userId, name, category, description, price, priceType)
            && !CatalogResolves(old(db.catalog), name, category) ==>
      r == Err(BadRequest) && db.catalog == old(db.catalog)
    ensures name in old(db.catalog) ==> db.catalog == old(db.catalog)
    ensures ServiceRequestComplete(userId, name, category, description, price, priceType)
            && CatalogResolves(old(db.catalog), name, category) ==>
      && name in db.catalog
      && db.catalog.Keys == old(db.catalog).Keys + {name}
      && (name !in old(db.catalog) ==>
            && db.catalog == old(db.catalog)[name := db.catalog[name]]
            && db.catalog[name].name == name && db.catalog[name].category == category
            && db.catalog[name].description == description
            && exists n :: n in old(db.catalog) && old(db.catalog)[n].category == category
                 && old(db.catalog)[n].icon == db.catalog[name].icon && old(db.catalog)[n].color == db.catalog[name].color
                 && old(db.catalog)[n].imageUrl == db.catalog[name].imageUrl)
    ensures r.Ok? ==>
      && userId.Some? && userId.value in old(db.profiles)
      && !HasServiceNamed(old(db.profiles)[userId.value].services, name)
      && ParsePriceType(priceType).Some?
      && db.nextId == old(db.nextId) + 1
      && db.profiles == old(db.profiles)[userId.value := old(db.profiles)[userId.value].(services :=
           old(db.profiles)[userId.value].services +
           [ProfileService(old(db.nextId), name, db.catalog[name].category, price, ParsePriceType(priceType).value)])]
    ensures ServiceRequestComplete(userId, name, category, description, price, priceType)
            && CatalogResolves(old(db.catalog), name, category) ==>
      && (userId.value !in old(db.profiles) ==> r == Err(NotFound))
      && (userId.value in old(db.profiles) && HasServiceNamed(old(db.profiles)[userId.value].services, name) ==>
            r == Err(BadRequest))
      && (userId.value in old(db.profiles) && !HasServiceNamed(old(db.profiles)[userId.value].services, name) ==>
            (ParsePriceType(priceType).None? <==> r == Err(ServerError))
            && (ParsePriceType(priceType).Some? <==> r == Ok(())))
  {
    if !ServiceRequestComplete(userId, name, category, description, price, priceType) {
      return Err(BadRequest);
    }
    var resolved := AddToCatalog(db, name, category, description);
    if !resolved {
      return Err(BadRequest);
    }
    var entry := db.catalog[name];
    var u := userId.value;
    if u !in db.profiles {
      return Err(NotFound);
    }
    var profile := db.profiles[u];
    if HasServiceNamed(profile.services, entry.name) {
      return Err(BadRequest);
    }
    var t := ParsePriceType(priceType);
    if t.None? {
      return Err(ServerError);
    }
    var added := ProfileService(db.nextId, entry.name, entry.category, price, t.value);
    assert ServiceHasRequiredFields(added);
    var updated := profile.(services := profile.services + [added]);
    assert Saveable(updated);
    AllocateIds(db, 1);
    StoreProfile(db, u, updated);
    r := Ok(());
  }

  // ---------------------------------------------------------- list filters

  /** `services.filter(s => s._id != serviceId)`. */
  function RemoveService(services: seq<ProfileService>, id: nat): (r: seq<ProfileService>)
    ensures forall s :: s in r <==> s in services && s.id != id
    ensures |r| <= |services|
    ensures forall i :: 0 <= i < |r| ==> r[i].id != id
  {
    if services == [] then []
    else (if services[0].id == id then [] else [services[0]]) + RemoveService(services[1..], id)
  }

  /** The filter treats every part of the list alike, so the entries kept keep
      their relative order. */
  lemma {:induction false} RemoveServiceSplits(a: seq<ProfileService>, b: seq<ProfileService>, id: nat)
    ensures RemoveService(a + b, id) == RemoveService(a, id) + RemoveService(b, id)
    decreases |a|
  {
    if a == [] {
      assert a + b == b;
    } else {
      assert (a + b)[1..] == a[1..] + b;
      RemoveServiceSplits(a[1..], b, id);
    }
  }

  /** deleteService: the service with that id leaves the caller's list, the
      other entries stay in order. */
  method DeleteService(db: Database, u: UserId, serviceId: nat) returns (r: Result<seq<ProfileService>>)
    requires db.Valid()
    modifies db`profiles
    ensures db.Valid()
    ensures u !in old(db.profiles) ==> r == Err(NotFound) && db.profiles == old(db.profiles)
    ensures u in old(db.profiles) ==>
      var p := old(db.profiles)[u];
      && r == Ok(RemoveService(p.services, serviceId))
      && db.profiles == old(db.profiles)[u := p.(services := RemoveService(p.services, serviceId))]
  {
    if u !in db.profiles {
      return Err(NotFound);
    }
    var p := db.profiles[u];
    var kept := RemoveService(p.services, serviceId);
    assert forall i :: 0 <= i < |kept| ==> kept[i] in p.services;
    StoreProfile(db, u, p.(services := kept));
    r := Ok(kept);
  }

  /** `images.filter(img => img !== path)`. */
  function RemoveImage(images: seq<string>, path: string): (r: seq<string>)
    ensures forall x :: x in r <==> x in images && x != path
    ensures |r| <= |images|
    ensures path !in images ==> r == images
  {
    if images == [] then []
    else (if images[0] == path then [] else [images[0]]) + RemoveImage(images[1..], path)
  }

  /** The image filter keeps the relative order of what it keeps. */
  lemma {:induction false} RemoveImageSplits(a: seq<string>, b: seq<string>, path: string)
    ensures RemoveImage(a + b, path) == RemoveImage(a, path) + RemoveImage(b, path)
    decreases |a|
  {
    if a == [] {
      assert a + b == b;
    } else {
      assert (a + b)[1..] == a[1..] + b;
      RemoveImageSplits(a[1..], b, path);
    }
  }

  /** addImage: the uploaded file's path is appended. No file is a 400; an
      empty path fails the validator (500). */
  method AddImage(db: Database, u: UserId, file: Option<string>) returns (r: Result<seq<string>>)
    requires db.Valid()
    modifies db`profiles
    ensures db.Valid()
    ensures r.Err? ==> db.profiles == old(db.profiles)
    ensures file.None? ==> r == Err(BadRequest)
    ensures file.Some? && u !in old(db.profiles) ==> r == Err(NotFound)
    ensures file.Some? && u in old(db.profiles) && file.value == "" ==> r == Err(ServerError)
    ensures file.Some? && u in old(db.profiles) && file.value != "" ==>
      var p := old(db.profiles)[u];
      r == Ok(p.images + [file.value]) && db.profiles == old(db.profiles)[u := p.(images := p.images + [file.value])]
  {
    if file.None? {
      return Err(BadRequest);
    }
    if u !in db.profiles {
      return Err(NotFound);
    }
    var p := db.profiles[u];
    if file.value == "" {
      return Err(ServerError);
    }
    var updated := p.(images := p.images + [file.value]);
    StoreProfile(db, u, updated);
    r := Ok(updated.images);
  }

  /** The path deleteImage matches against: every "/" turned into "\". */
  function MatchPath(path: string): (r: string)
    ensures |r| == |path| && '/' !in r
    ensures forall i :: 0 <= i < |path| ==> r[i] == (if path[i] == '/' then '\\' else path[i])
  {
    Text.ReplaceAll(path, '/', '\\')
  }

  /** deleteImage: the entries equal to the converted path leave the list, the
      others stay in order. An empty path is a 400. */
  method DeleteImage(db: Database, u: UserId, path: string) returns (r: Result<seq<string>>)
    requires db.Valid()
    modifies db`profiles
    ensures db.Valid()
    ensures r.Err? ==> db.profiles == old(db.profiles)
    ensures path == "" ==> r == Err(BadRequest)
    ensures path != "" && u !in old(db.profiles) ==> r == Err(NotFound)
    ensures path != "" && u in old(db.profiles) ==>
      var p := old(db.profiles)[u];
      r == Ok(RemoveImage(p.images, MatchPath(path)))
      && db.profiles == old(db.profiles)[u := p.(images := RemoveImage(p.images, MatchPath(path)))]
  {
    if path == "" {
      return Err(BadRequest);
    }
    var target := MatchPath(path);
    if u !in db.profiles {
      return Err(NotFound);
    }
    var p := db.profiles[u];
    var kept := RemoveImage(p.images, target);
    assert forall i :: 0 <= i < |kept| ==> kept[i] in p.images;
    StoreProfile(db, u, p.(images := kept));
    r := Ok(kept);
  }

  /** A stored path written with "/" is never removed by deleteImage, whatever
      path the request names; a path stored with "\" is removed by naming it
      with either separator. */
  lemma DeleteImageMatchesBackslashPathsOnly(images: seq<string>, stored: string, requested: string)
    ensures '/' in stored && stored in images ==> stored in RemoveImage(images, MatchPath(requested))
    ensures MatchPath(requested) == stored ==> stored !in RemoveImage(images, MatchPath(requested))
    ensures stored == MatchPath(stored) && stored == MatchPath(Text.ReplaceAll(stored, '\\', '/')) ==>
              stored !in RemoveImage(images, MatchPath(Text.ReplaceAll(stored, '\\', '/')))
  {
  }

  /** The evidently intended deleteImage filter: a stored path leaves the list
      when it names the same file as the request, whichever separator either
      of them uses. */
  function RemoveImageIntended(images: seq<string>, path: string): (r: seq<string>)
    ensures forall x :: x in r <==> x in images && MatchPath(x) != MatchPath(path)
    ensures |r| <= |images|
  {
    if images == [] then []
    else (if MatchPath(images[0]) == MatchPath(path) then [] else [images[0]]) + RemoveImageIntended(images[1..], path)
  }

  /** With the intended filter, naming a stored path with either separator
      removes it, and only paths naming another file stay. */
  lemma IntendedDeleteRemovesEitherSpelling(images: seq<string>, stored: string)
    ensures stored !in RemoveImageIntended(images, stored)
    ensures stored !in RemoveImageIntended(images, Text.ReplaceAll(stored, '\\', '/'))
    ensures stored !in RemoveImageIntended(images, MatchPath(stored))
    ensures forall x :: x in images && MatchPath(x) != MatchPath(stored) ==> x in RemoveImageIntended(images, stored)
  {
    var forward := Text.ReplaceAll(stored, '\\', '/');
    assert MatchPath(forward) == MatchPath(stored) by {
      assert forall i :: 0 <= i < |stored| ==> MatchPath(forward)[i] == MatchPath(stored)[i];
    }
    assert MatchPath(MatchPath(stored)) == MatchPath(stored) by {
      assert forall i :: 0 <= i < |stored| ==> MatchPath(MatchPath(stored))[i] == MatchPath(stored)[i];
    }
  }

  /** Where no stored path contains "/" (paths written on Windows), the
      handler's filter and the intended one agree. */
  lemma {:induction false} IntendedDeleteAgreesOnBackslashPaths(images: seq<string>, path: string)
    requires forall i :: 0 <= i < |images| ==> '/' !in images[i]
    ensures RemoveImageIntended(images, path) == RemoveImage(images, MatchPath(path))
    decreases |images|
  {
    if images != [] {
      var x := images[0];
      assert MatchPath(x) == x by {
        assert forall i :: 0 <= i < |x| ==> MatchPath(x)[i] == x[i];
      }
      IntendedDeleteAgreesOnBackslashPaths(images[1..], path);
    }
  }

  // -------------------------------------------------------- image URLs

  /** The scheme of the served URLs. */
  const ImageScheme: string := "https://"
  /** The host the stored relative paths are served from. */
  const ImageHost: string := ImageScheme + "service-booking-backend-eb9i.onrender.com/"

  /** A path already starting with "http" is kept; any other path is served
      from the host, with every "\" turned into "/". */
  function FormatImageUrl(img: string): (url: string)
    ensures Text.StartsWith(url, "http")
    ensures Text.StartsWith(img, "http") ==> url == img
    ensures !Text.StartsWith(img, "http") ==>
      && Text.StartsWith(url, ImageHost)
      && |url| == |ImageHost| + |img|
      && '\\' !in url[|ImageHost|..]
      && forall i :: 0 <= i < |img| ==> url[|ImageHost| + i] == (if img[i] == '\\' then '/' else img[i])
  {
    if Text.StartsWith(img, "http") then img
    else
      var tail := Text.ReplaceAll(img, '\\', '/');
      var url := ImageHost + tail;
      assert url[..|ImageHost|] == ImageHost && url[|ImageHost|..] == tail;
      assert url[..4] == ImageScheme[..4];
      url
  }

  /** The image list of getUserDetails1, one URL per stored path. */
  function FormatImageUrls(images: seq<string>): (urls: seq<string>)
    ensures |urls| == |images|
    ensures forall i :: 0 <= i < |images| ==> urls[i] == FormatImageUrl(images[i])
  {
    seq(|images|, i requires 0 <= i < |images| => FormatImageUrl(images[i]))
  }

  /** Formatting is idempotent: a URL it produced is kept as it is. */
  lemma FormatImageUrlsIdempotent(images: seq<string>)
    ensures FormatImageUrls(FormatImageUrls(images)) == FormatImageUrls(images)
  {
    var once := FormatImageUrls(images);
    assert forall i :: 0 <= i < |once| ==> FormatImageUrl(once[i]) == once[i];
  }
}
