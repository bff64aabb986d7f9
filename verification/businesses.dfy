/**
 * The `businesses.save` mutation (slug collision probe, feedback URL,
 * upsert by owner) and the `businesses.forClerkUser` query.
 */
module Businesses {
  import opened Wrappers
  import opened Text
  import opened Schema

  // ---------------------------------------------------------------------------
  // Slug candidates

  /** The k-th slug the probe tries: the base itself, then `base-1`, `base-2`, ... */
  function Candidate(base: string, k: nat): string {
    if k == 0 then base else base + "-" + NatToString(k)
  }

  /** Different probe steps try different slugs. */
  lemma CandidateInjective(base: string, j: nat, k: nat)
    requires Candidate(base, j) == Candidate(base, k)
    ensures j == k
  {
    if j != 0 && k != 0 {
      var n := |base| + 1;
      assert Candidate(base, j)[n..] == NatToString(j);
      assert Candidate(base, k)[n..] == NatToString(k);
      NatToStringInjective(j, k);
    }
  }

  /** The caller's own business, as a set of at most one id. */
  function ExistingSet(existing: Option<Id>): set<Id> {
    if existing.Some? then {existing.value} else {}
  }

  /**
   * The probe stops at a slug no business holds, or that only the caller's
   * own business holds.
   */
  predicate SlugAvailable(businesses: map<Id, Business>, existing: Option<Id>, slug: string) {
    BusinessesWithSlug(businesses, slug) <= ExistingSet(existing)
  }

  /** The businesses holding one of the candidates from step `k` on. */
  ghost function HeldFrom(businesses: map<Id, Business>, base: string, k: nat): set<Id> {
    set id | id in businesses && exists j: nat :: j >= k && businesses[id].slug == Candidate(base, j)
  }

  /** A holder of candidate `k` holds none of the later candidates, so the set of holders shrinks. */
  lemma HeldShrinks(businesses: map<Id, Business>, base: string, k: nat, id: Id)
    requires id in businesses && businesses[id].slug == Candidate(base, k)
    ensures |HeldFrom(businesses, base, k + 1)| < |HeldFrom(businesses, base, k)|
  {
    var later, now := HeldFrom(businesses, base, k + 1), HeldFrom(businesses, base, k);
    assert id in now;
    if id in later {
      var j: nat :| j >= k + 1 && businesses[id].slug == Candidate(base, j);
      CandidateInjective(base, j, k);
      assert false;
    }
    assert later <= now - {id};
    SubsetCardinality(later, now - {id});
  }

  /**
   * The collision loop of `save`, from step `k`: the first candidate that is
   * available, or the throw of `.unique()` on a slug held twice.
   */
  function Probe(businesses: map<Id, Business>, existing: Option<Id>, base: string, k: nat): (r: Result<nat, Error>)
    ensures r.Success? ==> k <= r.value && SlugAvailable(businesses, existing, Candidate(base, r.value))
    ensures r.Success? ==> forall j: nat :: k <= j < r.value ==> !SlugAvailable(businesses, existing, Candidate(base, j))
    ensures r.Success? ==> r.value - k <= |HeldFrom(businesses, base, k)|
    ensures r.Failure? ==> r.error == NotUnique
    ensures r.Failure? ==> exists j: nat :: k <= j && |BusinessesWithSlug(businesses, Candidate(base, j))| >= 2
    decreases |HeldFrom(businesses, base, k)|
  {
    var lookup := BusinessBySlug(businesses, Candidate(base, k));
    LookupDecides(businesses, existing, Candidate(base, k));
    match lookup
    case Missing => Success(k)
    case Ambiguous => Failure(NotUnique)
    case Found(id) =>
      if existing == Some(id) then
        Success(k)
      else
        assert id in BusinessesWithSlug(businesses, Candidate(base, k));
        HeldShrinks(businesses, base, k, id);
        Probe(businesses, existing, base, k + 1)
  }

  /** What one probe step reads off the `by_slug` lookup. */
  lemma LookupDecides(businesses: map<Id, Business>, existing: Option<Id>, slug: string)
    ensures var lookup := BusinessBySlug(businesses, slug);
      && (lookup.Missing? ==> SlugAvailable(businesses, existing, slug))
      && (lookup.Found? && existing == Some(lookup.id) ==> SlugAvailable(businesses, existing, slug))
      && (lookup.Found? && existing != Some(lookup.id) ==> !SlugAvailable(businesses, existing, slug))
      && (lookup.Ambiguous? ==> |BusinessesWithSlug(businesses, slug)| >= 2)
  {
  }

  /** With unique slugs the probe never hits the throw. */
  lemma ProbeSucceeds(businesses: map<Id, Business>, existing: Option<Id>, base: string, k: nat)
    requires SlugsUnique(businesses)
    ensures Probe(businesses, existing, base, k).Success?
    decreases |HeldFrom(businesses, base, k)|
  {
    AtMostOne(BusinessesWithSlug(businesses, Candidate(base, k)));
    match BusinessBySlug(businesses, Candidate(base, k))
    case Missing =>
    case Ambiguous =>
    case Found(id) =>
      if existing != Some(id) {
        assert id in BusinessesWithSlug(businesses, Candidate(base, k));
        HeldShrinks(businesses, base, k, id);
        ProbeSucceeds(businesses, existing, base, k + 1);
      }
  }

  /** The probe takes at most as many steps as there are businesses. */
  lemma ProbeBound(businesses: map<Id, Business>, existing: Option<Id>, base: string)
    requires Probe(businesses, existing, base, 0).Success?
    ensures Probe(businesses, existing, base, 0).value <= |businesses|
  {
    assert HeldFrom(businesses, base, 0) <= businesses.Keys;
    SubsetCardinality(HeldFrom(businesses, base, 0), businesses.Keys);
  }

  lemma SubsetCardinality<X>(a: set<X>, b: set<X>)
    requires a <= b
    ensures |a| <= |b|
  {
    assert b == a + (b - a);
  }

  // ---------------------------------------------------------------------------
  // Feedback URL

  /** `${appUrl.replace(/\/$/, "")}/${slug}/feedback`. */
  function FeedbackUrl(appUrl: string, slug: string): string {
    StripTrailingSlash(appUrl) + "/" + slug + "/feedback"
  }

  /**
   * The URL is the app URL with at most one trailing '/' removed, followed by
   * "/", the slug and "/feedback".
   */
  lemma FeedbackUrlShape(appUrl: string, slug: string)
    ensures var base := StripTrailingSlash(appUrl);
      && FeedbackUrl(appUrl, slug) == base + "/" + slug + "/feedback"
      && (appUrl == base || appUrl == base + "/")
      && (|appUrl| > 0 && appUrl[|appUrl| - 1] == '/' ==> appUrl == base + "/")
  {
  }

  // ---------------------------------------------------------------------------
  // save

  datatype SaveArgs = SaveArgs(
    ownerUserId: Id,
    name: string,
    email: string,
    slug: string,
    appUrl: string,
    qrSvg: string)

  /** What `save` returns. */
  datatype Saved = Saved(businessId: Id, slug: string, qrSvg: string, feedbackUrl: string)

  /** The owner's business, if the non-unique `by_ownerUserId` lookup finds exactly one. */
  function ExistingOf(lookup: Lookup): Option<Id> {
    if lookup.Found? then Some(lookup.id) else None
  }

  /** `businesses.save` with `Date.now()` passed in as `now`. */
  function Save(db: Db, args: SaveArgs, now: int): Result<(Db, Saved), Error> {
    var lookup := BusinessByOwner(db.businesses, args.ownerUserId);
    if lookup.Ambiguous? then Failure(NotUnique)
    else
      var existing := ExistingOf(lookup);
      match Probe(db.businesses, existing, args.slug, 0)
      case Failure(e) => Failure(e)
      case Success(k) =>
        var slug := Candidate(args.slug, k);
        var url := FeedbackUrl(args.appUrl, slug);
        if existing.Some? then
          var id := existing.value;
          var b := db.businesses[id].(name := args.name, email := args.email, slug := slug,
                                       qrSvg := args.qrSvg, updatedAt := now);
          Success((db.(businesses := db.businesses[id := b]), Saved(id, slug, args.qrSvg, url)))
        else
          var id := db.nextId;
          var b := Business(args.ownerUserId, args.name, args.email, "", slug, args.qrSvg, now, now);
          Success((db.(businesses := db.businesses[id := b], nextId := id + 1), Saved(id, slug, args.qrSvg, url)))
  }

  /**
   * The slug `save` settles on is `base-k` (or `base` for k = 0) for the
   * smallest k whose slug is free or held only by the caller's business, and
   * k is at most the number of businesses.
   */
  lemma SaveSlugIsFirstAvailable(db: Db, args: SaveArgs, now: int)
    requires Save(db, args, now).Success?
    ensures var existing := ExistingOf(BusinessByOwner(db.businesses, args.ownerUserId));
      exists k: nat ::
        && k <= |db.businesses|
        && Save(db, args, now).value.1.slug == Candidate(args.slug, k)
        && SlugAvailable(db.businesses, existing, Candidate(args.slug, k))
        && forall j: nat :: j < k ==> !SlugAvailable(db.businesses, existing, Candidate(args.slug, j))
  {
    var existing := ExistingOf(BusinessByOwner(db.businesses, args.ownerUserId));
    ProbeBound(db.businesses, existing, args.slug);
    var k := Probe(db.businesses, existing, args.slug, 0).value;
    assert Save(db, args, now).value.1.slug == Candidate(args.slug, k);
  }

  /** A requested slug that is free, or held only by the caller's business, is kept as it is. */
  lemma SaveKeepsAvailableSlug(db: Db, args: SaveArgs, now: int)
    requires Valid(db)
    requires !BusinessByOwner(db.businesses, args.ownerUserId).Ambiguous?
    requires SlugAvailable(db.businesses, ExistingOf(BusinessByOwner(db.businesses, args.ownerUserId)), args.slug)
    ensures Save(db, args, now).Success?
    ensures Save(db, args, now).value.1.slug == args.slug
  {
    var existing := ExistingOf(BusinessByOwner(db.businesses, args.ownerUserId));
    ProbeSucceeds(db.businesses, existing, args.slug, 0);
  }

  /** On a consistent store `save` fails only when the owner already has several businesses. */
  lemma SaveFailure(db: Db, args: SaveArgs, now: int)
    requires Valid(db)
    ensures Save(db, args, now).Failure? <==> BusinessByOwner(db.businesses, args.ownerUserId).Ambiguous?
  {
    var existing := ExistingOf(BusinessByOwner(db.businesses, args.ownerUserId));
    ProbeSucceeds(db.businesses, existing, args.slug, 0);
  }

  /** The returned URL is built from the app URL and the slug actually stored. */
  lemma SaveFeedbackUrl(db: Db, args: SaveArgs, now: int)
    requires Save(db, args, now).Success?
    ensures var (db', saved) := Save(db, args, now).value;
      && saved.feedbackUrl == FeedbackUrl(args.appUrl, saved.slug)
      && saved.qrSvg == args.qrSvg
      && saved.businessId in db'.businesses
      && db'.businesses[saved.businessId].slug == saved.slug
  {
  }

  /**
   * An owner with one business gets that business patched: same id, only
   * name, email, slug, qrSvg and updatedAt rewritten, no row inserted and no
   * other row touched.
   */
  lemma SaveExisting(db: Db, args: SaveArgs, now: int, id: Id)
    requires BusinessByOwner(db.businesses, args.ownerUserId) == Found(id)
    requires Save(db, args, now).Success?
    ensures var (db', saved) := Save(db, args, now).value;
      var b := db.businesses[id];
      var b' := db'.businesses[saved.businessId];
      && saved.businessId == id
      && db'.businesses.Keys == db.businesses.Keys
      && b'.name == args.name && b'.email == args.email && b'.qrSvg == args.qrSvg
      && b'.slug == saved.slug && b'.updatedAt == now
      && b'.ownerUserId == b.ownerUserId && b'.phone == b.phone && b'.createdAt == b.createdAt
      && (forall other :: other in db.businesses && other != id ==> db'.businesses[other] == db.businesses[other])
      && db'.users == db.users && db'.feedbacks == db.feedbacks && db'.aggregates == db.aggregates
      && db'.nextId == db.nextId
  {
    assert id in BusinessesOwnedBy(db.businesses, args.ownerUserId);
  }

  /**
   * An owner without a business gets exactly one new row, with an empty
   * phone and createdAt = updatedAt = now.
   */
  lemma SaveNew(db: Db, args: SaveArgs, now: int)
    requires BusinessByOwner(db.businesses, args.ownerUserId).Missing?
    requires Save(db, args, now).Success?
    ensures var (db', saved) := Save(db, args, now).value;
      && saved.businessId == db.nextId
      && db'.businesses == db.businesses[saved.businessId :=
           Business(args.ownerUserId, args.name, args.email, "", saved.slug, args.qrSvg, now, now)]
      && db'.users == db.users && db'.feedbacks == db.feedbacks && db'.aggregates == db.aggregates
  {
  }

  /** The stored slug is held by no other business, so `save` keeps the store consistent. */
  lemma SavePreservesValid(db: Db, args: SaveArgs, now: int)
    requires Valid(db)
    requires Save(db, args, now).Success?
    ensures var (db', saved) := Save(db, args, now).value;
      && Valid(db')
      && BusinessesWithSlug(db'.businesses, saved.slug) == {saved.businessId}
  {
    var (db', saved) := Save(db, args, now).value;
    SaveShape(db, args, now);
    SaveSlugIsFree(db, args, now);
    PutBusinessKeepsValid(db, saved.businessId, db'.businesses[saved.businessId], db'.nextId);
  }

  /** A successful `save` writes one business row, either the caller's or a new one at the next id. */
  lemma SaveShape(db: Db, args: SaveArgs, now: int)
    requires Valid(db)
    requires Save(db, args, now).Success?
    ensures var (db', saved) := Save(db, args, now).value;
      && saved.businessId in db'.businesses
      && db'.businesses[saved.businessId].slug == saved.slug
      && db' == db.(businesses := db.businesses[saved.businessId := db'.businesses[saved.businessId]], nextId := db'.nextId)
      && db.nextId <= db'.nextId && saved.businessId < db'.nextId
  {
    var lookup := BusinessByOwner(db.businesses, args.ownerUserId);
    if lookup.Found? {
      assert lookup.id in BusinessesOwnedBy(db.businesses, args.ownerUserId);
    }
  }

  /** No business other than the saved one holds the slug `save` settles on. */
  lemma SaveSlugIsFree(db: Db, args: SaveArgs, now: int)
    requires Save(db, args, now).Success?
    ensures var saved := Save(db, args, now).value.1;
      forall other :: other in db.businesses && other != saved.businessId ==> db.businesses[other].slug != saved.slug
  {
    var saved := Save(db, args, now).value.1;
    var existing := ExistingOf(BusinessByOwner(db.businesses, args.ownerUserId));
    var held := BusinessesWithSlug(db.businesses, saved.slug);
    assert held <= ExistingSet(existing);
    forall other | other in db.businesses && other != saved.businessId
      ensures db.businesses[other].slug != saved.slug
    {
      assert other !in held;
    }
  }

  /** Writing a business whose slug no other business holds keeps the store consistent. */
  lemma PutBusinessKeepsValid(db: Db, id: Id, b: Business, nextId: int)
    requires Valid(db)
    requires db.nextId <= nextId && id < nextId
    requires forall other :: other in db.businesses && other != id ==> db.businesses[other].slug != b.slug
    ensures Valid(db.(businesses := db.businesses[id := b], nextId := nextId))
    ensures BusinessesWithSlug(db.businesses[id := b], b.slug) == {id}
  {
    var bs := db.businesses[id := b];
    assert id in BusinessesWithSlug(bs, b.slug);
  }

  /** At most one business per owner: `by_ownerUserId` is not declared unique, but `save` keeps it so. */
  predicate OwnersUnique(businesses: map<Id, Business>) {
    forall a, b :: a in businesses && b in businesses && businesses[a].ownerUserId == businesses[b].ownerUserId ==> a == b
  }

  lemma SaveKeepsOwnersUnique(db: Db, args: SaveArgs, now: int)
    requires IdsFresh(db)
    requires OwnersUnique(db.businesses)
    requires Save(db, args, now).Success?
    ensures OwnersUnique(Save(db, args, now).value.0.businesses)
  {
    var owned := BusinessesOwnedBy(db.businesses, args.ownerUserId);
    AtMostOne(owned);
    if owned == {} {
      forall other | other in db.businesses ensures db.businesses[other].ownerUserId != args.ownerUserId {
        assert other !in owned;
      }
    }
  }

  // ---------------------------------------------------------------------------
  // forClerkUser

  /** What `forClerkUser` returns for a user with a business. */
  datatype BusinessView = BusinessView(
    id: Id,
    name: string,
    email: string,
    slug: string,
    qrSvg: string,
    feedbackUrl: Option<string>,
    createdAt: int,
    updatedAt: int)

  /** JavaScript truthiness of an optional string: present and non-empty. */
  predicate Truthy(s: Option<string>) {
    s.Some? && s.value != ""
  }

  /** The URL `forClerkUser` reports: null unless the app URL, trimmed of one '/', is non-empty. */
  function OptionalFeedbackUrl(appUrl: Option<string>, slug: string): Option<string> {
    var baseUrl := if Truthy(appUrl) then Some(StripTrailingSlash(appUrl.value)) else None;
    if Truthy(baseUrl) then Some(baseUrl.value + "/" + slug + "/feedback") else None
  }

  /**
   * The reported URL is null exactly when the app URL is absent, empty or a
   * lone "/", and otherwise the URL `save` builds.
   */
  lemma OptionalFeedbackUrlCases(appUrl: Option<string>, slug: string)
    ensures OptionalFeedbackUrl(appUrl, slug).None? <==> appUrl.None? || appUrl.value == "" || appUrl.value == "/"
    ensures OptionalFeedbackUrl(appUrl, slug).Some? ==> OptionalFeedbackUrl(appUrl, slug).value == FeedbackUrl(appUrl.value, slug)
  {
  }

  function ForClerkUser(db: Db, clerkUserId: string, appUrl: Option<string>): Result<Option<BusinessView>, Error> {
    match UserByClerkId(db.users, clerkUserId)
    case Ambiguous => Failure(NotUnique)
    case Missing => Success(None)
    case Found(userId) =>
      match BusinessByOwner(db.businesses, userId)
      case Ambiguous => Failure(NotUnique)
      case Missing => Success(None)
      case Found(id) =>
        var b := db.businesses[id];
        Success(Some(BusinessView(id, b.name, b.email, b.slug, b.qrSvg,
                                  OptionalFeedbackUrl(appUrl, b.slug), b.createdAt, b.updatedAt)))
  }

  /**
   * `forClerkUser` answers null when the Clerk user is unknown or owns no
   * business, and otherwise projects the business row that user owns.
   */
  lemma ForClerkUserAnswers(db: Db, clerkUserId: string, appUrl: Option<string>)
    requires Valid(db)
    requires ForClerkUser(db, clerkUserId, appUrl).Success?
    ensures ForClerkUser(db, clerkUserId, appUrl).value.None? <==>
      || UsersWithClerkId(db.users, clerkUserId) == {}
      || exists u :: u in UsersWithClerkId(db.users, clerkUserId) && BusinessesOwnedBy(db.businesses, u) == {}
    ensures ForClerkUser(db, clerkUserId, appUrl).value.Some? ==>
      var v := ForClerkUser(db, clerkUserId, appUrl).value.value;
      && v.id in db.businesses
      && db.businesses[v.id].ownerUserId in db.users
      && db.users[db.businesses[v.id].ownerUserId].clerkUserId == clerkUserId
      && var b := db.businesses[v.id];
         v == BusinessView(v.id, b.name, b.email, b.slug, b.qrSvg,
                           OptionalFeedbackUrl(appUrl, b.slug), b.createdAt, b.updatedAt)
  {
    UniqueIndexNeverAmbiguous(db, clerkUserId, "", 0, "");
    var users := UsersWithClerkId(db.users, clerkUserId);
    AtMostOne(users);
    if users != {} {
      var u :| u in users;
      SingletonMembers(users, u);
      if BusinessesOwnedBy(db.businesses, u) != {} {
        var v := ForClerkUser(db, clerkUserId, appUrl).value.value;
        assert v.id in BusinessesOwnedBy(db.businesses, u);
      }
    }
  }
}
