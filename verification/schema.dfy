/**
 * The four tables of the Convex schema (`users`, `businesses`, `feedbacks`,
 * `aggregates_daily`) as maps from id to record, the indexes the schema
 * declares unique, and the `.unique()` index query every mutation uses.
 */
module Schema {
  import opened Wrappers

  /** Store-assigned document ids. */
  type Id = nat

  datatype Status = New | Seen | Archived

  datatype Source = Qr | Link | Kiosk

  datatype User = User(
    clerkUserId: string,
    email: string,
    createdAt: int,
    lastSeenAt: Option<int>,
    organisationName: string,
    organisationID: string)

  datatype Business = Business(
    ownerUserId: Id,
    name: string,
    email: string,
    phone: string,
    slug: string,
    qrSvg: string,
    createdAt: int,
    updatedAt: int)

  datatype Feedback = Feedback(
    businessId: Id,
    rating: real,
    message: string,
    createdAt: int,
    status: Status,
    source: Option<Source>,
    ipHash: Option<string>)

  datatype DailyAggregate = DailyAggregate(
    businessId: Id,
    date: string,
    count: nat,
    avgRating: real,
    createdAt: int)

  /** The database: one map per table and the next id the store will hand out. */
  datatype Db = Db(
    users: map<Id, User>,
    businesses: map<Id, Business>,
    feedbacks: map<Id, Feedback>,
    aggregates: map<Id, DailyAggregate>,
    nextId: Id)

  /** The errors the mutations and queries throw. */
  datatype Error =
    | RatingOutOfRange
    | RatingNotHalfStep
    | EmptyMessage
    | BusinessNotFound
    | NotUnique
    | UniqueIndexViolation

  /** The message of each error the mutations throw themselves (the other two come from the store). */
  function Message(e: Error): string
    requires !e.NotUnique? && !e.UniqueIndexViolation?
  {
    match e
    case RatingOutOfRange => "Rating must be between 0.5 and 5."
    case RatingNotHalfStep => "Rating must be provided in increments of 0.5 stars."
    case EmptyMessage => "Feedback message cannot be empty."
    case BusinessNotFound => "Business not found."
  }

  // ---------------------------------------------------------------------------
  // Unique indexes

  /** by_clerkUserId is unique. */
  predicate ClerkIdsUnique(users: map<Id, User>) {
    forall a, b :: a in users && b in users && users[a].clerkUserId == users[b].clerkUserId ==> a == b
  }

  /** by_organisationID is unique. */
  predicate OrganisationIdsUnique(users: map<Id, User>) {
    forall a, b :: a in users && b in users && users[a].organisationID == users[b].organisationID ==> a == b
  }

  /** by_slug is unique. */
  predicate SlugsUnique(businesses: map<Id, Business>) {
    forall a, b :: a in businesses && b in businesses && businesses[a].slug == businesses[b].slug ==> a == b
  }

  /** by_businessId_date is unique. */
  predicate AggregateKeysUnique(aggregates: map<Id, DailyAggregate>) {
    forall a, b ::
      a in aggregates && b in aggregates
      && aggregates[a].businessId == aggregates[b].businessId
      && aggregates[a].date == aggregates[b].date
      ==> a == b
  }

  /** Every id in use is below `nextId`, so the id of the next insert is new in every table. */
  predicate IdsFresh(db: Db) {
    && (forall id :: id in db.users ==> id < db.nextId)
    && (forall id :: id in db.businesses ==> id < db.nextId)
    && (forall id :: id in db.feedbacks ==> id < db.nextId)
    && (forall id :: id in db.aggregates ==> id < db.nextId)
  }

  /** Every stored daily aggregate has folded at least one rating. */
  predicate CountsPositive(aggregates: map<Id, DailyAggregate>) {
    forall id :: id in aggregates ==> aggregates[id].count >= 1
  }

  /** The state every mutation starts from and must leave behind. */
  predicate Valid(db: Db) {
    && IdsFresh(db)
    && ClerkIdsUnique(db.users)
    && OrganisationIdsUnique(db.users)
    && SlugsUnique(db.businesses)
    && AggregateKeysUnique(db.aggregates)
    && CountsPositive(db.aggregates)
  }

  // ---------------------------------------------------------------------------
  // Index queries

  /** Outcome of `.withIndex(...).unique()`: no match, one match, or a throw for several. */
  datatype Lookup = Missing | Found(id: Id) | Ambiguous

  lemma SingletonMembers<X>(s: set<X>, x: X)
    requires |s| == 1 && x in s
    ensures s == {x}
  {
    assert |s - {x}| == 0;
  }

  /** `.unique()` over the ids of the matching rows. */
  function Unique(matches: set<Id>): (r: Lookup)
    ensures r.Missing? <==> matches == {}
    ensures r.Found? <==> |matches| == 1
    ensures r.Found? ==> matches == {r.id}
    ensures r.Ambiguous? <==> |matches| >= 2
  {
    if |matches| == 0 then
      Missing
    else if |matches| == 1 then
      assert forall a, b :: a in matches && b in matches ==> a == b by {
        forall a, b | a in matches && b in matches ensures a == b {
          SingletonMembers(matches, a);
        }
      }
      var id :| id in matches;
      SingletonMembers(matches, id);
      Found(id)
    else
      Ambiguous
  }

  lemma AtMostOne(matches: set<Id>)
    requires forall a, b :: a in matches && b in matches ==> a == b
    ensures |matches| <= 1
  {
    if matches != {} {
      var a :| a in matches;
      assert matches == {a};
    }
  }

  function UsersWithClerkId(users: map<Id, User>, clerkUserId: string): set<Id> {
    set id | id in users && users[id].clerkUserId == clerkUserId
  }

  function BusinessesWithSlug(businesses: map<Id, Business>, slug: string): set<Id> {
    set id | id in businesses && businesses[id].slug == slug
  }

  function BusinessesOwnedBy(businesses: map<Id, Business>, owner: Id): set<Id> {
    set id | id in businesses && businesses[id].ownerUserId == owner
  }

  function AggregatesWithKey(aggregates: map<Id, DailyAggregate>, businessId: Id, date: string): set<Id> {
    set id | id in aggregates && aggregates[id].businessId == businessId && aggregates[id].date == date
  }

  /** `users.withIndex("by_clerkUserId").unique()`. */
  function UserByClerkId(users: map<Id, User>, clerkUserId: string): Lookup {
    Unique(UsersWithClerkId(users, clerkUserId))
  }

  /** `businesses.withIndex("by_slug").unique()`. */
  function BusinessBySlug(businesses: map<Id, Business>, slug: string): Lookup {
    Unique(BusinessesWithSlug(businesses, slug))
  }

  /** `businesses.withIndex("by_ownerUserId").unique()`: this index is not unique in the schema. */
  function BusinessByOwner(businesses: map<Id, Business>, owner: Id): Lookup {
    Unique(BusinessesOwnedBy(businesses, owner))
  }

  /** `aggregates_daily.withIndex("by_businessId_date").unique()`. */
  function AggregateByKey(aggregates: map<Id, DailyAggregate>, businessId: Id, date: string): Lookup {
    Unique(AggregatesWithKey(aggregates, businessId, date))
  }

  /** On an index the schema declares unique, the query never throws. */
  lemma UniqueIndexNeverAmbiguous(db: Db, clerkUserId: string, slug: string, businessId: Id, date: string)
    requires Valid(db)
    ensures !UserByClerkId(db.users, clerkUserId).Ambiguous?
    ensures !BusinessBySlug(db.businesses, slug).Ambiguous?
    ensures !AggregateByKey(db.aggregates, businessId, date).Ambiguous?
  {
    AtMostOne(UsersWithClerkId(db.users, clerkUserId));
    AtMostOne(BusinessesWithSlug(db.businesses, slug));
    AtMostOne(AggregatesWithKey(db.aggregates, businessId, date));
  }
}
