/**
 * The `feedbacks.submit` mutation: validate the rating and message, resolve
 * the business by slug, insert the feedback row, then insert or patch the
 * business's `aggregates_daily` row for the UTC day of the submission,
 * keeping `avgRating` as a running mean over `count` ratings.
 */
module Feedbacks {
  import opened Wrappers
  import opened Numeric
  import opened Text
  import opened Calendar
  import opened Schema

  datatype SubmitArgs = SubmitArgs(
    slug: string,
    rating: real,
    message: string,
    source: Option<Source>,
    ipHash: Option<string>)

  /** How far `rating * 2` may sit from an integer (1e-8). */
  const HalfStepTolerance: real := 0.00000001

  /** Not rejected by `rating < 0.5 || rating > 5`. */
  predicate InRange(rating: real) {
    !(rating < 0.5 || rating > 5.0)
  }

  /** Not rejected by `Math.abs(rating * 2 - Math.round(rating * 2)) > 1e-8`. */
  predicate OnHalfStep(rating: real) {
    !(Abs(rating * 2.0 - Round(rating * 2.0) as real) > HalfStepTolerance)
  }

  /** The first check `submit` fails, in the order the source makes them. */
  function Validate(args: SubmitArgs): (e: Option<Error>)
    ensures e == None <==> InRange(args.rating) && OnHalfStep(args.rating) && !AllWhitespace(args.message)
    ensures e.Some? ==> e.value in {RatingOutOfRange, RatingNotHalfStep, EmptyMessage}
  {
    TrimSpec(args.message);
    if !InRange(args.rating) then Some(RatingOutOfRange)
    else if !OnHalfStep(args.rating) then Some(RatingNotHalfStep)
    else if Trim(args.message) == "" then Some(EmptyMessage)
    else None
  }

  /** `rating` lies within the tolerance of the half-step `k / 2`. */
  predicate NearHalfStep(rating: real, k: int) {
    Abs(rating * 2.0 - k as real) <= HalfStepTolerance
  }

  /**
   * The ratings `submit` accepts are those within 1e-8 / 2 of one of the
   * half-steps 0.5, 1.0, ..., 5.0 (and inside [0.5, 5]).
   */
  lemma AcceptedRatings(rating: real)
    ensures InRange(rating) && OnHalfStep(rating) <==>
      && 0.5 <= rating <= 5.0
      && exists k :: 1 <= k <= 10 && NearHalfStep(rating, k)
  {
    if InRange(rating) && OnHalfStep(rating) {
      var k := Round(rating * 2.0);
      assert 1 <= k <= 10;
      assert NearHalfStep(rating, k);
    }
    if 0.5 <= rating <= 5.0 && exists k :: 1 <= k <= 10 && NearHalfStep(rating, k) {
      var k :| 1 <= k <= 10 && NearHalfStep(rating, k);
      assert Round(rating * 2.0) == k;
    }
  }

  /** Every exact half-step from 0.5 to 5.0 passes both rating checks. */
  lemma HalfStepsAccepted(k: int)
    requires 1 <= k <= 10
    ensures InRange(k as real / 2.0) && OnHalfStep(k as real / 2.0)
  {
    assert (k as real / 2.0) * 2.0 == k as real;
    assert Round(k as real) == k;
  }

  /** The rating sum a row stands for: `avgRating * count`. */
  function RatingTotal(a: DailyAggregate): real {
    a.avgRating * a.count as real
  }

  /** The daily aggregate patch: one more rating folded into the running mean. */
  function FoldRating(a: DailyAggregate, rating: real): (a': DailyAggregate)
    ensures a'.count == a.count + 1
    ensures RatingTotal(a') == RatingTotal(a) + rating
    ensures a'.businessId == a.businessId && a'.date == a.date && a'.createdAt == a.createdAt
  {
    var newCount := a.count + 1;
    var newAvg := (a.avgRating * a.count as real + rating) / newCount as real;
    a.(count := newCount, avgRating := newAvg)
  }

  /** The feedback row `submit` inserts. */
  function NewFeedback(businessId: Id, args: SubmitArgs, now: int): Feedback {
    Feedback(businessId, args.rating, Trim(args.message), now, New, Some(args.source.GetOr(Qr)), args.ipHash)
  }

  /**
   * The `aggregates_daily` upsert: patch the row for (businessId, date) with
   * one more rating, or insert a first row under `freshId`.
   */
  function UpsertDaily(aggs: map<Id, DailyAggregate>, freshId: Id, businessId: Id, date: string, rating: real, now: int)
    : Result<map<Id, DailyAggregate>, Error>
  {
    match AggregateByKey(aggs, businessId, date)
    case Ambiguous => Failure(NotUnique)
    case Found(id) => Success(aggs[id := FoldRating(aggs[id], rating)])
    case Missing => Success(aggs[freshId := DailyAggregate(businessId, date, 1, rating, now)])
  }

  /** `feedbacks.submit` with `Date.now()` passed in as `now`; returns the new state and the feedback id. */
  function Submit(db: Db, args: SubmitArgs, now: int): Result<(Db, Id), Error> {
    SubmitOn(db, args, now, ToDateKey(now))
  }

  /** `submit` with the day key of `now` already computed as `date`. */
  function SubmitOn(db: Db, args: SubmitArgs, now: int, date: string): Result<(Db, Id), Error> {
    match Validate(args)
    case Some(e) => Failure(e)
    case None =>
      match BusinessBySlug(db.businesses, args.slug)
      case Missing => Failure(BusinessNotFound)
      case Ambiguous => Failure(NotUnique)
      case Found(businessId) =>
        var feedbackId := db.nextId;
        var db1 := db.(feedbacks := db.feedbacks[feedbackId := NewFeedback(businessId, args, now)],
                       nextId := feedbackId + 1);
        // The id after the feedback's is reserved for a new daily row; the patch
        // path leaves it unused, which is harmless since ids are opaque.
        match UpsertDaily(db1.aggregates, db1.nextId, businessId, date, args.rating, now)
        case Failure(e) => Failure(e)
        case Success(aggregates) => Success((db1.(aggregates := aggregates, nextId := db1.nextId + 1), feedbackId))
  }

  /**
   * The error paths of `submit`, in the order the source checks them: the
   * rating range, the half-step, the trimmed message, then the business.
   */
  lemma SubmitRejects(db: Db, args: SubmitArgs, now: int)
    ensures !InRange(args.rating) ==> Submit(db, args, now) == Failure(RatingOutOfRange)
    ensures InRange(args.rating) && !OnHalfStep(args.rating) ==> Submit(db, args, now) == Failure(RatingNotHalfStep)
    ensures InRange(args.rating) && OnHalfStep(args.rating) && AllWhitespace(args.message)
            ==> Submit(db, args, now) == Failure(EmptyMessage)
    ensures Validate(args) == None && BusinessBySlug(db.businesses, args.slug).Missing?
            ==> Submit(db, args, now) == Failure(BusinessNotFound)
  {
  }

  /** Validation happens before the store is consulted: its outcome is the same for every state and time. */
  lemma ValidationPrecedesWrites(db1: Db, db2: Db, args: SubmitArgs, now1: int, now2: int)
    requires Validate(args).Some?
    ensures Submit(db1, args, now1) == Submit(db2, args, now2) == Failure(Validate(args).value)
  {
  }

  // ---------------------------------------------------------------------------
  // The daily roll-up

  /** A number of ratings and their sum. */
  datatype Totals = Totals(count: int, sum: real) {
    function Add(n: int, s: real): Totals {
      Totals(count + n, sum + s)
    }
  }

  /** (count, avgRating * count) of the aggregate row for (businessId, date); (0, 0) when there is none. */
  function DayTotals(aggregates: map<Id, DailyAggregate>, businessId: Id, date: string): Totals {
    match AggregateByKey(aggregates, businessId, date)
    case Found(id) => Totals(aggregates[id].count, RatingTotal(aggregates[id]))
    case _ => Totals(0, 0.0)
  }

  /**
   * A successful `submit` inserts exactly one feedback row, with the trimmed
   * message, `createdAt = now`, status "new" and source defaulting to "qr";
   * the users and businesses tables are untouched.
   */
  lemma SubmitInsertsOneFeedback(db: Db, args: SubmitArgs, now: int)
    requires Valid(db)
    requires Submit(db, args, now).Success?
    ensures var (db', feedbackId) := Submit(db, args, now).value;
      var businessId := BusinessBySlug(db.businesses, args.slug).id;
      && feedbackId !in db.feedbacks
      && db'.feedbacks == db.feedbacks[feedbackId := NewFeedback(businessId, args, now)]
      && db'.feedbacks[feedbackId].businessId == businessId
      && db'.feedbacks[feedbackId].rating == args.rating
      && db'.feedbacks[feedbackId].createdAt == now
      && db'.feedbacks[feedbackId].status == New
      && db'.feedbacks[feedbackId].message == Trim(args.message)
      && db'.feedbacks[feedbackId].source == Some(args.source.GetOr(Qr))
      && db'.users == db.users
      && db'.businesses == db.businesses
  {
  }

  /** The upsert keeps (businessId, date) unique, every count positive, and adds at most `freshId`. */
  lemma UpsertDailyKeepsValid(aggs: map<Id, DailyAggregate>, freshId: Id, businessId: Id, date: string, rating: real, now: int)
    requires AggregateKeysUnique(aggs) && CountsPositive(aggs)
    requires freshId !in aggs
    ensures UpsertDaily(aggs, freshId, businessId, date, rating, now).Success?
    ensures var aggs' := UpsertDaily(aggs, freshId, businessId, date, rating, now).value;
      && AggregateKeysUnique(aggs')
      && CountsPositive(aggs')
      && aggs'.Keys <= aggs.Keys + {freshId}
  {
    var ids := AggregatesWithKey(aggs, businessId, date);
    AtMostOneKeyed(aggs, businessId, date);
    if ids == {} {
      UpsertInserts(aggs, freshId, businessId, date, rating, now);
    } else {
      var id :| id in ids;
      SingletonMembers(ids, id);
      UpsertPatches(aggs, id, freshId, businessId, date, rating, now);
    }
  }

  /**
   * The upsert folds exactly one rating into the key it writes: that key's
   * (count, avg * count) grows by (1, rating).
   */
  lemma UpsertDailyFolds(aggs: map<Id, DailyAggregate>, freshId: Id, businessId: Id, date: string, rating: real, now: int)
    requires AggregateKeysUnique(aggs) && CountsPositive(aggs)
    requires freshId !in aggs
    ensures UpsertDaily(aggs, freshId, businessId, date, rating, now).Success?
    ensures DayTotals(UpsertDaily(aggs, freshId, businessId, date, rating, now).value, businessId, date)
            == DayTotals(aggs, businessId, date).Add(1, rating)
  {
    var ids := AggregatesWithKey(aggs, businessId, date);
    AtMostOneKeyed(aggs, businessId, date);
    if ids == {} {
      UpsertInserts(aggs, freshId, businessId, date, rating, now);
    } else {
      var id :| id in ids;
      SingletonMembers(ids, id);
      UpsertPatches(aggs, id, freshId, businessId, date, rating, now);
    }
  }

  /** The upsert when the key has no row yet: a first row with count 1 under `freshId`. */
  lemma UpsertInserts(aggs: map<Id, DailyAggregate>, freshId: Id, businessId: Id, date: string, rating: real, now: int)
    requires AggregateKeysUnique(aggs) && CountsPositive(aggs)
    requires freshId !in aggs
    requires AggregatesWithKey(aggs, businessId, date) == {}
    ensures UpsertDaily(aggs, freshId, businessId, date, rating, now)
            == Success(aggs[freshId := DailyAggregate(businessId, date, 1, rating, now)])
    ensures var aggs' := aggs[freshId := DailyAggregate(businessId, date, 1, rating, now)];
      && AggregateKeysUnique(aggs')
      && CountsPositive(aggs')
      && DayTotals(aggs, businessId, date) == Totals(0, 0.0)
      && DayTotals(aggs', businessId, date) == Totals(1, rating)
  {
    var inserted := DailyAggregate(businessId, date, 1, rating, now);
    var aggs' := aggs[freshId := inserted];
    InsertKeepsKeysUnique(aggs, freshId, inserted);
    assert AggregatesWithKey(aggs', businessId, date) == {freshId};
    TotalsOfSingle(aggs', businessId, date, freshId);
  }

  /** The upsert when the key has row `id`: that row folds the rating. */
  lemma UpsertPatches(aggs: map<Id, DailyAggregate>, id: Id, freshId: Id, businessId: Id, date: string, rating: real, now: int)
    requires AggregateKeysUnique(aggs) && CountsPositive(aggs)
    requires AggregatesWithKey(aggs, businessId, date) == {id}
    ensures UpsertDaily(aggs, freshId, businessId, date, rating, now)
            == Success(aggs[id := FoldRating(aggs[id], rating)])
    ensures var aggs' := aggs[id := FoldRating(aggs[id], rating)];
      && AggregateKeysUnique(aggs')
      && CountsPositive(aggs')
      && DayTotals(aggs, businessId, date) == Totals(aggs[id].count, RatingTotal(aggs[id]))
      && DayTotals(aggs', businessId, date) == Totals(aggs[id].count + 1, RatingTotal(aggs[id]) + rating)
  {
    var a := FoldRating(aggs[id], rating);
    var aggs' := aggs[id := a];
    SameKeyReplaced(aggs, id, a);
    assert AggregatesWithKey(aggs', businessId, date) == {id};
    TotalsOfSingle(aggs, businessId, date, id);
    TotalsOfSingle(aggs', businessId, date, id);
  }

  lemma TotalsOfSingle(aggs: map<Id, DailyAggregate>, businessId: Id, date: string, id: Id)
    requires AggregatesWithKey(aggs, businessId, date) == {id}
    ensures DayTotals(aggs, businessId, date) == Totals(aggs[id].count, RatingTotal(aggs[id]))
  {
    assert id in AggregatesWithKey(aggs, businessId, date);
  }

  lemma InsertKeepsKeysUnique(aggs: map<Id, DailyAggregate>, freshId: Id, a: DailyAggregate)
    requires AggregateKeysUnique(aggs)
    requires freshId !in aggs
    requires AggregatesWithKey(aggs, a.businessId, a.date) == {}
    ensures AggregateKeysUnique(aggs[freshId := a])
  {
    forall id | id in aggs
      ensures aggs[id].businessId != a.businessId || aggs[id].date != a.date
    {
      assert id !in AggregatesWithKey(aggs, a.businessId, a.date);
    }
  }

  /** Replacing a row by one with the same key keeps the keys unique. */
  lemma SameKeyReplaced(aggs: map<Id, DailyAggregate>, id: Id, a: DailyAggregate)
    requires AggregateKeysUnique(aggs)
    requires id in aggs && aggs[id].businessId == a.businessId && aggs[id].date == a.date
    ensures AggregateKeysUnique(aggs[id := a])
  {
  }

  lemma AtMostOneKeyed(aggs: map<Id, DailyAggregate>, businessId: Id, date: string)
    requires AggregateKeysUnique(aggs)
    ensures |AggregatesWithKey(aggs, businessId, date)| <= 1
  {
    AtMostOne(AggregatesWithKey(aggs, businessId, date));
  }

  /** The totals of a key depend only on which rows carry that key and on those rows. */
  lemma TotalsDependOnKeyRows(aggs: map<Id, DailyAggregate>, aggs': map<Id, DailyAggregate>, b: Id, d: string)
    requires AggregatesWithKey(aggs', b, d) == AggregatesWithKey(aggs, b, d)
    requires forall id :: id in AggregatesWithKey(aggs, b, d) ==> aggs'[id] == aggs[id]
    ensures DayTotals(aggs', b, d) == DayTotals(aggs, b, d)
  {
  }

  /** Writing a row under one key leaves the totals of every other key unchanged. */
  lemma UpsertDailyFrame(aggs: map<Id, DailyAggregate>, freshId: Id, businessId: Id, date: string, rating: real, now: int, b: Id, d: string)
    requires AggregateKeysUnique(aggs)
    requires freshId !in aggs
    requires b != businessId || d != date
    ensures UpsertDaily(aggs, freshId, businessId, date, rating, now).Success?
    ensures DayTotals(UpsertDaily(aggs, freshId, businessId, date, rating, now).value, b, d) == DayTotals(aggs, b, d)
  {
    AtMostOneKeyed(aggs, businessId, date);
    var aggs' := UpsertDaily(aggs, freshId, businessId, date, rating, now).value;
    assert AggregatesWithKey(aggs', b, d) == AggregatesWithKey(aggs, b, d);
    TotalsDependOnKeyRows(aggs, aggs', b, d);
  }

  /** The state a successful `submit` leaves, spelled out. */
  lemma SubmitShape(db: Db, args: SubmitArgs, now: int, date: string)
    requires SubmitOn(db, args, now, date).Success?
    ensures Validate(args) == None && BusinessBySlug(db.businesses, args.slug).Found?
    ensures var businessId := BusinessBySlug(db.businesses, args.slug).id;
      var aggs := UpsertDaily(db.aggregates, db.nextId + 1, businessId, date, args.rating, now);
      && aggs.Success?
      && SubmitOn(db, args, now, date).value
         == (db.(feedbacks := db.feedbacks[db.nextId := NewFeedback(businessId, args, now)],
                 aggregates := aggs.value,
                 nextId := db.nextId + 2),
             db.nextId)
  {
  }

  /** `submit` keeps every id fresh, every unique index unique and every count positive. */
  lemma SubmitPreservesValid(db: Db, args: SubmitArgs, now: int, date: string)
    requires Valid(db)
    requires SubmitOn(db, args, now, date).Success?
    ensures Valid(SubmitOn(db, args, now, date).value.0)
  {
    var businessId := BusinessBySlug(db.businesses, args.slug).id;
    SubmitShape(db, args, now, date);
    ValidAggregates(db);
    UpsertDailyKeepsValid(db.aggregates, db.nextId + 1, businessId, date, args.rating, now);
    RecordKeepsValid(db, NewFeedback(businessId, args, now),
                     UpsertDaily(db.aggregates, db.nextId + 1, businessId, date, args.rating, now).value);
  }

  /** Storing a feedback at the next id and aggregates that keep their invariants keeps the store consistent. */
  lemma RecordKeepsValid(db: Db, f: Feedback, aggs: map<Id, DailyAggregate>)
    requires Valid(db)
    requires AggregateKeysUnique(aggs) && CountsPositive(aggs)
    requires aggs.Keys <= db.aggregates.Keys + {db.nextId + 1}
    ensures Valid(db.(feedbacks := db.feedbacks[db.nextId := f], aggregates := aggs, nextId := db.nextId + 2))
  {
  }

  /**
   * The roll-up effect of a successful `submit`: the day's (count, avg * count)
   * for the business grows by (1, rating).
   */
  lemma SubmitFoldsDay(db: Db, args: SubmitArgs, now: int, date: string, businessId: Id, db': Db, feedbackId: Id)
    requires Valid(db)
    requires BusinessBySlug(db.businesses, args.slug) == Found(businessId)
    requires SubmitOn(db, args, now, date) == Success((db', feedbackId))
    ensures DayTotals(db'.aggregates, businessId, date) == DayTotals(db.aggregates, businessId, date).Add(1, args.rating)
  {
    ValidAggregates(db);
    SubmitFoldsKey(db, args, now, date, businessId);
  }

  lemma SubmitFoldsKey(db: Db, args: SubmitArgs, now: int, date: string, businessId: Id)
    requires AggregateKeysUnique(db.aggregates) && CountsPositive(db.aggregates) && db.nextId + 1 !in db.aggregates
    requires BusinessBySlug(db.businesses, args.slug) == Found(businessId)
    requires SubmitOn(db, args, now, date).Success?
    ensures DayTotals(SubmitOn(db, args, now, date).value.0.aggregates, businessId, date)
         == DayTotals(db.aggregates, businessId, date).Add(1, args.rating)
  {
    SubmitAggregates(db, args, now, date, businessId);
    UpsertDailyFolds(db.aggregates, db.nextId + 1, businessId, date, args.rating, now);
  }

  /** A successful `submit` leaves the totals of every other (business, day) key as they were. */
  lemma SubmitKeepsOtherDays(db: Db, args: SubmitArgs, now: int, date: string, businessId: Id, b: Id, d: string)
    requires Valid(db)
    requires BusinessBySlug(db.businesses, args.slug) == Found(businessId)
    requires SubmitOn(db, args, now, date).Success?
    requires b != businessId || d != date
    ensures DayTotals(SubmitOn(db, args, now, date).value.0.aggregates, b, d) == DayTotals(db.aggregates, b, d)
  {
    ValidAggregates(db);
    SubmitKeepsOtherKeys(db, args, now, date, businessId, b, d);
  }

  lemma SubmitKeepsOtherKeys(db: Db, args: SubmitArgs, now: int, date: string, businessId: Id, b: Id, d: string)
    requires AggregateKeysUnique(db.aggregates) && db.nextId + 1 !in db.aggregates
    requires BusinessBySlug(db.businesses, args.slug) == Found(businessId)
    requires SubmitOn(db, args, now, date).Success?
    requires b != businessId || d != date
    ensures DayTotals(SubmitOn(db, args, now, date).value.0.aggregates, b, d) == DayTotals(db.aggregates, b, d)
  {
    SubmitAggregates(db, args, now, date, businessId);
    UpsertDailyFrame(db.aggregates, db.nextId + 1, businessId, date, args.rating, now, b, d);
  }

  /** What a consistent store promises about its daily aggregates. */
  lemma ValidAggregates(db: Db)
    requires Valid(db)
    ensures AggregateKeysUnique(db.aggregates) && CountsPositive(db.aggregates)
    ensures db.nextId !in db.aggregates && db.nextId + 1 !in db.aggregates
  {
  }

  /** The aggregates a successful `submit` leaves are those of its one upsert. */
  lemma SubmitAggregates(db: Db, args: SubmitArgs, now: int, date: string, businessId: Id)
    requires BusinessBySlug(db.businesses, args.slug) == Found(businessId)
    requires SubmitOn(db, args, now, date).Success?
    ensures UpsertDaily(db.aggregates, db.nextId + 1, businessId, date, args.rating, now).Success?
    ensures SubmitOn(db, args, now, date).value.0.aggregates
         == UpsertDaily(db.aggregates, db.nextId + 1, businessId, date, args.rating, now).value
  {
  }

  /** Rows under every other key stay exactly as they were. */
  lemma UpsertDailyRowsFrame(aggs: map<Id, DailyAggregate>, freshId: Id, businessId: Id, date: string, rating: real, now: int)
    requires AggregateKeysUnique(aggs)
    requires freshId !in aggs
    ensures UpsertDaily(aggs, freshId, businessId, date, rating, now).Success?
    ensures var aggs' := UpsertDaily(aggs, freshId, businessId, date, rating, now).value;
      forall id :: id in aggs && (aggs[id].businessId != businessId || aggs[id].date != date)
        ==> id in aggs' && aggs'[id] == aggs[id]
  {
    AtMostOneKeyed(aggs, businessId, date);
  }

  // ---------------------------------------------------------------------------
  // A day of submissions

  datatype Submission = Submission(args: SubmitArgs, now: int)

  /**
   * Independent `submit` mutations applied in order. In the program a
   * rejected submission does not stop later ones; here a rejection ends the
   * run, which is enough for the runs of valid submissions reasoned about
   * below.
   */
  function SubmitAll(db: Db, subs: seq<Submission>): Result<Db, Error> {
    if |subs| == 0 then Success(db)
    else
      match SubmitAll(db, subs[..|subs| - 1])
      case Failure(e) => Failure(e)
      case Success(db1) =>
        var last := subs[|subs| - 1];
        match Submit(db1, last.args, last.now)
        case Failure(e) => Failure(e)
        case Success((db2, _)) => Success(db2)
  }

  /** `SubmitAll` with every submission's day key given as `date`. */
  function SubmitAllOn(db: Db, subs: seq<Submission>, date: string): Result<Db, Error> {
    if |subs| == 0 then Success(db)
    else
      match SubmitAllOn(db, subs[..|subs| - 1], date)
      case Failure(e) => Failure(e)
      case Success(db1) =>
        var last := subs[|subs| - 1];
        match SubmitOn(db1, last.args, last.now, date)
        case Failure(e) => Failure(e)
        case Success((db2, _)) => Success(db2)
  }

  /** Submissions that all fall on the UTC day `date` run as `SubmitAllOn` with that key. */
  lemma {:induction false} SubmitAllOnDay(db: Db, subs: seq<Submission>, date: string)
    requires forall i :: 0 <= i < |subs| ==> ToDateKey(subs[i].now) == date
    ensures SubmitAll(db, subs) == SubmitAllOn(db, subs, date)
  {
    if |subs| > 0 {
      SubmitAllOnDay(db, subs[..|subs| - 1], date);
      assert ToDateKey(subs[|subs| - 1].now) == date;
    }
  }

  function Ratings(subs: seq<Submission>): (rs: seq<real>)
    ensures |rs| == |subs|
    ensures forall i :: 0 <= i < |subs| ==> rs[i] == subs[i].args.rating
  {
    if |subs| == 0 then [] else Ratings(subs[..|subs| - 1]) + [subs[|subs| - 1].args.rating]
  }

  /** The rating sum of a run is that of its prefix plus the last rating. */
  lemma SumRatingsSnoc(subs: seq<Submission>)
    requires |subs| > 0
    ensures Sum(Ratings(subs)) == Sum(Ratings(subs[..|subs| - 1])) + subs[|subs| - 1].args.rating
  {
    SumAppend(Ratings(subs[..|subs| - 1]), subs[|subs| - 1].args.rating);
  }

  /** A valid submission for an existing slug always goes through and keeps the store valid. */
  lemma SubmitSucceeds(db: Db, args: SubmitArgs, now: int, date: string, businessId: Id)
    requires Valid(db)
    requires Validate(args) == None
    requires BusinessBySlug(db.businesses, args.slug) == Found(businessId)
    ensures SubmitOn(db, args, now, date).Success?
    ensures Valid(SubmitOn(db, args, now, date).value.0)
    ensures SubmitOn(db, args, now, date).value.0.businesses == db.businesses
  {
    ValidAggregates(db);
    UpsertDailyKeepsValid(db.aggregates, db.nextId + 1, businessId, date, args.rating, now);
    SubmitGoesThrough(db, args, now, date, businessId);
    SubmitPreservesValid(db, args, now, date);
  }

  lemma SubmitGoesThrough(db: Db, args: SubmitArgs, now: int, date: string, businessId: Id)
    requires Validate(args) == None
    requires BusinessBySlug(db.businesses, args.slug) == Found(businessId)
    requires UpsertDaily(db.aggregates, db.nextId + 1, businessId, date, args.rating, now).Success?
    ensures SubmitOn(db, args, now, date).Success?
    ensures SubmitOn(db, args, now, date).value.0.businesses == db.businesses
  {
  }

  /** One more valid submission: it goes through, keeps the store valid and folds its rating into the day. */
  lemma SubmitStep(db: Db, args: SubmitArgs, now: int, date: string, businessId: Id)
    requires Valid(db)
    requires Validate(args) == None
    requires BusinessBySlug(db.businesses, args.slug) == Found(businessId)
    ensures SubmitOn(db, args, now, date).Success?
    ensures var db' := SubmitOn(db, args, now, date).value.0;
      && Valid(db')
      && db'.businesses == db.businesses
      && DayTotals(db'.aggregates, businessId, date) == DayTotals(db.aggregates, businessId, date).Add(1, args.rating)
  {
    SubmitSucceeds(db, args, now, date, businessId);
    var (db', feedbackId) := SubmitOn(db, args, now, date).value;
    SubmitFoldsDay(db, args, now, date, businessId, db', feedbackId);
  }

  /** A run that got through its prefix and whose last submission succeeds ends in that submission's state. */
  lemma SubmitAllOnStep(db: Db, subs: seq<Submission>, date: string)
    requires |subs| > 0
    requires SubmitAllOn(db, subs[..|subs| - 1], date).Success?
    requires SubmitOn(SubmitAllOn(db, subs[..|subs| - 1], date).value, subs[|subs| - 1].args, subs[|subs| - 1].now, date).Success?
    ensures SubmitAllOn(db, subs, date)
            == Success(SubmitOn(SubmitAllOn(db, subs[..|subs| - 1], date).value, subs[|subs| - 1].args, subs[|subs| - 1].now, date).value.0)
  {
  }

  /**
   * The state a run reaches: it went through, is consistent, kept the
   * businesses, and moved the day's totals for `businessId` by `n` ratings
   * summing to `total`.
   */
  predicate Reached(db: Db, run: Result<Db, Error>, businessId: Id, date: string, n: int, total: real) {
    && run.Success?
    && Valid(run.value)
    && run.value.businesses == db.businesses
    && DayTotals(run.value.aggregates, businessId, date) == DayTotals(db.aggregates, businessId, date).Add(n, total)
  }

  /** A run extended by one submission ends where that submission leaves the run's state. */
  lemma SubmitAllOnSnoc(db: Db, init: seq<Submission>, last: Submission, date: string)
    requires SubmitAllOn(db, init, date).Success?
    requires SubmitOn(SubmitAllOn(db, init, date).value, last.args, last.now, date).Success?
    ensures SubmitAllOn(db, init + [last], date)
            == Success(SubmitOn(SubmitAllOn(db, init, date).value, last.args, last.now, date).value.0)
  {
    assert (init + [last])[..|init|] == init;
  }

  /** One more valid submission for the same business extends a reached run. */
  lemma ReachedSnoc(db: Db, init: seq<Submission>, last: Submission, slug: string, businessId: Id, date: string, total: real)
    requires BusinessBySlug(db.businesses, slug) == Found(businessId)
    requires last.args.slug == slug && Validate(last.args) == None
    requires Reached(db, SubmitAllOn(db, init, date), businessId, date, |init|, total)
    ensures Reached(db, SubmitAllOn(db, init + [last], date), businessId, date, |init| + 1, total + last.args.rating)
  {
    var db1 := SubmitAllOn(db, init, date).value;
    SubmitStep(db1, last.args, last.now, date, businessId);
    SubmitAllOnSnoc(db, init, last, date);
  }

  lemma SplitLast<X>(xs: seq<X>)
    requires |xs| > 0
    ensures xs == xs[..|xs| - 1] + [xs[|xs| - 1]]
  {
  }

  /** `ReachedSnoc` for a run given as a whole. */
  lemma RunningStep(db: Db, subs: seq<Submission>, slug: string, businessId: Id, date: string)
    requires |subs| > 0
    requires BusinessBySlug(db.businesses, slug) == Found(businessId)
    requires subs[|subs| - 1].args.slug == slug && Validate(subs[|subs| - 1].args) == None
    requires Reached(db, SubmitAllOn(db, subs[..|subs| - 1], date), businessId, date,
                     |subs| - 1, Sum(Ratings(subs[..|subs| - 1])))
    ensures Reached(db, SubmitAllOn(db, subs, date), businessId, date, |subs|, Sum(Ratings(subs)))
  {
    ReachedSnoc(db, subs[..|subs| - 1], subs[|subs| - 1], slug, businessId, date, Sum(Ratings(subs[..|subs| - 1])));
    SplitLast(subs);
    SumRatingsSnoc(subs);
  }

  /**
   * The roll-up over a day: after any run of valid submissions for one
   * business on one UTC day, that day's row has counted every one of them
   * and `avgRating * count` has grown by exactly their rating sum.
   */
  lemma {:induction false} DailyRunningTotals(db: Db, subs: seq<Submission>, slug: string, businessId: Id, date: string)
    requires Valid(db)
    requires BusinessBySlug(db.businesses, slug) == Found(businessId)
    requires forall i :: 0 <= i < |subs| ==> subs[i].args.slug == slug && Validate(subs[i].args) == None
    ensures SubmitAllOn(db, subs, date).Success?
    ensures Valid(SubmitAllOn(db, subs, date).value)
    ensures SubmitAllOn(db, subs, date).value.businesses == db.businesses
    ensures DayTotals(SubmitAllOn(db, subs, date).value.aggregates, businessId, date)
            == DayTotals(db.aggregates, businessId, date).Add(|subs|, Sum(Ratings(subs)))
  {
    if |subs| > 0 {
      var init := subs[..|subs| - 1];
      assert forall i :: 0 <= i < |init| ==> init[i] == subs[i];
      DailyRunningTotals(db, init, slug, businessId, date);
      assert Reached(db, SubmitAllOn(db, init, date), businessId, date, |init|, Sum(Ratings(init)));
      RunningStep(db, subs, slug, businessId, date);
    }
  }

  /** A row whose `avgRating * count` is a sum `total` over `count >= 1` ratings holds their mean. */
  lemma MeanOfTotal(a: DailyAggregate, total: real)
    requires a.count >= 1
    requires RatingTotal(a) == total
    ensures a.avgRating == total / a.count as real
  {
  }

  /**
   * Starting from a day with no row, the stored `avgRating` after `n >= 1`
   * valid submissions on that day is the mean of their ratings.
   */
  lemma DailyMeanOn(db: Db, subs: seq<Submission>, slug: string, businessId: Id, date: string)
    requires Valid(db)
    requires BusinessBySlug(db.businesses, slug) == Found(businessId)
    requires AggregateByKey(db.aggregates, businessId, date).Missing?
    requires |subs| >= 1
    requires forall i :: 0 <= i < |subs| ==> subs[i].args.slug == slug && Validate(subs[i].args) == None
    ensures SubmitAllOn(db, subs, date).Success?
    ensures var aggs := SubmitAllOn(db, subs, date).value.aggregates;
      var row := AggregateByKey(aggs, businessId, date);
      && row.Found?
      && aggs[row.id].count == |subs|
      && aggs[row.id].avgRating == Sum(Ratings(subs)) / |subs| as real
  {
    DailyRunningTotals(db, subs, slug, businessId, date);
    var aggs := SubmitAllOn(db, subs, date).value.aggregates;
    var row := AggregateByKey(aggs, businessId, date);
    assert row.Found?;
    MeanOfTotal(aggs[row.id], Sum(Ratings(subs)));
  }

  /** `DailyMeanOn` for submissions timestamped within one UTC day. */
  lemma DailyMean(db: Db, subs: seq<Submission>, slug: string, businessId: Id, date: string)
    requires Valid(db)
    requires BusinessBySlug(db.businesses, slug) == Found(businessId)
    requires AggregateByKey(db.aggregates, businessId, date).Missing?
    requires |subs| >= 1
    requires forall i :: 0 <= i < |subs| ==> subs[i].args.slug == slug && Validate(subs[i].args) == None
    requires forall i :: 0 <= i < |subs| ==> ToDateKey(subs[i].now) == date
    ensures SubmitAll(db, subs).Success?
    ensures var aggs := SubmitAll(db, subs).value.aggregates;
      var row := AggregateByKey(aggs, businessId, date);
      && row.Found?
      && aggs[row.id].count == |subs|
      && aggs[row.id].avgRating == Sum(Ratings(subs)) / |subs| as real
  {
    DailyMeanOn(db, subs, slug, businessId, date);
    SubmitAllOnDay(db, subs, date);
  }
}
