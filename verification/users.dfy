/**
 * The `users.ensure` mutation (upsert by Clerk user id) and the
 * `users.byClerkId` query (lookup and projection).
 */
module Users {
  import opened Wrappers
  import opened Schema

  datatype EnsureArgs = EnsureArgs(
    clerkUserId: string,
    email: string,
    organisationName: string,
    organisationID: string)

  /** The fields `ensure` writes into an existing row. */
  function Refresh(u: User, args: EnsureArgs, now: int): User {
    u.(email := args.email, organisationName := args.organisationName,
       organisationID := args.organisationID, lastSeenAt := Some(now))
  }

  /** The row `ensure` inserts for a new Clerk user. */
  function NewUser(args: EnsureArgs, now: int): User {
    User(args.clerkUserId, args.email, now, Some(now), args.organisationName, args.organisationID)
  }

  /**
   * Some other row than `id` already carries `organisationID`: writing `id`
   * with it would break the unique `by_organisationID` index, so the store
   * rejects the write and the mutation is rolled back.
   */
  predicate OrganisationTaken(users: map<Id, User>, id: Id, organisationID: string) {
    exists other :: other in users && other != id && users[other].organisationID == organisationID
  }

  /** `users.ensure` with `Date.now()` passed in as `now`; returns the new state and the user id. */
  function Ensure(db: Db, args: EnsureArgs, now: int): Result<(Db, Id), Error> {
    match UserByClerkId(db.users, args.clerkUserId)
    case Ambiguous => Failure(NotUnique)
    case Found(id) =>
      if OrganisationTaken(db.users, id, args.organisationID) then Failure(UniqueIndexViolation)
      else Success((db.(users := db.users[id := Refresh(db.users[id], args, now)]), id))
    case Missing =>
      var id := db.nextId;
      if OrganisationTaken(db.users, id, args.organisationID) then Failure(UniqueIndexViolation)
      else Success((db.(users := db.users[id := NewUser(args, now)], nextId := id + 1), id))
  }

  /**
   * For a known Clerk user, `ensure` returns that user's id, rewrites only
   * email, organisation name, organisation id and lastSeenAt, and keeps
   * clerkUserId and createdAt; no other row or table changes.
   */
  lemma EnsureExisting(db: Db, args: EnsureArgs, now: int, id: Id)
    requires Valid(db)
    requires id in db.users && db.users[id].clerkUserId == args.clerkUserId
    requires !OrganisationTaken(db.users, id, args.organisationID)
    ensures Ensure(db, args, now).Success?
    ensures var (db', r) := Ensure(db, args, now).value;
      && r == id
      && db'.users.Keys == db.users.Keys
      && db'.users[id].email == args.email
      && db'.users[id].organisationName == args.organisationName
      && db'.users[id].organisationID == args.organisationID
      && db'.users[id].lastSeenAt == Some(now)
      && db'.users[id].clerkUserId == db.users[id].clerkUserId
      && db'.users[id].createdAt == db.users[id].createdAt
      && (forall other :: other in db.users && other != id ==> db'.users[other] == db.users[other])
      && db'.businesses == db.businesses && db'.feedbacks == db.feedbacks
      && db'.aggregates == db.aggregates && db'.nextId == db.nextId
  {
    assert id in UsersWithClerkId(db.users, args.clerkUserId);
    AtMostOne(UsersWithClerkId(db.users, args.clerkUserId));
    SingletonMembers(UsersWithClerkId(db.users, args.clerkUserId), id);
  }

  /**
   * For an unknown Clerk user, `ensure` inserts exactly one row, under a new
   * id, with createdAt = lastSeenAt = now; nothing else changes.
   */
  lemma EnsureNew(db: Db, args: EnsureArgs, now: int)
    requires Valid(db)
    requires UsersWithClerkId(db.users, args.clerkUserId) == {}
    requires !OrganisationTaken(db.users, db.nextId, args.organisationID)
    ensures Ensure(db, args, now).Success?
    ensures var (db', r) := Ensure(db, args, now).value;
      && r !in db.users
      && db'.users == db.users[r := NewUser(args, now)]
      && db'.users[r].createdAt == now && db'.users[r].lastSeenAt == Some(now)
      && db'.users[r].clerkUserId == args.clerkUserId
      && db'.businesses == db.businesses && db'.feedbacks == db.feedbacks
      && db'.aggregates == db.aggregates
  {
  }

  /** `ensure` fails on a consistent store exactly when another user already holds the organisation id. */
  lemma EnsureFailure(db: Db, args: EnsureArgs, now: int)
    requires Valid(db)
    ensures Ensure(db, args, now).Failure? <==>
      match UserByClerkId(db.users, args.clerkUserId)
      case Found(id) => OrganisationTaken(db.users, id, args.organisationID)
      case _ => OrganisationTaken(db.users, db.nextId, args.organisationID)
    ensures Ensure(db, args, now).Failure? ==> Ensure(db, args, now).error == UniqueIndexViolation
  {
    UniqueIndexNeverAmbiguous(db, args.clerkUserId, "", 0, "");
  }

  /** `ensure` keeps every id fresh and every unique index unique. */
  lemma EnsurePreservesValid(db: Db, args: EnsureArgs, now: int)
    requires Valid(db)
    requires Ensure(db, args, now).Success?
    ensures Valid(Ensure(db, args, now).value.0)
  {
    var (db', id) := Ensure(db, args, now).value;
    EnsureShape(db, args, now);
    PutUserKeepsValid(db, id, db'.users[id], db'.nextId);
  }

  /**
   * A successful `ensure` writes one user row, carrying the Clerk and
   * organisation ids that no other row carries.
   */
  lemma EnsureShape(db: Db, args: EnsureArgs, now: int)
    requires Valid(db)
    requires Ensure(db, args, now).Success?
    ensures var (db', id) := Ensure(db, args, now).value;
      && id in db'.users
      && db' == db.(users := db.users[id := db'.users[id]], nextId := db'.nextId)
      && db.nextId <= db'.nextId && id < db'.nextId
      && db'.users[id].clerkUserId == args.clerkUserId
      && db'.users[id].organisationID == args.organisationID
      && forall other :: other in db.users && other != id ==>
           db.users[other].clerkUserId != args.clerkUserId && db.users[other].organisationID != args.organisationID
  {
    var id := Ensure(db, args, now).value.1;
    var ids := UsersWithClerkId(db.users, args.clerkUserId);
    AtMostOne(ids);
    if ids != {} {
      SingletonMembers(ids, id);
    }
    forall other | other in db.users && other != id
      ensures db.users[other].clerkUserId != args.clerkUserId
    {
      assert other !in ids;
    }
  }

  /** Writing a user whose Clerk and organisation ids no other row carries keeps the store consistent. */
  lemma PutUserKeepsValid(db: Db, id: Id, u: User, nextId: int)
    requires Valid(db)
    requires db.nextId <= nextId && id < nextId
    requires forall other :: other in db.users && other != id ==>
      db.users[other].clerkUserId != u.clerkUserId && db.users[other].organisationID != u.organisationID
    ensures Valid(db.(users := db.users[id := u], nextId := nextId))
  {
  }

  /**
   * Running `ensure` twice for the same Clerk user returns the same id both
   * times and leaves exactly one row for that user.
   */
  lemma EnsureTwice(db: Db, args1: EnsureArgs, args2: EnsureArgs, now1: int, now2: int)
    requires Valid(db)
    requires args1.clerkUserId == args2.clerkUserId
    requires Ensure(db, args1, now1).Success?
    requires Ensure(Ensure(db, args1, now1).value.0, args2, now2).Success?
    ensures var (db1, id1) := Ensure(db, args1, now1).value;
      var (db2, id2) := Ensure(db1, args2, now2).value;
      && id1 == id2
      && UsersWithClerkId(db2.users, args1.clerkUserId) == {id1}
  {
    var (db1, id1) := Ensure(db, args1, now1).value;
    EnsureShape(db, args1, now1);
    EnsurePreservesValid(db, args1, now1);
    OnlyHolder(db1.users, args1.clerkUserId, id1);
    var (db2, id2) := Ensure(db1, args2, now2).value;
    EnsureShape(db1, args2, now2);
    EnsurePreservesValid(db1, args2, now2);
    OnlyHolder(db2.users, args1.clerkUserId, id2);
  }

  /** Under a unique Clerk-id index, a row carrying the id is the only one found for it. */
  lemma OnlyHolder(users: map<Id, User>, clerkUserId: string, id: Id)
    requires ClerkIdsUnique(users)
    requires id in users && users[id].clerkUserId == clerkUserId
    ensures UsersWithClerkId(users, clerkUserId) == {id}
  {
    var ids := UsersWithClerkId(users, clerkUserId);
    assert id in ids;
    AtMostOne(ids);
    SingletonMembers(ids, id);
  }

  /** A second identical `ensure` on a consistent store always goes through. */
  lemma EnsureRepeatable(db: Db, args: EnsureArgs, now1: int, now2: int)
    requires Valid(db)
    requires Ensure(db, args, now1).Success?
    ensures Ensure(Ensure(db, args, now1).value.0, args, now2).Success?
  {
    var (db1, id1) := Ensure(db, args, now1).value;
    EnsureShape(db, args, now1);
    EnsurePreservesValid(db, args, now1);
    OnlyHolder(db1.users, args.clerkUserId, id1);
  }

  // ---------------------------------------------------------------------------
  // byClerkId

  /** The projection `byClerkId` returns; an unset lastSeenAt becomes null (`None`). */
  datatype UserView = UserView(
    id: Id,
    email: string,
    organisationName: string,
    organisationID: string,
    createdAt: int,
    lastSeenAt: Option<int>)

  function ByClerkId(db: Db, clerkUserId: string): Result<Option<UserView>, Error> {
    match UserByClerkId(db.users, clerkUserId)
    case Ambiguous => Failure(NotUnique)
    case Missing => Success(None)
    case Found(id) =>
      var u := db.users[id];
      Success(Some(UserView(id, u.email, u.organisationName, u.organisationID, u.createdAt, u.lastSeenAt)))
  }

  /**
   * On a consistent store `byClerkId` answers null exactly for an unknown
   * Clerk user, and otherwise the stored fields of that user's row.
   */
  lemma ByClerkIdAnswers(db: Db, clerkUserId: string)
    requires Valid(db)
    ensures ByClerkId(db, clerkUserId).Success?
    ensures ByClerkId(db, clerkUserId).value.None? <==>
      forall id :: id in db.users ==> db.users[id].clerkUserId != clerkUserId
    ensures ByClerkId(db, clerkUserId).value.Some? ==>
      var v := ByClerkId(db, clerkUserId).value.value;
      && v.id in db.users
      && db.users[v.id].clerkUserId == clerkUserId
      && v.email == db.users[v.id].email
      && v.organisationName == db.users[v.id].organisationName
      && v.organisationID == db.users[v.id].organisationID
      && v.createdAt == db.users[v.id].createdAt
      && v.lastSeenAt == db.users[v.id].lastSeenAt
  {
    UniqueIndexNeverAmbiguous(db, clerkUserId, "", 0, "");
    if ByClerkId(db, clerkUserId).value.None? {
      forall id | id in db.users ensures db.users[id].clerkUserId != clerkUserId {
        assert id !in UsersWithClerkId(db.users, clerkUserId);
      }
    } else {
      var v := ByClerkId(db, clerkUserId).value.value;
      assert v.id in UsersWithClerkId(db.users, clerkUserId);
    }
  }

  /** Reading a user back right after `ensure` sees what `ensure` wrote. */
  lemma EnsureThenByClerkId(db: Db, args: EnsureArgs, now: int)
    requires Valid(db)
    requires Ensure(db, args, now).Success?
    ensures var (db', id) := Ensure(db, args, now).value;
      ByClerkId(db', args.clerkUserId)
      == Success(Some(UserView(id, args.email, args.organisationName, args.organisationID,
                               db'.users[id].createdAt, Some(now))))
  {
    var (db', id) := Ensure(db, args, now).value;
    EnsurePreservesValid(db, args, now);
    assert id in UsersWithClerkId(db'.users, args.clerkUserId);
    AtMostOne(UsersWithClerkId(db'.users, args.clerkUserId));
    SingletonMembers(UsersWithClerkId(db'.users, args.clerkUserId), id);
  }
}
