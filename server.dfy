/** The user provisioning of the server's landing route: on an authenticated
    visit, make sure the session's subject has a local user record. */
module Server {
  import opened Records
  import opened Store

  /** The record `User.create` is given for a first login. */
  function NewUser(claims: Claims, id: Id): User {
    User(id, claims.sub, claims.name, claims.email, claims.picture, "jobSeeker", claims.proffesion)
  }

  /** ensureUserInDB: create a user for a subject not yet stored; otherwise do
      nothing. `newId` is the ObjectId the new record is given; an id already
      taken makes the insert fail, and that error, like every other, is
      swallowed. */
  function EnsureUserOutcome(db: Db, claims: Claims, newId: Id): Db {
    if claims.sub in db.users then db
    else if newId in UserIds(db) then db
    else Created(db, NewUser(claims, newId))
  }

  method EnsureUserInDB(db: Database, claims: Claims, newId: Id)
    requires db.Valid()
    modifies db
    ensures db.Valid()
    ensures db.State() == EnsureUserOutcome(old(db.State()), claims, newId)
  {
    var existing := if claims.sub in db.users then Some(db.users[claims.sub]) else None;
    if existing.None? {
      if newId !in UserIds(db.State()) {
        db.CreateUser(NewUser(claims, newId));
      }
    }
  }

  /** What the landing route answers. */
  datatype Landing = RedirectToClient | LoggedOut

  /** The landing route: provision the user only for an authenticated session,
      then redirect; an anonymous visit changes nothing. */
  method Home(db: Database, session: Option<Claims>, newId: Id) returns (page: Landing)
    requires db.Valid()
    modifies db
    ensures db.Valid()
    ensures page == if session.Some? then RedirectToClient else LoggedOut
    ensures db.State() == if session.Some? then EnsureUserOutcome(old(db.State()), session.value, newId)
                          else old(db.State())
  {
    if session.Some? {
      EnsureUserInDB(db, session.value, newId);
      page := RedirectToClient;
    } else {
      page := LoggedOut;
    }
  }

  /** A first login adds exactly one user, filed under the subject, with the
      role "jobSeeker" and the name, email and picture of the claims. */
  lemma EnsureUserCreates(db: Db, claims: Claims, newId: Id)
    requires Wf(db)
    requires claims.sub !in db.users && newId !in UserIds(db)
    ensures var r := EnsureUserOutcome(db, claims, newId);
      && r.users.Keys == db.users.Keys + {claims.sub}
      && |r.users| == |db.users| + 1
      && var u := r.users[claims.sub];
      && u.id == newId && u.auth0Id == claims.sub && u.role == "jobSeeker"
      && u.name == claims.name && u.email == claims.email && u.profilePicture == claims.picture
      && r.jobs == db.jobs && r.order == db.order
      && Wf(r)
  {
    var u := NewUser(claims, newId);
    assert EnsureUserOutcome(db, claims, newId) == Created(db, u);
    CreatedWf(db, u);
    CreatedNewCount(db, u);
  }

  /** A subject already stored changes nothing. */
  lemma EnsureUserExisting(db: Db, claims: Claims, newId: Id)
    requires claims.sub in db.users
    ensures EnsureUserOutcome(db, claims, newId) == db
  {
  }

  /** Users with other subjects are never modified, no user is removed, and
      the jobs are untouched; the result stays consistent. */
  lemma EnsureUserFramesOthers(db: Db, claims: Claims, newId: Id)
    requires Wf(db)
    ensures var r := EnsureUserOutcome(db, claims, newId);
      && (forall s :: s in db.users ==> s in r.users && r.users[s] == db.users[s])
      && (forall s :: s in r.users && s != claims.sub ==> s in db.users)
      && r.jobs == db.jobs && r.order == db.order
      && Wf(r)
  {
    if claims.sub !in db.users && newId !in UserIds(db) {
      CreatedWf(db, NewUser(claims, newId));
    }
  }

  /** Once the subject's record exists, a second call (with whatever new id)
      changes nothing: calling twice is calling once. */
  lemma EnsureUserIdempotent(db: Db, claims: Claims, newId: Id, laterId: Id)
    requires newId !in UserIds(db)
    ensures var once := EnsureUserOutcome(db, claims, newId);
      EnsureUserOutcome(once, claims, laterId) == once
  {
  }
}
