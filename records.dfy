/** The documents of the job board and the in-memory database that stands for
    its two MongoDB collections, `jobs` and `users`. */
module Records {
  import opened Seqs

  datatype Option<T> = None | Some(value: T)

  /** The string form of a document's `_id` (a MongoDB ObjectId). */
  type Id = string

  /** The identity provider's subject claim (`sub`), stored as `auth0Id`. */
  type Sub = string

  /** A job posting. `applicants` and `likes` hold user ids. */
  datatype Job = Job(
    id: Id,
    title: string,
    location: string,
    salary: int,
    salaryType: string,
    negotiable: Option<bool>,
    jobType: string,
    description: string,
    tags: seq<string>,
    skills: seq<string>,
    createdBy: Id,
    createdAt: int,
    applicants: seq<Id>,
    likes: seq<Id>)

  /** A local user record, created on first login. The field name `proffesion`
      is the one the source writes. */
  datatype User = User(
    id: Id,
    auth0Id: Sub,
    name: Option<string>,
    email: Option<string>,
    profilePicture: Option<string>,
    role: string,
    proffesion: Option<string>)

  /** The identity claims of an authenticated session (`req.oidc.user`). */
  datatype Claims = Claims(
    sub: Sub,
    name: Option<string>,
    email: Option<string>,
    picture: Option<string>,
    proffesion: Option<string>)

  /** The request body of "create job"; every field may be missing. */
  datatype JobInput = JobInput(
    title: Option<string>,
    location: Option<string>,
    salary: Option<int>,
    salaryType: Option<string>,
    negotiable: Option<bool>,
    jobType: Option<string>,
    description: Option<string>,
    tags: Option<seq<string>>,
    skills: Option<seq<string>>)

  /** JavaScript truthiness of an optional string: present and not empty. */
  predicate Filled(s: Option<string>) {
    s.Some? && s.value != ""
  }

  /** JavaScript truthiness of an optional number: present and not zero. */
  predicate NonZero(n: Option<int>) {
    n.Some? && n.value != 0
  }

  /** The JSON body of a response. */
  datatype Body = NoBody | OneJob(job: Job) | JobList(jobs: seq<Job>)

  /** An HTTP response: status code, the `message` field if any, and the body. */
  datatype Reply = Reply(status: int, message: Option<string>, body: Body)

  function Status(code: int, message: string): Reply {
    Reply(code, Some(message), NoBody)
  }

  const InternalError: Reply := Status(500, "Internal server error")

  /** The database: jobs by id, the collection's natural (insertion) order of
      job ids, and users by identity subject. */
  datatype Db = Db(jobs: map<Id, Job>, order: seq<Id>, users: map<Sub, User>)

  const EmptyDb: Db := Db(map[], [], map[])

  /** The database is consistent: `order` lists every stored job exactly once,
      every job and user is filed under its own key, and user ids are unique. */
  predicate Wf(db: Db) {
    && NoDup(db.order)
    && (forall k :: k in db.jobs ==> k in db.order)
    && (forall k :: k in db.order ==> k in db.jobs)
    && (forall k :: k in db.jobs ==> db.jobs[k].id == k)
    && (forall s :: s in db.users ==> db.users[s].auth0Id == s)
    && (forall s, t :: s in db.users && t in db.users && s != t ==> db.users[s].id != db.users[t].id)
  }

  /** The ids of all stored users (what `User.findById` can find). */
  function UserIds(db: Db): set<Id> {
    set s | s in db.users :: db.users[s].id
  }

  /** The jobs in the collection's natural order. The ensures restates the
      definition for callers (a proof aid); what the listing promises is
      `TableFacts`. */
  function Table(db: Db): (t: seq<Job>)
    requires Wf(db)
    ensures |t| == |db.order| && forall i :: 0 <= i < |t| ==> t[i] == db.jobs[db.order[i]]
  {
    seq(|db.order|, i requires 0 <= i < |db.order| => db.jobs[db.order[i]])
  }

  /** The natural order lists every stored job exactly once. */
  lemma TableFacts(db: Db)
    requires Wf(db)
    ensures |Table(db)| == |db.jobs|
    ensures forall k :: k in db.jobs ==> db.jobs[k] in Table(db)
    ensures forall j :: j in Table(db) ==> j.id in db.jobs && db.jobs[j.id] == j
    ensures NoDup(Table(db))
  {
    var t := Table(db);
    forall k | k in db.jobs ensures db.jobs[k] in t {
      var i :| 0 <= i < |db.order| && db.order[i] == k;
      assert t[i] == db.jobs[k];
    }
    forall i, j | 0 <= i < j < |t| ensures t[i] != t[j] {
      assert t[i].id == db.order[i] && t[j].id == db.order[j];
    }
    OrderCount(db);
  }

  /** The natural order lists as many ids as there are jobs. */
  lemma OrderCount(db: Db)
    requires Wf(db)
    ensures |db.jobs| == |db.order|
  {
    DistinctCard(db.order);
    assert db.jobs.Keys == set k | k in db.order;
  }

  /** A duplicate-free sequence has as many distinct elements as positions. */
  lemma {:induction false} DistinctCard<T(!new)>(s: seq<T>)
    requires NoDup(s)
    ensures |set x | x in s| == |s|
  {
    if s != [] {
      var tail := s[1..];
      assert NoDup(tail) by {
        forall i, j | 0 <= i < j < |tail| ensures tail[i] != tail[j] {
          assert tail[i] == s[i + 1] && tail[j] == s[j + 1];
        }
      }
      DistinctCard(tail);
      assert s[0] !in tail by {
        forall k | 0 <= k < |tail| ensures tail[k] != s[0] {
          assert tail[k] == s[k + 1];
        }
      }
      assert (set x | x in s) == (set x | x in tail) + {s[0]};
    }
  }

  /** `Document.save()`: a new document is appended to the collection, an
      existing one is replaced in place. */
  function Saved(db: Db, job: Job): Db {
    Db(db.jobs[job.id := job],
       if job.id in db.jobs then db.order else db.order + [job.id],
       db.users)
  }

  /** `Document.deleteOne()`: the job leaves both the map and the order. */
  function Removed(db: Db, id: Id): Db {
    Db(db.jobs - {id}, Without(db.order, id), db.users)
  }

  /** `User.create()`: a new user filed under its subject. */
  function Created(db: Db, user: User): Db {
    db.(users := db.users[user.auth0Id := user])
  }

  lemma SavedWf(db: Db, job: Job)
    requires Wf(db)
    ensures Wf(Saved(db, job))
  {
    if job.id !in db.jobs {
      AppendFreshNoDup(db.order, job.id);
    }
  }

  /** A new job is one more job in the collection. */
  lemma SavedNewCount(db: Db, job: Job)
    requires job.id !in db.jobs
    ensures |Saved(db, job).jobs| == |db.jobs| + 1
  {
    assert Saved(db, job).jobs.Keys == db.jobs.Keys + {job.id};
  }

  /** A new job is appended at the end of the natural order. */
  lemma SavedNewTable(db: Db, job: Job)
    requires Wf(db) && job.id !in db.jobs
    ensures Wf(Saved(db, job))
    ensures Table(Saved(db, job)) == Table(db) + [job]
  {
    SavedWf(db, job);
    var saved := Saved(db, job);
    var before, after := Table(db), Table(saved);
    assert saved.order == db.order + [job.id];
    assert |after| == |before| + 1;
    forall i | 0 <= i < |after| ensures after[i] == (before + [job])[i] {
      if i < |before| {
        assert saved.order[i] == db.order[i] && db.order[i] in db.jobs;
        assert after[i] == db.jobs[db.order[i]];
      } else {
        assert saved.order[i] == job.id;
      }
    }
  }

  lemma RemovedWf(db: Db, id: Id)
    requires Wf(db)
    ensures Wf(Removed(db, id))
  {
    WithoutNoDup(db.order, id);
  }

  /** A user with a new subject and a new id keeps the database consistent. */
  lemma CreatedWf(db: Db, user: User)
    requires Wf(db)
    requires user.auth0Id !in db.users && user.id !in UserIds(db)
    ensures Wf(Created(db, user))
  {
    forall s | s in db.users ensures db.users[s].id != user.id {
      assert db.users[s].id in UserIds(db);
    }
  }

  /** A new subject is one more user, and nothing else changes. */
  lemma CreatedNewCount(db: Db, user: User)
    requires user.auth0Id !in db.users
    ensures Created(db, user).users.Keys == db.users.Keys + {user.auth0Id}
    ensures |Created(db, user).users| == |db.users| + 1
  {
    assert Created(db, user).users.Keys == db.users.Keys + {user.auth0Id};
  }

  /** Every stored job keeps its applicants and its likes free of duplicates. */
  predicate EngagementsDistinct(db: Db) {
    forall k :: k in db.jobs ==> NoDup(db.jobs[k].applicants) && NoDup(db.jobs[k].likes)
  }

  /** Saving a job whose applicants and likes are duplicate-free keeps every
      job's engagements duplicate-free. */
  lemma SavedDistinct(db: Db, job: Job)
    requires EngagementsDistinct(db)
    requires NoDup(job.applicants) && NoDup(job.likes)
    ensures EngagementsDistinct(Saved(db, job))
  {
  }
}
