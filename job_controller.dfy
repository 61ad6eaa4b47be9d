/** The job handlers. Each mutating handler has a pure description of its
    outcome (the reply and the database afterwards) and a method that performs
    it on the database object, proved to produce exactly that outcome. The
    read-only handlers are functions of the database contents. */
module JobController {
  import opened Seqs
  import opened Text
  import opened Records
  import opened Sorting
  import opened Store

  /** What a handler answers and what the database holds afterwards. */
  datatype Outcome = Outcome(reply: Reply, db: Db)

  // ---------------------------------------------------------------- createJob

  /** The required fields are all truthy: title, location, salaryType, jobType
      and description present and non-empty, salary present and non-zero.
      negotiable, tags and skills are optional. */
  predicate RequiredFieldsFilled(input: JobInput) {
    && Filled(input.title)
    && Filled(input.location)
    && NonZero(input.salary)
    && Filled(input.salaryType)
    && Filled(input.jobType)
    && Filled(input.description)
  }

  function OrEmpty(s: Option<seq<string>>): seq<string> {
    if s.Some? then s.value else []
  }

  /** The document `new Job({...})` builds: the given fields, the owner, the
      creation time, and empty applicants and likes. */
  function NewJob(input: JobInput, id: Id, owner: Id, now: int): Job
    requires RequiredFieldsFilled(input)
  {
    Job(id, input.title.value, input.location.value, input.salary.value,
        input.salaryType.value, input.negotiable, input.jobType.value,
        input.description.value, OrEmpty(input.tags), OrEmpty(input.skills),
        owner, now, [], [])
  }

  /** createJob for the session subject `sub`. `newId` is the ObjectId the new
      document is given and `now` the creation time. The field check comes
      before the owner is dereferenced, so missing fields are reported even
      when no user has that subject; a missing user then fails with 500, as
      does an `_id` that is already taken (a duplicate key on save). */
  function CreateJobOutcome(db: Db, sub: Sub, input: JobInput, newId: Id, now: int): Outcome {
    if !RequiredFieldsFilled(input) then
      Outcome(Status(400, "Please fill all the required fields"), db)
    else if sub !in db.users then
      Outcome(InternalError, db)
    else if newId in db.jobs then
      Outcome(InternalError, db)
    else
      var job := NewJob(input, newId, db.users[sub].id, now);
      Outcome(Reply(201, Some("Job created successfully"), OneJob(job)), Saved(db, job))
  }

  // ------------------------------------------------------- read-only handlers

  /** getJobs: every job, newest first. */
  function GetJobs(db: Db): (r: Reply)
    requires Wf(db)
    ensures r.status == 200 && r.body.JobList?
    ensures NewestFirst(r.body.jobs)
    ensures multiset(r.body.jobs) == multiset(Table(db))
    ensures forall k :: k in db.jobs ==> db.jobs[k] in r.body.jobs
  {
    SortedSameMembers(Table(db));
    Reply(200, None, JobList(SortNewestFirst(Table(db))))
  }

  function OwnedBy(owner: Id): Job -> bool {
    (j: Job) => j.createdBy == owner
  }

  /** getJobsByUser: `validId` is the ObjectId cast rule; `findById` on an id
      it rejects throws, which the handler reports as 500. */
  function GetJobsByUser(db: Db, id: Id, validId: Id -> bool): (r: Reply)
    requires Wf(db)
    ensures !validId(id) ==> r == InternalError
    ensures validId(id) && id !in UserIds(db) ==> r == Status(404, "User not found")
    ensures validId(id) && id in UserIds(db) ==>
      && r.status == 200 && r.body.JobList?
      && NewestFirst(r.body.jobs)
      && (forall j :: j in r.body.jobs <==> j in Table(db) && j.createdBy == id)
      && multiset(r.body.jobs) == multiset(Filter(Table(db), OwnedBy(id)))
  {
    if !validId(id) then InternalError
    else if id !in UserIds(db) then Status(404, "User not found")
    else
      var owned := Filter(Table(db), OwnedBy(id));
      SortedSameMembers(owned);
      Reply(200, None, JobList(SortNewestFirst(owned)))
  }

  /** The tag filter: unset or empty imposes nothing; otherwise some piece of
      `tags.split(",")`, untrimmed, is one of the job's tags (`$in`). */
  predicate TagsMatch(tags: Option<string>, job: Job) {
    !Filled(tags) || exists t | t in Split(tags.value, ',') :: t in job.tags
  }

  /** A location or title filter: unset or empty imposes nothing; otherwise the
      pattern occurs in the field, ignoring case. */
  predicate PatternMatches(pattern: Option<string>, field: string) {
    !Filled(pattern) || ContainsIgnoreCase(field, pattern.value)
  }

  /** A job is found when every supplied filter matches it. */
  predicate SearchMatches(tags: Option<string>, location: Option<string>, title: Option<string>, job: Job) {
    && TagsMatch(tags, job)
    && PatternMatches(location, job.location)
    && PatternMatches(title, job.title)
  }

  function Matcher(tags: Option<string>, location: Option<string>, title: Option<string>): Job -> bool {
    (job: Job) => SearchMatches(tags, location, title, job)
  }

  /** searchJobs: the matching jobs, in the collection's natural order. */
  function Search(db: Db, tags: Option<string>, location: Option<string>, title: Option<string>): (r: Reply)
    requires Wf(db)
    ensures r.status == 200 && r.body.JobList?
    ensures forall j :: j in r.body.jobs <==> j in Table(db) && SearchMatches(tags, location, title, j)
  {
    Reply(200, None, JobList(Filter(Table(db), Matcher(tags, location, title))))
  }

  /** getJobById: the id format is checked before any lookup. */
  function GetJobById(db: Db, id: Id, validId: Id -> bool): (r: Reply)
    requires Wf(db)
    ensures r.status == 400 <==> !validId(id)
    ensures r.status == 400 ==> r == Status(400, "Invalid job ID format")
    ensures r.status == 404 <==> validId(id) && id !in db.jobs
    ensures r.status == 404 ==> r == Status(404, "Job not found")
    ensures r.status == 200 <==> validId(id) && id in db.jobs
    ensures r.status == 200 ==> r.body.OneJob? && r.body.job.id == id && r.body.job == db.jobs[id]
  {
    if !validId(id) then Status(400, "Invalid job ID format")
    else if id !in db.jobs then Status(404, "Job not found")
    else Reply(200, None, OneJob(db.jobs[id]))
  }

  // ------------------------------------------------------ applyJob, likeJob

  /** applyJob: find the job, then the user, then refuse a second application;
      otherwise append the user's id to the applicants and save. */
  function ApplyJobOutcome(db: Db, id: Id, sub: Sub, validId: Id -> bool): Outcome {
    if !validId(id) then Outcome(InternalError, db)
    else if id !in db.jobs then Outcome(Status(404, "Job not found"), db)
    else if sub !in db.users then Outcome(Status(404, "User not found"), db)
    else
      var job, uid := db.jobs[id], db.users[sub].id;
      if uid in job.applicants then Outcome(Status(400, "Already applied for this job"), db)
      else
        var applied := job.(applicants := job.applicants + [uid]);
        Outcome(Reply(200, None, OneJob(applied)), Saved(db, applied))
  }

  /** likeJob: the same two lookups, then toggle the user's id in the likes. */
  function LikeJobOutcome(db: Db, id: Id, sub: Sub, validId: Id -> bool): Outcome {
    if !validId(id) then Outcome(InternalError, db)
    else if id !in db.jobs then Outcome(Status(404, "Job not found"), db)
    else if sub !in db.users then Outcome(Status(404, "User not found"), db)
    else
      var job, uid := db.jobs[id], db.users[sub].id;
      var isLiked := uid in job.likes;
      var toggled := job.(likes := Toggle(job.likes, uid));
      Outcome(Reply(200, Some(if isLiked then "Job unliked" else "Job liked"), OneJob(toggled)),
              Saved(db, toggled))
  }

  // ---------------------------------------------------------------- deleteJob

  /** deleteJob: the job lookup runs first (so an id the cast rejects fails
      with 500), but a missing user is reported before a missing job. The
      owner of the job is not compared with the user. */
  function DeleteJobOutcome(db: Db, id: Id, sub: Sub, validId: Id -> bool): Outcome {
    if !validId(id) then Outcome(InternalError, db)
    else if sub !in db.users then Outcome(Status(404, "User not found"), db)
    else if id !in db.jobs then Outcome(Status(404, "Job not found"), db)
    else Outcome(Status(200, "Job deleted successfully"), Removed(db, id))
  }

  // ----------------------------------------------------------------- handlers

  method CreateJob(db: Database, sub: Sub, input: JobInput, newId: Id, now: int) returns (reply: Reply)
    requires db.Valid()
    modifies db
    ensures db.Valid()
    ensures Outcome(reply, db.State()) == CreateJobOutcome(old(db.State()), sub, input, newId, now)
  {
    var user := if sub in db.users then Some(db.users[sub]) else None;
    if !RequiredFieldsFilled(input) {
      return Status(400, "Please fill all the required fields");
    }
    if user.None? {
      return InternalError;
    }
    if newId in db.jobs {
      return InternalError;
    }
    var job := NewJob(input, newId, user.value.id, now);
    db.Save(job);
    reply := Reply(201, Some("Job created successfully"), OneJob(job));
  }

  /** The filter document searchJobs builds: one entry per supplied filter. */
  datatype Query = Query(tagsIn: Option<seq<string>>, locationRegex: Option<string>, titleRegex: Option<string>)

  /** How the collection evaluates the built filter document, entry by entry:
      `$in` on the tags and a case-insensitive pattern on location and
      title. It mirrors `SearchMatches` by design; `QueryAgrees` is the proof
      aid tying the two together. */
  predicate QueryMatches(q: Query, job: Job) {
    && (q.tagsIn.Some? ==> exists t | t in q.tagsIn.value :: t in job.tags)
    && (q.locationRegex.Some? ==> ContainsIgnoreCase(job.location, q.locationRegex.value))
    && (q.titleRegex.Some? ==> ContainsIgnoreCase(job.title, q.titleRegex.value))
  }

  /** The query as the filter the collection is scanned with. */
  function QueryFilter(q: Query): Job -> bool {
    (job: Job) => QueryMatches(q, job)
  }

  /** The query built from the filters selects exactly the jobs the filters match. */
  lemma QueryAgrees(query: Query, tags: Option<string>, location: Option<string>, title: Option<string>)
    requires query.tagsIn == (if Filled(tags) then Some(Split(tags.value, ',')) else None)
    requires query.locationRegex == (if Filled(location) then Some(location.value) else None)
    requires query.titleRegex == (if Filled(title) then Some(title.value) else None)
    ensures forall j :: QueryFilter(query)(j) == Matcher(tags, location, title)(j)
  {
  }

  /** searchJobs: build the query field by field, then find the matching jobs. */
  method SearchJobs(db: Database, tags: Option<string>, location: Option<string>, title: Option<string>)
    returns (reply: Reply)
    requires db.Valid()
    ensures reply == Search(db.State(), tags, location, title)
  {
    var query := Query(None, None, None);
    if Filled(tags) {
      query := query.(tagsIn := Some(Split(tags.value, ',')));
    }
    if Filled(location) {
      query := query.(locationRegex := Some(location.value));
    }
    if Filled(title) {
      query := query.(titleRegex := Some(title.value));
    }
    var found := db.Find(QueryFilter(query));
    QueryAgrees(query, tags, location, title);
    FilterCongruent(Table(db.State()), QueryFilter(query), Matcher(tags, location, title));
    reply := Reply(200, None, JobList(found));
  }

  method ApplyJob(db: Database, id: Id, sub: Sub, validId: Id -> bool) returns (reply: Reply)
    requires db.Valid()
    modifies db
    ensures db.Valid()
    ensures Outcome(reply, db.State()) == ApplyJobOutcome(old(db.State()), id, sub, validId)
  {
    if !validId(id) {
      return InternalError;
    }
    if id !in db.jobs {
      return Status(404, "Job not found");
    }
    var job := db.jobs[id];
    if sub !in db.users {
      return Status(404, "User not found");
    }
    var user := db.users[sub];
    if user.id in job.applicants {
      return Status(400, "Already applied for this job");
    }
    job := job.(applicants := job.applicants + [user.id]);
    db.Save(job);
    reply := Reply(200, None, OneJob(job));
  }

  method LikeJob(db: Database, id: Id, sub: Sub, validId: Id -> bool) returns (reply: Reply)
    requires db.Valid()
    modifies db
    ensures db.Valid()
    ensures Outcome(reply, db.State()) == LikeJobOutcome(old(db.State()), id, sub, validId)
  {
    if !validId(id) {
      return InternalError;
    }
    if id !in db.jobs {
      return Status(404, "Job not found");
    }
    var job := db.jobs[id];
    if sub !in db.users {
      return Status(404, "User not found");
    }
    var user := db.users[sub];
    var isLiked := user.id in job.likes;
    if isLiked {
      job := job.(likes := Without(job.likes, user.id));
    } else {
      job := job.(likes := job.likes + [user.id]);
    }
    db.Save(job);
    reply := Reply(200, Some(if isLiked then "Job unliked" else "Job liked"), OneJob(job));
  }

  method DeleteJob(db: Database, id: Id, sub: Sub, validId: Id -> bool) returns (reply: Reply)
    requires db.Valid()
    modifies db
    ensures db.Valid()
    ensures Outcome(reply, db.State()) == DeleteJobOutcome(old(db.State()), id, sub, validId)
  {
    if !validId(id) {
      return InternalError;
    }
    var found := id in db.jobs;
    if sub !in db.users {
      return Status(404, "User not found");
    }
    if !found {
      return Status(404, "Job not found");
    }
    db.DeleteOne(id);
    reply := Status(200, "Job deleted successfully");
  }
}
