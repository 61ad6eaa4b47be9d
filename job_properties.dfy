/** What the job handlers promise: the order of their guards, that a failure
    leaves the database as it was, what a success changes and nothing else,
    that applicants and likes stay free of duplicates, the round trips of the
    like toggle, and what a search finds. */
module JobProperties {
  import opened Seqs
  import opened Text
  import opened Records
  import opened JobController

  // ---------------------------------------------------------------- createJob

  /** Any falsy required field (missing, the empty string, or a salary of 0)
      is refused with 400 and nothing is stored, whoever asks. */
  lemma CreateRejectsFalsyField(db: Db, sub: Sub, input: JobInput, newId: Id, now: int)
    requires || input.title.None? || input.title == Some("")
             || input.location.None? || input.location == Some("")
             || input.salary.None? || input.salary == Some(0)
             || input.salaryType.None? || input.salaryType == Some("")
             || input.jobType.None? || input.jobType == Some("")
             || input.description.None? || input.description == Some("")
    ensures CreateJobOutcome(db, sub, input, newId, now)
         == Outcome(Status(400, "Please fill all the required fields"), db)
  {
  }

  /** With the required fields present but no user for the session subject,
      the owner lookup yields nothing and the handler fails with 500. */
  lemma CreateWithoutUserFails(db: Db, sub: Sub, input: JobInput, newId: Id, now: int)
    requires RequiredFieldsFilled(input) && sub !in db.users
    ensures CreateJobOutcome(db, sub, input, newId, now) == Outcome(InternalError, db)
  {
  }

  /** A successful create answers 201 with a job that carries the given
      fields, is owned by the session's user, and has no applicants and no
      likes yet. */
  lemma CreateBuildsJob(db: Db, sub: Sub, input: JobInput, newId: Id, now: int)
    requires RequiredFieldsFilled(input) && sub in db.users && newId !in db.jobs
    ensures var o := CreateJobOutcome(db, sub, input, newId, now);
      && o.reply.status == 201
      && o.reply.message == Some("Job created successfully")
      && o.reply.body.OneJob?
      && var job := o.reply.body.job;
      && job.id == newId
      && job.createdBy == db.users[sub].id
      && job.title == input.title.value && job.location == input.location.value
      && job.salary == input.salary.value && job.salaryType == input.salaryType.value
      && job.negotiable == input.negotiable && job.jobType == input.jobType.value
      && job.description == input.description.value
      && job.tags == (if input.tags.Some? then input.tags.value else [])
      && job.skills == (if input.skills.Some? then input.skills.value else [])
      && job.createdAt == now && job.applicants == [] && job.likes == []
  {
  }

  /** A successful create stores exactly that one job, at the end of the
      collection; the other jobs and all users are unchanged, and the database
      stays consistent. */
  lemma CreateAddsOneJob(db: Db, sub: Sub, input: JobInput, newId: Id, now: int)
    requires Wf(db) && EngagementsDistinct(db)
    requires RequiredFieldsFilled(input) && sub in db.users && newId !in db.jobs
    ensures var o := CreateJobOutcome(db, sub, input, newId, now);
      && o.db.jobs == db.jobs[newId := o.reply.body.job]
      && |o.db.jobs| == |db.jobs| + 1
      && o.db.users == db.users
      && Wf(o.db) && EngagementsDistinct(o.db)
      && Table(o.db) == Table(db) + [o.reply.body.job]
  {
    var job := NewJob(input, newId, db.users[sub].id, now);
    assert CreateJobOutcome(db, sub, input, newId, now).db == Saved(db, job);
    assert CreateJobOutcome(db, sub, input, newId, now).reply.body.job == job;
    SavedNewCount(db, job);
    SavedNewTable(db, job);
    SavedDistinct(db, job);
  }

  // ----------------------------------------------------------------- applyJob

  /** The guards of applyJob, in order: an id the cast rejects (500), no such
      job (404), no such user (404), already an applicant (400). Every failure
      leaves the database unchanged. */
  lemma ApplyGuards(db: Db, id: Id, sub: Sub, validId: Id -> bool)
    ensures var o := ApplyJobOutcome(db, id, sub, validId);
      && (!validId(id) ==> o.reply == InternalError)
      && (validId(id) && id !in db.jobs ==> o.reply == Status(404, "Job not found"))
      && (validId(id) && id in db.jobs && sub !in db.users ==> o.reply == Status(404, "User not found"))
      && (validId(id) && id in db.jobs && sub in db.users && db.users[sub].id in db.jobs[id].applicants ==>
            o.reply == Status(400, "Already applied for this job"))
      && (o.reply.status != 200 ==> o.db == db)
  {
  }

  /** A successful application appends the user's id once, at the end of that
      job's applicants; nothing else changes. */
  lemma ApplyAppendsOnce(db: Db, id: Id, sub: Sub, validId: Id -> bool)
    requires Wf(db)
    ensures var o := ApplyJobOutcome(db, id, sub, validId);
      o.reply.status == 200 ==>
        && id in db.jobs && sub in db.users
        && var job, uid := db.jobs[id], db.users[sub].id;
        && uid !in job.applicants
        && o.db.jobs == db.jobs[id := job.(applicants := job.applicants + [uid])]
        && o.db.order == db.order && o.db.users == db.users
        && multiset(o.db.jobs[id].applicants)[uid] == 1
        && o.reply.body == OneJob(o.db.jobs[id])
        && Wf(o.db)
  {
    var o := ApplyJobOutcome(db, id, sub, validId);
    if o.reply.status == 200 {
      var job, uid := db.jobs[id], db.users[sub].id;
      assert multiset(job.applicants)[uid] == 0;
      SavedWf(db, o.db.jobs[id]);
    }
  }

  /** applyJob keeps every job's applicants and likes duplicate-free. */
  lemma ApplyKeepsDistinct(db: Db, id: Id, sub: Sub, validId: Id -> bool)
    requires Wf(db) && EngagementsDistinct(db)
    ensures EngagementsDistinct(ApplyJobOutcome(db, id, sub, validId).db)
  {
    var o := ApplyJobOutcome(db, id, sub, validId);
    if o.reply.status == 200 {
      AppendFreshNoDup(db.jobs[id].applicants, db.users[sub].id);
    }
  }

  /** Applying twice: the second application is refused with 400 and changes
      nothing, so the applicants keep their length. */
  lemma ApplyTwiceRefused(db: Db, id: Id, sub: Sub, validId: Id -> bool)
    requires Wf(db)
    ensures var first := ApplyJobOutcome(db, id, sub, validId);
      first.reply.status == 200 ==>
        && var second := ApplyJobOutcome(first.db, id, sub, validId);
        && second.reply == Status(400, "Already applied for this job")
        && second.db == first.db
        && |second.db.jobs[id].applicants| == |first.db.jobs[id].applicants|
  {
  }

  // ------------------------------------------------------------------ likeJob

  /** likeJob has the same guards as applyJob except that there is no
      "already" case; every failure leaves the database unchanged. */
  lemma LikeGuards(db: Db, id: Id, sub: Sub, validId: Id -> bool)
    ensures var o := LikeJobOutcome(db, id, sub, validId);
      && (!validId(id) ==> o.reply == InternalError)
      && (validId(id) && id !in db.jobs ==> o.reply == Status(404, "Job not found"))
      && (validId(id) && id in db.jobs && sub !in db.users ==> o.reply == Status(404, "User not found"))
      && (validId(id) && id in db.jobs && sub in db.users ==> o.reply.status == 200)
      && (o.reply.status != 200 ==> o.db == db)
  {
  }

  /** A successful like flips the user's membership: a present id is removed
      everywhere it occurs and the reply says "Job unliked", an absent id is
      appended and the reply says "Job liked". Other likers are untouched, and
      so is everything outside that job's likes. */
  lemma LikeToggles(db: Db, id: Id, sub: Sub, validId: Id -> bool)
    requires Wf(db)
    ensures var o := LikeJobOutcome(db, id, sub, validId);
      o.reply.status == 200 ==>
        && id in db.jobs && sub in db.users
        && var job, uid := db.jobs[id], db.users[sub].id;
        && var likes := o.db.jobs[id].likes;
        && (uid in likes <==> uid !in job.likes)
        && (forall other :: other != uid ==> (other in likes <==> other in job.likes))
        && (uid in job.likes ==> likes == Without(job.likes, uid) && o.reply.message == Some("Job unliked"))
        && (uid !in job.likes ==> likes == job.likes + [uid] && o.reply.message == Some("Job liked"))
        && o.db.jobs == db.jobs[id := job.(likes := likes)]
        && o.db.order == db.order && o.db.users == db.users
        && Wf(o.db)
  {
    var o := LikeJobOutcome(db, id, sub, validId);
    if o.reply.status == 200 {
      SavedWf(db, o.db.jobs[id]);
    }
  }

  /** likeJob keeps every job's applicants and likes duplicate-free. */
  lemma LikeKeepsDistinct(db: Db, id: Id, sub: Sub, validId: Id -> bool)
    requires Wf(db) && EngagementsDistinct(db)
    ensures EngagementsDistinct(LikeJobOutcome(db, id, sub, validId).db)
  {
    var o := LikeJobOutcome(db, id, sub, validId);
    if o.reply.status == 200 {
      ToggleNoDup(db.jobs[id].likes, db.users[sub].id);
    }
  }

  /** Like then unlike, starting from not liked: the database is back to what
      it was. */
  lemma {:induction false} LikeTwiceFromUnliked(db: Db, id: Id, sub: Sub, validId: Id -> bool)
    requires Wf(db)
    requires validId(id) && id in db.jobs && sub in db.users
    requires db.users[sub].id !in db.jobs[id].likes
    ensures var first := LikeJobOutcome(db, id, sub, validId);
      && first.reply.message == Some("Job liked")
      && var second := LikeJobOutcome(first.db, id, sub, validId);
      && second.reply.message == Some("Job unliked")
      && second.db == db
  {
    var job, uid := db.jobs[id], db.users[sub].id;
    var first := LikeJobOutcome(db, id, sub, validId);
    ToggleTwiceAbsent(job.likes, uid);
    var second := LikeJobOutcome(first.db, id, sub, validId);
    assert second.db.jobs[id] == job;
    assert second.db.jobs == db.jobs;
  }

  /** Unlike then like, starting from liked: the user likes the job again,
      now exactly once and as the most recent like. */
  lemma LikeTwiceFromLiked(db: Db, id: Id, sub: Sub, validId: Id -> bool)
    requires Wf(db)
    requires validId(id) && id in db.jobs && sub in db.users
    requires db.users[sub].id in db.jobs[id].likes
    ensures var first := LikeJobOutcome(db, id, sub, validId);
      && first.reply.message == Some("Job unliked")
      && var second := LikeJobOutcome(first.db, id, sub, validId);
      && second.reply.message == Some("Job liked")
      && var job, uid := db.jobs[id], db.users[sub].id;
      && second.db.jobs == db.jobs[id := job.(likes := Without(job.likes, uid) + [uid])]
      && second.db.order == db.order && second.db.users == db.users
  {
  }

  // ---------------------------------------------------------------- deleteJob

  /** deleteJob reports a missing user before a missing job; every failure
      leaves the database unchanged. */
  lemma DeleteGuards(db: Db, id: Id, sub: Sub, validId: Id -> bool)
    ensures var o := DeleteJobOutcome(db, id, sub, validId);
      && (!validId(id) ==> o.reply == InternalError)
      && (validId(id) && sub !in db.users ==> o.reply == Status(404, "User not found"))
      && (validId(id) && sub in db.users && id !in db.jobs ==> o.reply == Status(404, "Job not found"))
      && (o.reply.status != 200 ==> o.db == db)
  {
  }

  /** A successful delete removes exactly that job and keeps the others, in
      their order. */
  lemma DeleteRemovesOnlyThatJob(db: Db, id: Id, sub: Sub, validId: Id -> bool)
    requires Wf(db) && EngagementsDistinct(db)
    requires validId(id) && sub in db.users && id in db.jobs
    ensures var o := DeleteJobOutcome(db, id, sub, validId);
      && o.reply == Status(200, "Job deleted successfully")
      && id !in o.db.jobs
      && (forall k :: k in db.jobs && k != id ==> k in o.db.jobs && o.db.jobs[k] == db.jobs[k])
      && o.db.jobs.Keys == db.jobs.Keys - {id}
      && |o.db.jobs| == |db.jobs| - 1
      && o.db.order == Without(db.order, id)
      && o.db.users == db.users
      && Wf(o.db) && EngagementsDistinct(o.db)
  {
    RemovedWf(db, id);
  }

  /** deleteJob does not check ownership: any two existing users get the same
      outcome, whoever created the job. */
  lemma DeleteIgnoresOwner(db: Db, id: Id, sub1: Sub, sub2: Sub, validId: Id -> bool)
    requires sub1 in db.users && sub2 in db.users
    ensures DeleteJobOutcome(db, id, sub1, validId) == DeleteJobOutcome(db, id, sub2, validId)
  {
  }

  // --------------------------------------------------------------- searchJobs

  /** With every filter missing or empty, the search returns the whole
      collection in its natural order. */
  lemma SearchUnfiltered(db: Db, tags: Option<string>, location: Option<string>, title: Option<string>)
    requires Wf(db)
    requires !Filled(tags) && !Filled(location) && !Filled(title)
    ensures Search(db, tags, location, title).body.jobs == Table(db)
  {
    FilterKeepsAll(Table(db), Matcher(tags, location, title));
  }

  /** Searching by one tag (no comma) finds exactly the jobs carrying it. */
  lemma SearchOneTag(db: Db, tag: string, j: Job)
    requires Wf(db)
    requires tag != "" && ',' !in tag
    ensures j in Search(db, Some(tag), None, None).body.jobs <==> j in Table(db) && tag in j.tags
  {
    SplitNoSeparator(tag, ',');
  }

  /** Searching by a comma-separated list of tags finds exactly the jobs that
      carry at least one of them. */
  lemma SearchAnyTag(db: Db, tags: seq<string>, j: Job)
    requires Wf(db)
    requires |tags| >= 1 && forall t :: t in tags ==> ',' !in t
    requires Join(tags, ',') != ""
    ensures j in Search(db, Some(Join(tags, ',')), None, None).body.jobs
        <==> j in Table(db) && exists t :: t in tags && t in j.tags
  {
    TagsMatchJoined(tags, j);
  }

  lemma TagsMatchJoined(tags: seq<string>, j: Job)
    requires |tags| >= 1 && forall t :: t in tags ==> ',' !in t
    requires Join(tags, ',') != ""
    ensures TagsMatch(Some(Join(tags, ',')), j) <==> exists t :: t in tags && t in j.tags
  {
    SplitJoin(tags, ',');
  }

  /** Searching by location finds exactly the jobs whose location contains
      the pattern, ignoring case; the title filter is alike. */
  lemma SearchByLocation(db: Db, location: string, j: Job)
    requires Wf(db) && location != "" && NoMeta(location)
    ensures j in Search(db, None, Some(location), None).body.jobs
        <==> j in Table(db) && ContainsIgnoreCase(j.location, location)
  {
  }

  /** The location and title filters ignore the case of the pattern; the
      lower-cased patterns are still free of metacharacters. */
  lemma SearchIgnoresPatternCase(db: Db, location: string, title: string, j: Job)
    requires Wf(db) && NoMeta(location) && NoMeta(title)
    ensures NoMeta(Lower(location)) && NoMeta(Lower(title))
    ensures var r := Search(db, None, Some(location), Some(title)).body.jobs;
            var s := Search(db, None, Some(Lower(location)), Some(Lower(title))).body.jobs;
            j in r <==> j in s
  {
    LowerKeepsNoMeta(location);
    LowerKeepsNoMeta(title);
    ContainsIgnoresCase(j.location, location);
    ContainsIgnoresCase(Lower(j.location), Lower(location));
    LowerIdempotent(j.location);
    LowerIdempotent(location);
    ContainsIgnoresCase(j.location, Lower(location));
    ContainsIgnoresCase(j.title, title);
    ContainsIgnoresCase(j.title, Lower(title));
    LowerIdempotent(title);
  }
}
