/** The database object the handlers work on. Its three fields are the two
    collections; its methods are the driver calls the handlers make. */
module Store {
  import opened Records
  import Seqs

  class Database {
    var jobs: map<Id, Job>
    var order: seq<Id>
    var users: map<Sub, User>

    /** The stored contents as a value. */
    function State(): Db
      reads this
    {
      Db(jobs, order, users)
    }

    ghost predicate Valid()
      reads this
    {
      Wf(State())
    }

    constructor ()
      ensures Valid() && State() == EmptyDb
    {
      jobs, order, users := map[], [], map[];
    }

    /** `job.save()`: insert the job, or replace the stored job with its id. */
    method Save(job: Job)
      requires Valid()
      modifies this
      ensures Valid()
      ensures State() == Saved(old(State()), job)
    {
      SavedWf(State(), job);
      if job.id !in jobs {
        order := order + [job.id];
      }
      jobs := jobs[job.id := job];
    }

    /** `Job.find(filter)`: the stored jobs the filter selects, in the
        collection's natural order. */
    method Find(p: Job -> bool) returns (found: seq<Job>)
      requires Valid()
      ensures found == Seqs.Filter(Table(State()), p)
    {
      ghost var table := Table(State());
      found := [];
      var i := 0;
      while i < |order|
        invariant i <= |order|
        invariant found == Seqs.Filter(table[..i], p)
      {
        var job := jobs[order[i]];
        assert job == table[i];
        Seqs.FilterStep(table, i, p);
        if p(job) {
          found := found + [job];
        }
        i := i + 1;
      }
      assert table[..i] == table;
    }

    /** `job.deleteOne()`: remove the job with this id. */
    method DeleteOne(id: Id)
      requires Valid()
      modifies this
      ensures Valid()
      ensures State() == Removed(old(State()), id)
    {
      RemovedWf(State(), id);
      jobs := jobs - {id};
      order := Seqs.Without(order, id);
    }

    /** `User.create()` for a subject and an id not yet stored. */
    method CreateUser(user: User)
      requires Valid()
      requires user.auth0Id !in users && user.id !in UserIds(State())
      modifies this
      ensures Valid()
      ensures State() == Created(old(State()), user)
    {
      CreatedWf(State(), user);
      users := users[user.auth0Id := user];
    }
  }
}
