/** Ordering of job listings by creation time, newest first (the
    `.sort({createdAt: -1})` of the listing queries). */
module Sorting {
  import opened Records

  /** Creation times never increase along the sequence. */
  predicate NewestFirst(s: seq<Job>) {
    forall i, j :: 0 <= i < j < |s| ==> s[i].createdAt >= s[j].createdAt
  }

  /** Places `job` before the first job that is not newer than it. */
  function Insert(job: Job, s: seq<Job>): (r: seq<Job>)
    ensures multiset(r) == multiset(s) + multiset{job}
  {
    if s == [] || s[0].createdAt <= job.createdAt then
      [job] + s
    else
      assert s == [s[0]] + s[1..];
      [s[0]] + Insert(job, s[1..])
  }

  /** A job no older than the head of a newest-first sequence may precede it. */
  lemma ConsSorted(x: Job, s: seq<Job>)
    requires NewestFirst(s)
    requires s != [] ==> s[0].createdAt <= x.createdAt
    ensures NewestFirst([x] + s)
  {
    var r := [x] + s;
    forall i, j | 0 <= i < j < |r| ensures r[i].createdAt >= r[j].createdAt {
      if i == 0 {
        assert r[j] == s[j - 1];
        assert s[0].createdAt >= s[j - 1].createdAt;
      } else {
        assert r[i] == s[i - 1] && r[j] == s[j - 1];
      }
    }
  }

  /** Inserting into a newest-first sequence keeps it newest first; the head
      is the newer of `job` and the old head. */
  lemma {:induction false} InsertSorted(job: Job, s: seq<Job>)
    requires NewestFirst(s)
    ensures NewestFirst(Insert(job, s))
    ensures |Insert(job, s)| == |s| + 1
    ensures Insert(job, s)[0] == if s == [] || s[0].createdAt <= job.createdAt then job else s[0]
  {
    if s == [] || s[0].createdAt <= job.createdAt {
      ConsSorted(job, s);
    } else {
      var tail := s[1..];
      assert NewestFirst(tail) by {
        forall i, j | 0 <= i < j < |tail| ensures tail[i].createdAt >= tail[j].createdAt {
          assert tail[i] == s[i + 1] && tail[j] == s[j + 1];
        }
      }
      InsertSorted(job, tail);
      ConsSorted(s[0], Insert(job, tail));
    }
  }

  /** The jobs of `s`, newest first (insertion sort). */
  function SortNewestFirst(s: seq<Job>): (r: seq<Job>)
    ensures NewestFirst(r)
    ensures multiset(r) == multiset(s)
  {
    if s == [] then []
    else
      assert s == [s[0]] + s[1..];
      var rest := SortNewestFirst(s[1..]);
      InsertSorted(s[0], rest);
      Insert(s[0], rest)
  }

  /** Sorting neither adds nor drops a job. */
  lemma SortedSameMembers(s: seq<Job>)
    ensures forall x :: x in SortNewestFirst(s) <==> x in s
  {
    var r := SortNewestFirst(s);
    forall x ensures x in r <==> x in s {
      assert x in r <==> x in multiset(r);
      assert x in s <==> x in multiset(s);
    }
  }
}
