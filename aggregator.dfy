/**
 * `JobAggregator` of `services/job_aggregator.py`: fetch both boards, keep the
 * postings whose URL is not stored yet, insert them in one batch, and read the
 * stored jobs back a page at a time.
 */
module Aggregator {
  import opened Wrappers
  import opened Calendar
  import opened Schemas
  import opened Models
  import opened Io
  import opened Storage
  import Remotive
  import FranceTravail

  /** Some stored row has this URL. */
  predicate UrlStored(stored: seq<Job>, url: string) {
    exists k :: 0 <= k < |stored| && stored[k].url == Some(url)
  }

  /** The postings of `all` whose URL is not stored, in order. */
  function FreshPostings(all: seq<JobBase>, stored: seq<Job>): (r: seq<JobBase>)
    ensures |r| <= |all|
  {
    if all == [] then []
    else if UrlStored(stored, all[0].url) then FreshPostings(all[1..], stored)
    else [all[0]] + FreshPostings(all[1..], stored)
  }

  /**
   * The row built from a posting, with `id` taken from `external_id`. The
   * `Date` column keeps the day of `dateCreation`.
   */
  function ToRow(b: JobBase): (j: Job)
    ensures j.id == b.externalId && j.url == Some(b.url) && j.liked == Some(false)
    ensures j.dateCreation == VDate(b.dateCreation.date)
  {
    NewJob(b.externalId, Some(b.title), Some(b.company), Some(b.url), Some(b.source),
           Some(b.location), Some(b.salary), Some(b.description), Some(b.typeContrat),
           VDate(b.dateCreation.date), Some(false))
  }

  /** The rows `aggregate_jobs` queues, in merged-list order. */
  function Queue(all: seq<JobBase>, stored: seq<Job>): (r: seq<Job>)
    ensures |r| == |FreshPostings(all, stored)|
    ensures forall i :: 0 <= i < |r| ==> r[i] == ToRow(FreshPostings(all, stored)[i])
  {
    Each(FreshPostings(all, stored), ToRow)
  }

  /** A posting is queued exactly when no stored row has its URL. */
  lemma {:induction false} FreshPostingsSpec(all: seq<JobBase>, stored: seq<Job>)
    ensures forall b :: b in FreshPostings(all, stored) <==> b in all && !UrlStored(stored, b.url)
  {
    if all != [] {
      FreshPostingsSpec(all[1..], stored);
      assert all == [all[0]] + all[1..];
    }
  }

  /** Filtering the merged list is filtering each source in turn, in the same order. */
  lemma {:induction false} FreshPostingsConcat(a: seq<JobBase>, b: seq<JobBase>, stored: seq<Job>)
    ensures FreshPostings(a + b, stored) == FreshPostings(a, stored) + FreshPostings(b, stored)
  {
    if a == [] {
      assert a + b == b;
    } else {
      assert (a + b)[0] == a[0] && (a + b)[1..] == a[1..] + b;
      FreshPostingsConcat(a[1..], b, stored);
    }
  }

  /** Only the store is consulted: two new postings with one URL are both queued. */
  lemma SameUrlBothQueued(x: JobBase, y: JobBase, stored: seq<Job>)
    requires x.url == y.url && !UrlStored(stored, x.url)
    ensures Queue([x, y], stored) == [ToRow(x), ToRow(y)]
  {
    assert [x, y][1..] == [y] && [y][1..] == [];
    assert FreshPostings([y], stored) == [y];
    assert FreshPostings([x, y], stored) == [x, y];
  }

  /** After the queued rows are stored, the same postings queue nothing. */
  lemma {:induction false} QueueAfterSave(all: seq<JobBase>, stored: seq<Job>)
    ensures Queue(all, stored + Queue(all, stored)) == []
  {
    var saved := stored + Queue(all, stored);
    FreshPostingsSpec(all, stored);
    forall b | b in all
      ensures UrlStored(saved, b.url)
    {
      if !UrlStored(stored, b.url) {
        var pending := FreshPostings(all, stored);
        var i :| 0 <= i < |pending| && pending[i] == b;
        assert saved[|stored| + i] == ToRow(b);
      } else {
        var k :| 0 <= k < |stored| && stored[k].url == Some(b.url);
        assert saved[k] == stored[k];
      }
    }
    FreshPostingsSpec(all, saved);
    if FreshPostings(all, saved) != [] {
      assert FreshPostings(all, saved)[0] in FreshPostings(all, saved);
    }
  }

  /** Queuing a non-empty list: the row of its head when that is fresh, then the rest. */
  lemma QueueStep(all: seq<JobBase>, stored: seq<Job>)
    requires all != []
    ensures Queue(all, stored) ==
      (if UrlStored(stored, all[0].url) then [] else [ToRow(all[0])]) + Queue(all[1..], stored)
  {
    if UrlStored(stored, all[0].url) {
      assert [] + Queue(all[1..], stored) == Queue(all[1..], stored);
    } else {
      EachCons(all[0], FreshPostings(all[1..], stored), ToRow);
    }
  }

  /** The loop that fills `jobs_to_add`. */
  method QueueNewJobs(all: seq<JobBase>, stored: seq<Job>) returns (toAdd: seq<Job>)
    ensures toAdd == Queue(all, stored)
  {
    toAdd := [];
    var i := 0;
    while i < |all|
      invariant 0 <= i <= |all|
      invariant toAdd + Queue(all[i..], stored) == Queue(all, stored)
    {
      assert all[i..][0] == all[i] && all[i..][1..] == all[i + 1..];
      QueueStep(all[i..], stored);
      var present := exists k :: 0 <= k < |stored| && stored[k].url == Some(all[i].url);
      if !present {
        toAdd := toAdd + [ToRow(all[i])];
      }
      i := i + 1;
    }
  }

  /**
   * The batch cannot be inserted: a row without a key, two rows with one key,
   * or a row whose key is stored already.
   */
  predicate Conflicts(rows: seq<Job>, stored: seq<Job>) {
    (exists i :: 0 <= i < |rows| && rows[i].id.None?)
    || (exists i, j :: 0 <= i < j < |rows| && rows[i].id == rows[j].id)
    || (exists i, k :: 0 <= i < |rows| && 0 <= k < |stored| && rows[i].id == stored[k].id)
  }

  /** Over a table with valid keys, a batch conflicts exactly when storing it would break the key. */
  lemma ConflictsSpec(rows: seq<Job>, stored: seq<Job>)
    requires JobKeys(stored)
    ensures !Conflicts(rows, stored) <==> JobKeys(stored + rows)
  {
    var after := stored + rows;
    if !Conflicts(rows, stored) {
      forall i | 0 <= i < |after|
        ensures after[i].id.Some?
      {
        if i >= |stored| {
          assert after[i] == rows[i - |stored|];
        }
      }
      forall i, j | 0 <= i < j < |after|
        ensures after[i].id != after[j].id
      {
        if j >= |stored| && i >= |stored| {
          assert after[i] == rows[i - |stored|] && after[j] == rows[j - |stored|];
        } else if j >= |stored| {
          assert after[j] == rows[j - |stored|];
        }
      }
    } else if exists i :: 0 <= i < |rows| && rows[i].id.None? {
      var i :| 0 <= i < |rows| && rows[i].id.None?;
      assert after[|stored| + i] == rows[i];
    } else if exists i, j :: 0 <= i < j < |rows| && rows[i].id == rows[j].id {
      var i, j :| 0 <= i < j < |rows| && rows[i].id == rows[j].id;
      assert after[|stored| + i] == rows[i] && after[|stored| + j] == rows[j];
    } else {
      var i, k :| 0 <= i < |rows| && 0 <= k < |stored| && rows[i].id == stored[k].id;
      assert after[k] == stored[k] && after[|stored| + i] == rows[i];
    }
  }

  /** What `aggregate_jobs` ends in. */
  datatype ImportOutcome = NothingQueued | Saved(count: nat) | Failed(error: PyError)

  /**
   * `aggregate_jobs` once both fetches have returned: the outcome and the
   * `jobs` table afterwards. A conflict raises SQLAlchemy's `IntegrityError`,
   * which the `sqlite3` handler does not catch; the insert is not committed.
   */
  function Aggregate(stored: seq<Job>, remotive: Result<seq<JobBase>, PyError>,
                     franceTravail: Result<seq<JobBase>, PyError>): (r: (ImportOutcome, seq<Job>))
    ensures remotive.Err? ==> r.0 == Failed(remotive.error)
    ensures remotive.Ok? && franceTravail.Err? ==> r.0 == Failed(franceTravail.error)
    ensures remotive.Ok? && franceTravail.Ok? ==>
      var toAdd := Queue(remotive.value + franceTravail.value, stored);
      (r.0 == NothingQueued <==> toAdd == [])
      && (r.0 == Failed(IntegrityError) <==> toAdd != [] && Conflicts(toAdd, stored))
      && (toAdd != [] && !Conflicts(toAdd, stored) ==> r.0 == Saved(|toAdd|))
    ensures r.0.Saved? ==> remotive.Ok? && franceTravail.Ok?
    ensures r.0.Saved? ==> r.1 == stored + Queue(remotive.value + franceTravail.value, stored)
    ensures !r.0.Saved? ==> r.1 == stored
  {
    if remotive.Err? then (Failed(remotive.error), stored)
    else if franceTravail.Err? then (Failed(franceTravail.error), stored)
    else
      var toAdd := Queue(remotive.value + franceTravail.value, stored);
      if toAdd == [] then (NothingQueued, stored)
      else if Conflicts(toAdd, stored) then (Failed(IntegrityError), stored)
      else (Saved(|toAdd|), stored + toAdd)
  }

  /** A save only appends: every stored row is kept, in place, and the keys stay unique. */
  lemma AggregateKeepsRows(stored: seq<Job>, remotive: Result<seq<JobBase>, PyError>,
                           franceTravail: Result<seq<JobBase>, PyError>)
    requires JobKeys(stored)
    ensures var (outcome, after) := Aggregate(stored, remotive, franceTravail);
      after[..|stored|] == stored && JobKeys(after)
      && (outcome.Saved? ==> outcome.count == |after| - |stored| > 0)
  {
    var (outcome, after) := Aggregate(stored, remotive, franceTravail);
    if outcome.Saved? {
      ConflictsSpec(Queue(remotive.value + franceTravail.value, stored), stored);
    }
  }

  /** A second import of the same postings right after a save queues nothing. */
  lemma ImportTwice(stored: seq<Job>, remotive: seq<JobBase>, franceTravail: seq<JobBase>)
    requires Aggregate(stored, Ok(remotive), Ok(franceTravail)).0.Saved?
    ensures var after := Aggregate(stored, Ok(remotive), Ok(franceTravail)).1;
      Aggregate(after, Ok(remotive), Ok(franceTravail)) == (NothingQueued, after)
  {
    QueueAfterSave(remotive + franceTravail, stored);
  }

  /**
   * With the configuration as shipped (neither `JOB_LIMIT` nor `ENV` defined)
   * an import never stores anything: a decoded Remotive body raises
   * `AttributeError`, and France Travail yields no posting.
   */
  lemma {:induction false} ShippedImportSavesNothing(stored: seq<Job>, remotiveResponse: Response,
                                                     token: FranceTravail.TokenOutcome, searchResponse: Response)
    ensures var (outcome, after) := Aggregate(stored, Remotive.FetchJobs(remotiveResponse, None),
                                              FranceTravail.FetchOutcome(token, None, searchResponse));
      after == stored && !outcome.Saved?
      && (remotiveResponse.Body? ==> outcome == Failed(AttributeError))
  {
    var remotive := Remotive.FetchJobs(remotiveResponse, None);
    var franceTravail := FranceTravail.FetchOutcome(token, None, searchResponse);
    if remotive.Ok? && franceTravail.Ok? {
      assert remotive.value + franceTravail.value == [];
      assert FreshPostings([], stored) == [];
    }
  }

  /**
   * `aggregate_jobs` as written: `Job(external_id=...)` does not match
   * `Job.__init__`, whose key parameter is `id`, so building the first queued
   * row raises `TypeError` and nothing is saved.
   */
  function AggregateAsWritten(stored: seq<Job>, remotive: Result<seq<JobBase>, PyError>,
                              franceTravail: Result<seq<JobBase>, PyError>): (r: (ImportOutcome, seq<Job>))
    ensures r.1 == stored
  {
    if remotive.Err? then (Failed(remotive.error), stored)
    else if franceTravail.Err? then (Failed(franceTravail.error), stored)
    else if FreshPostings(remotive.value + franceTravail.value, stored) == [] then (NothingQueued, stored)
    else (Failed(TypeError), stored)
  }

  /** As written, no import ever stores a posting: one that would be queued raises instead. */
  lemma AsWrittenNeverSaves(stored: seq<Job>, remotive: seq<JobBase>, franceTravail: seq<JobBase>)
    requires FreshPostings(remotive + franceTravail, stored) != []
    ensures AggregateAsWritten(stored, Ok(remotive), Ok(franceTravail)) == (Failed(TypeError), stored)
    ensures Aggregate(stored, Ok(remotive), Ok(franceTravail)).0 != Failed(TypeError)
  {
  }

  /** A new posting with a key is saved by the corrected code and lost by the code as written. */
  lemma OnePostingSaved(b: JobBase)
    requires b.externalId.Some?
    ensures Aggregate([], Ok([b]), Ok([])) == (Saved(1), [ToRow(b)])
    ensures AggregateAsWritten([], Ok([b]), Ok([])) == (Failed(TypeError), [])
  {
    assert [b] + [] == [b];
    assert FreshPostings([b], []) == [b];
    assert Queue([b], []) == [ToRow(b)];
    assert !Conflicts([ToRow(b)], []);
    var stored: seq<Job> := [];
    assert stored + [ToRow(b)] == [ToRow(b)];
    assert Conflicts([ToRow(b)], stored) == false;
  }

  /**
   * `aggregate_jobs` against the session: both fetches, then the import. The
   * France Travail token cache is updated as its lookup dictates.
   */
  method AggregateJobs(db: Database, cache: FranceTravail.TokenCache, now: real, settings: Settings,
                       remotiveResponse: Response, tokenResponse: Response, searchResponse: Response)
    returns (r: ImportOutcome)
    requires db.Valid()
    modifies db, cache
    ensures var (token, state, _) :=
        FranceTravail.Lookup(old(cache.State()), now, settings, tokenResponse);
      cache.State() == state
      && (r, db.jobs) == Aggregate(old(db.jobs), Remotive.FetchJobs(remotiveResponse, settings.jobLimit),
                                   FranceTravail.FetchOutcome(token, settings.env, searchResponse))
    ensures db.users == old(db.users) && db.likes == old(db.likes) && db.seen == old(db.seen)
    ensures db.Valid()
  {
    var remotive := Remotive.FetchJobs(remotiveResponse, settings.jobLimit);
    var franceTravail, _ := FranceTravail.FetchJobs(cache, now, settings, tokenResponse, searchResponse);
    AggregateKeepsRows(db.jobs, remotive, franceTravail);
    if remotive.Err? {
      return Failed(remotive.error);
    }
    if franceTravail.Err? {
      return Failed(franceTravail.error);
    }
    var toAdd := QueueNewJobs(remotive.value + franceTravail.value, db.jobs);
    if toAdd == [] {
      return NothingQueued;
    }
    if Conflicts(toAdd, db.jobs) {
      return Failed(IntegrityError);
    }
    db.jobs := db.jobs + toAdd;
    r := Saved(|toAdd|);
  }

  /** `get_jobs_from_db`: `OFFSET offset LIMIT limit` over the table in insertion order. */
  function JobsPage(jobs: seq<Job>, offset: nat, limit: nat): (r: seq<Job>)
    ensures |r| == if offset >= |jobs| then 0 else if limit < |jobs| - offset then limit else |jobs| - offset
    ensures forall i :: 0 <= i < |r| ==> r[i] == jobs[offset + i]
  {
    if offset >= |jobs| then []
    else if limit < |jobs| - offset then jobs[offset..offset + limit]
    else jobs[offset..]
  }

  /** Consecutive pages tile the table: no row is skipped or repeated. */
  lemma PagesTile(jobs: seq<Job>, offset: nat, limit: nat)
    requires offset + limit <= |jobs|
    ensures JobsPage(jobs, offset, limit) + JobsPage(jobs, offset + limit, |jobs|)
            == jobs[offset..]
  {
    var a := JobsPage(jobs, offset, limit);
    var b := JobsPage(jobs, offset + limit, |jobs|);
    assert |a + b| == |jobs[offset..]|;
    forall i | 0 <= i < |a + b|
      ensures (a + b)[i] == jobs[offset..][i]
    {
      if i >= |a| {
        assert (a + b)[i] == b[i - limit];
      }
    }
  }
}
