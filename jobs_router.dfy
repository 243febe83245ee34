/**
 * The job routes of `routers/jobs.py`: the `JobResponse` validation of a stored
 * row, the paged listing, lookup by id, and the like / unlike / see / apply
 * transitions over the (user, job) link tables with the listings built from them.
 */
module JobsRouter {
  import opened Wrappers
  import opened Text
  import opened Calendar
  import opened Schemas
  import opened Models
  import opened Io
  import opened Storage
  import Aggregator
  import AuthRouter

  /** Python's `str(v)` of a value that is neither text nor a date. */
  function Repr(v: Value): string {
    match v
    case VInt(i) => IntToString(i)
    case _ => "None"
  }

  /**
   * `JobResponse.ensure_date`: a date or datetime becomes `dd/mm/yyyy`, so does
   * an ISO string (after `Z` becomes `+00:00`); any other string is kept and
   * any other value becomes its `str`.
   */
  function EnsureDate(v: Value): (r: string)
    requires (v.VDate? || v.VDateTime?) ==> ValidDate(DayOf(v))
    ensures (v.VDate? || v.VDateTime?) ==> ParseDmy(r) == Some(DayOf(v))
    ensures v.VStr? && ParseIso(ReplaceZ(v.s)).Some? ==> ParseDmy(r) == Some(ParseIso(ReplaceZ(v.s)).value.date)
    ensures v.VStr? && ParseIso(ReplaceZ(v.s)).None? ==> r == v.s
    ensures !(v.VStr? || v.VDate? || v.VDateTime?) ==> r == Repr(v)
  {
    match v
    case VDateTime(dt) => ParseFormatDmy(dt.date); FormatDmy(dt.date)
    case VDate(d) => ParseFormatDmy(d); FormatDmy(d)
    case VStr(s) =>
      (match ParseIso(ReplaceZ(s))
       case Some(dt) => ParseFormatDmy(dt.date); FormatDmy(dt.date)
       case None => s)
    case _ => Repr(v)
  }

  /**
   * The `dateCreation` of a validated `JobResponse`: `ensure_date` runs first,
   * then `JobBase.parse_date` reads its text. A stored date keeps its day.
   */
  lemma ValidatedDateKeepsDay(v: Value, now: DateTime)
    requires v.VDate? || v.VDateTime?
    requires ValidDate(DayOf(v))
    ensures ParseDate(VStr(EnsureDate(v)), now) == VDateTime(Midnight(DayOf(v)))
  {
    ParseDateDmy(DayOf(v), now);
  }

  /** An ISO string is re-read at midnight of its day. */
  lemma ValidatedIsoKeepsDay(s: string, now: DateTime)
    requires ParseIso(ReplaceZ(s)).Some?
    ensures ParseDate(VStr(EnsureDate(VStr(s))), now)
            == VDateTime(Midnight(ParseIso(ReplaceZ(s)).value.date))
  {
    ParseDateDmy(ParseIso(ReplaceZ(s)).value.date, now);
  }

  /** The day a stored date holds, for the dates the table can hold. */
  predicate StorableDate(v: Value) {
    (v.VDate? || v.VDateTime?) ==> ValidDate(DayOf(v))
  }

  /**
   * `JobResponse.model_validate(job)`: the text key must read as an integer,
   * every text column must be set, `external_id` takes its default, and the
   * date goes through `ensure_date` then `parse_date`.
   */
  function ValidateJob(job: Job, now: DateTime): (r: Option<JobBase>)
    requires StorableDate(job.dateCreation)
    ensures r.Some? <==>
      (job.id.Some? && ParseInt(job.id.value).Some? && job.title.Some? && job.company.Some?
       && job.url.Some? && job.source.Some? && job.location.Some? && job.salary.Some?
       && job.description.Some? && job.typeContrat.Some?)
    ensures r.Some? ==>
      r.value.id == ParseInt(job.id.value) && r.value.externalId.None?
      && Some(r.value.title) == job.title && Some(r.value.company) == job.company
      && Some(r.value.url) == job.url && Some(r.value.source) == job.source
      && Some(r.value.location) == job.location && Some(r.value.salary) == job.salary
      && Some(r.value.description) == job.description && Some(r.value.typeContrat) == job.typeContrat
      && r.value.liked == job.liked
      && VDateTime(r.value.dateCreation) == ParseDate(VStr(EnsureDate(job.dateCreation)), now)
  {
    var date := ParseDate(VStr(EnsureDate(job.dateCreation)), now);
    if job.id.None? || ParseInt(job.id.value).None? || job.title.None? || job.company.None?
       || job.url.None? || job.source.None? || job.location.None? || job.salary.None?
       || job.description.None? || job.typeContrat.None?
    then None
    else
      Some(JobBase(ParseInt(job.id.value), None, job.title.value, job.company.value, job.url.value,
                   job.source.value, job.location.value, job.salary.value, job.description.value,
                   job.typeContrat.value, date.dt, job.liked))
  }

  /** A row the aggregator stored validates with its key and its day. */
  lemma StoredRowValidates(b: JobBase, now: DateTime)
    requires b.externalId.Some? && ParseInt(b.externalId.value).Some?
    requires ValidDate(b.dateCreation.date)
    ensures var r := ValidateJob(Aggregator.ToRow(b), now);
      r.Some? && r.value.id == ParseInt(b.externalId.value) && r.value.title == b.title
      && r.value.url == b.url && r.value.dateCreation == Midnight(b.dateCreation.date)
  {
    ValidatedDateKeepsDay(VDate(b.dateCreation.date), now);
  }

  /** Every row of the table holds a date the calendar allows. */
  predicate StorableRows(jobs: seq<Job>) {
    forall i :: 0 <= i < |jobs| ==> StorableDate(jobs[i].dateCreation)
  }

  /** The query bounds of `get_jobs`: `offset >= 0` and `1 <= limit <= 100`. */
  predicate ValidPageQuery(offset: int, limit: int) {
    offset >= 0 && 1 <= limit <= 100
  }

  /** The rows validated in order: None as soon as one of them does not validate. */
  function ValidateRows(rows: seq<Job>, now: DateTime): (r: Option<seq<JobBase>>)
    requires StorableRows(rows)
    ensures r.None? <==> exists i :: 0 <= i < |rows| && ValidateJob(rows[i], now).None?
    ensures r.Some? ==> |r.value| == |rows| && forall i :: 0 <= i < |rows| ==> ValidateJob(rows[i], now) == Some(r.value[i])
  {
    var checked := seq(|rows|, i requires 0 <= i < |rows| => ValidateJob(rows[i], now));
    assert forall i :: 0 <= i < |rows| ==> checked[i] == ValidateJob(rows[i], now);
    AllPresentSpec(checked);
    AllPresent(checked)
  }

  /**
   * `get_jobs`: 422 outside the query bounds; otherwise the page, each row
   * validated, and a 500 when one of them does not validate.
   */
  function GetJobs(jobs: seq<Job>, offset: int, limit: int, now: DateTime): (r: Reply<seq<JobBase>>)
    requires StorableRows(jobs)
    ensures r.Rejected? <==> !ValidPageQuery(offset, limit)
    ensures r.Rejected? ==> r.status == 422
    ensures r == InternalError <==>
      ValidPageQuery(offset, limit)
      && exists i :: 0 <= i < |Aggregator.JobsPage(jobs, offset, limit)|
                     && ValidateJob(Aggregator.JobsPage(jobs, offset, limit)[i], now).None?
    ensures r.Done? ==>
      var page := Aggregator.JobsPage(jobs, offset, limit);
      |r.body| == |page| <= limit
      && forall i :: 0 <= i < |page| ==> ValidateJob(page[i], now) == Some(r.body[i])
  {
    if !ValidPageQuery(offset, limit) then Rejected(422, "Query validation failed")
    else
      match ValidateRows(Aggregator.JobsPage(jobs, offset, limit), now)
      case None => InternalError
      case Some(body) => Done(body)
  }

  /** `get_job_by_id`: the row whose text key is the id's decimal form, else 404. */
  function GetJobById(jobs: seq<Job>, id: int, now: DateTime): (r: Reply<JobBase>)
    requires StorableRows(jobs)
    ensures r == Rejected(404, "Job not found") <==>
            forall k :: 0 <= k < |jobs| ==> jobs[k].id != Some(IntToString(id))
    ensures r.Done? ==> exists k :: 0 <= k < |jobs| && jobs[k].id == Some(IntToString(id))
                                    && ValidateJob(jobs[k], now) == Some(r.body)
    ensures r == InternalError <==>
      FindJob(jobs, IntToString(id)).Some? && ValidateJob(FindJob(jobs, IntToString(id)).value, now).None?
    ensures r.Done? ==> r.body.id == Some(id)
  {
    match FindJob(jobs, IntToString(id))
    case None => Rejected(404, "Job not found")
    case Some(job) =>
      ParseIntToString(id);
      match ValidateJob(job, now)
      case None => InternalError
      case Some(v) => Done(v)
  }

  /**
   * Adding a (user, job) link: 409 with `conflict` when the pair is recorded,
   * checked before the job's existence; 404 when no job has that key; else the
   * pair is appended.
   */
  function AddLink(table: seq<Link>, jobs: seq<Job>, userId: int, jobId: int, conflict: string)
    : (r: (Reply<()>, seq<Link>))
    ensures var link := Link(userId, IntToString(jobId));
      (r.0 == Rejected(409, conflict) <==> link in table)
      && (r.0 == Rejected(404, "Job not found") <==> link !in table && FindJob(jobs, IntToString(jobId)).None?)
      && (r.0.Done? <==> link !in table && FindJob(jobs, IntToString(jobId)).Some?)
      && r.1 == if r.0.Done? then table + [link] else table
  {
    var link := Link(userId, IntToString(jobId));
    if link in table then (Rejected(409, conflict), table)
    else if FindJob(jobs, IntToString(jobId)).None? then (Rejected(404, "Job not found"), table)
    else (Done(()), table + [link])
  }

  /** Adding links keeps each pair recorded at most once, and records the pair. */
  lemma AddLinkKeepsInvariant(table: seq<Link>, jobs: seq<Job>, userId: int, jobId: int, conflict: string)
    requires NoDuplicateLinks(table)
    ensures NoDuplicateLinks(AddLink(table, jobs, userId, jobId, conflict).1)
    ensures AddLink(table, jobs, userId, jobId, conflict).0.Done? ==>
            Link(userId, IntToString(jobId)) in AddLink(table, jobs, userId, jobId, conflict).1
  {
  }

  /** A link added once is refused the second time, whatever the job table holds. */
  lemma AddLinkTwice(table: seq<Link>, jobs: seq<Job>, later: seq<Job>, userId: int, jobId: int,
                     first: string, second: string)
    requires AddLink(table, jobs, userId, jobId, first).0.Done?
    ensures var after := AddLink(table, jobs, userId, jobId, first).1;
      AddLink(after, later, userId, jobId, second) == (Rejected(409, second), after)
  {
  }

  /** The conflict details of the three adding routes. */
  const LikedDetail: string := "Job already liked"
  const SeenDetail: string := "Job already seen"
  const AppliedDetail: string := "Job already applied"

  /** Applying to a job already seen is refused: both routes use the seen table. */
  lemma ApplyAfterSee(seen: seq<Link>, jobs: seq<Job>, userId: int, jobId: int)
    requires AddLink(seen, jobs, userId, jobId, SeenDetail).0.Done?
    ensures var after := AddLink(seen, jobs, userId, jobId, SeenDetail).1;
      AddLink(after, jobs, userId, jobId, AppliedDetail).0 == Rejected(409, AppliedDetail)
  {
    AddLinkTwice(seen, jobs, jobs, userId, jobId, SeenDetail, AppliedDetail);
  }

  /** The response of a link route: the user's `UserResponse` after the change. */
  function Answer(status: Reply<()>, user: AuthRouter.UserLookup): (r: Reply<UserResponse>)
    ensures status.Rejected? ==> r == Rejected(status.status, status.detail)
    ensures r.Done? <==> status.Done? && user.Found?
    ensures r.Done? ==> r.body == user.response
    ensures r == InternalError <==> status.InternalError? || (status.Done? && !user.Found?)
  {
    match status
    case Rejected(code, detail) => Rejected(code, detail)
    case InternalError => InternalError
    case Done(_) => if user.Found? then Done(user.response) else InternalError
  }

  /** `like_job` for the authenticated user. */
  method LikeJob(db: Database, userId: int, jobId: int) returns (r: Reply<UserResponse>)
    requires db.Valid()
    modifies db
    ensures var (status, likes) := AddLink(old(db.likes), old(db.jobs), userId, jobId, LikedDetail);
      db.likes == likes && r == Answer(status, AuthRouter.GetUserById(db.users, db.likes, db.jobs, userId))
    ensures db.jobs == old(db.jobs) && db.users == old(db.users) && db.seen == old(db.seen)
    ensures db.Valid()
  {
    AddLinkKeepsInvariant(db.likes, db.jobs, userId, jobId, LikedDetail);
    var link := Link(userId, IntToString(jobId));
    if link in db.likes {
      return Rejected(409, LikedDetail);
    }
    if FindJob(db.jobs, IntToString(jobId)).None? {
      return Rejected(404, "Job not found");
    }
    db.likes := db.likes + [link];
    r := Answer(Done(()), AuthRouter.GetUserById(db.users, db.likes, db.jobs, userId));
  }

  /** `see_job` for the authenticated user. */
  method SeeJob(db: Database, userId: int, jobId: int) returns (r: Reply<UserResponse>)
    requires db.Valid()
    modifies db
    ensures var (status, seen) := AddLink(old(db.seen), old(db.jobs), userId, jobId, SeenDetail);
      db.seen == seen && r == Answer(status, AuthRouter.GetUserById(db.users, db.likes, db.jobs, userId))
    ensures db.jobs == old(db.jobs) && db.users == old(db.users) && db.likes == old(db.likes)
    ensures db.Valid()
  {
    AddLinkKeepsInvariant(db.seen, db.jobs, userId, jobId, SeenDetail);
    var link := Link(userId, IntToString(jobId));
    if link in db.seen {
      return Rejected(409, SeenDetail);
    }
    if FindJob(db.jobs, IntToString(jobId)).None? {
      return Rejected(404, "Job not found");
    }
    db.seen := db.seen + [link];
    r := Answer(Done(()), AuthRouter.GetUserById(db.users, db.likes, db.jobs, userId));
  }

  /** `apply_job` for the authenticated user: it records the pair in the seen table. */
  method ApplyJob(db: Database, userId: int, jobId: int) returns (r: Reply<UserResponse>)
    requires db.Valid()
    modifies db
    ensures var (status, seen) := AddLink(old(db.seen), old(db.jobs), userId, jobId, AppliedDetail);
      db.seen == seen && r == Answer(status, AuthRouter.GetUserById(db.users, db.likes, db.jobs, userId))
    ensures db.jobs == old(db.jobs) && db.users == old(db.users) && db.likes == old(db.likes)
    ensures db.Valid()
  {
    AddLinkKeepsInvariant(db.seen, db.jobs, userId, jobId, AppliedDetail);
    var link := Link(userId, IntToString(jobId));
    if link in db.seen {
      return Rejected(409, AppliedDetail);
    }
    if FindJob(db.jobs, IntToString(jobId)).None? {
      return Rejected(404, "Job not found");
    }
    db.seen := db.seen + [link];
    r := Answer(Done(()), AuthRouter.GetUserById(db.users, db.likes, db.jobs, userId));
  }

  /** `table` without its first occurrence of `link`. */
  function RemoveFirst(table: seq<Link>, link: Link): (r: seq<Link>)
    ensures |r| == if link in table then |table| - 1 else |table|
    ensures forall x :: x in r ==> x in table
    ensures forall x :: x in table && x != link ==> x in r
  {
    if table == [] then []
    else
      assert table == [table[0]] + table[1..];
      if table[0] == link then table[1..]
      else [table[0]] + RemoveFirst(table[1..], link)
  }

  /** Exactly one occurrence of the pair goes, when there is one. */
  lemma {:induction false} RemoveFirstCounts(table: seq<Link>, link: Link)
    ensures multiset(RemoveFirst(table, link)) == multiset(table) - multiset{link}
  {
    if table != [] {
      assert table == [table[0]] + table[1..];
      if table[0] != link {
        RemoveFirstCounts(table[1..], link);
      }
    }
  }

  /** Past its first link, a table without repeats has no repeats and no second copy of that link. */
  lemma NoDuplicateLinksTail(table: seq<Link>)
    requires NoDuplicateLinks(table) && table != []
    ensures NoDuplicateLinks(table[1..]) && table[0] !in table[1..]
  {
    var rest := table[1..];
    assert forall k :: 0 <= k < |rest| ==> rest[k] == table[k + 1];
  }

  /** With each pair recorded once, the pair is gone afterwards and the rest stay distinct. */
  lemma {:induction false} RemoveFirstExactly(table: seq<Link>, link: Link)
    requires NoDuplicateLinks(table) && link in table
    ensures link !in RemoveFirst(table, link) && NoDuplicateLinks(RemoveFirst(table, link))
  {
    var rest := table[1..];
    assert table == [table[0]] + rest;
    NoDuplicateLinksTail(table);
    if table[0] != link {
      RemoveFirstExactly(rest, link);
      var tail := RemoveFirst(rest, link);
      var r := RemoveFirst(table, link);
      assert r == [table[0]] + tail;
      forall i, j | 0 <= i < j < |r|
        ensures r[i] != r[j]
      {
        assert r[j] == tail[j - 1] && tail[j - 1] in tail;
        if i > 0 {
          assert r[i] == tail[i - 1];
        }
      }
    }
  }

  /** `unlike_job`: 404 when the pair is not recorded, else exactly that like is deleted. */
  method UnlikeJob(db: Database, jobId: int, userId: int) returns (r: Reply<UserResponse>)
    requires db.Valid()
    modifies db
    ensures var link := Link(userId, IntToString(jobId));
      if link in old(db.likes) then
        db.likes == RemoveFirst(old(db.likes), link)
        && r == Answer(Done(()), AuthRouter.GetUserById(db.users, db.likes, db.jobs, userId))
      else db.likes == old(db.likes) && r == Rejected(404, "Like not found")
    ensures db.jobs == old(db.jobs) && db.users == old(db.users) && db.seen == old(db.seen)
    ensures db.Valid()
  {
    var link := Link(userId, IntToString(jobId));
    if link !in db.likes {
      return Rejected(404, "Like not found");
    }
    RemoveFirstExactly(db.likes, link);
    db.likes := RemoveFirst(db.likes, link);
    r := Answer(Done(()), AuthRouter.GetUserById(db.users, db.likes, db.jobs, userId));
  }

  /** The validated job a link points to, if it exists and validates; it carries the link's key. */
  function LinkedJob(jobs: seq<Job>, link: Link, now: DateTime): (r: Option<JobBase>)
    requires StorableRows(jobs)
    ensures (forall k :: 0 <= k < |jobs| ==> jobs[k].id != Some(link.jobId)) ==> r.None?
    ensures r.Some? ==> r.value.id == ParseInt(link.jobId) && r.value.id.Some?
  {
    match FindJob(jobs, link.jobId)
    case None => None
    case Some(job) => ValidateJob(job, now)
  }

  /** What `look` finds for the user's links, in link order; links it finds nothing for are skipped. */
  function Gather<T>(table: seq<Link>, userId: int, look: Link -> Option<T>): (r: seq<T>)
    ensures |r| <= |table|
  {
    if table == [] then []
    else
      var last := table[|table| - 1];
      var rest := Gather(table[..|table| - 1], userId, look);
      if last.userId == userId && look(last).Some? then rest + [look(last).value] else rest
  }

  /** The value of each listed entry comes from one of the user's links. */
  lemma {:induction false} GatherSource<T>(table: seq<Link>, userId: int, look: Link -> Option<T>, v: T)
    returns (i: nat)
    requires v in Gather(table, userId, look)
    ensures i < |table| && table[i].userId == userId && look(table[i]) == Some(v)
  {
    var init := table[..|table| - 1];
    if v in Gather(init, userId, look) {
      i := GatherSource(init, userId, look, v);
      assert table[i] == init[i];
    } else {
      i := |table| - 1;
    }
  }

  /** What `look` finds for one of the user's links is listed. */
  lemma {:induction false} GatherListed<T>(table: seq<Link>, userId: int, look: Link -> Option<T>, i: nat)
    requires i < |table| && table[i].userId == userId && look(table[i]).Some?
    ensures look(table[i]).value in Gather(table, userId, look)
  {
    var init := table[..|table| - 1];
    if i < |init| {
      assert table[i] == init[i];
      GatherListed(init, userId, look, i);
    }
  }

  /** Gathering a longer table: the entries of the first part, then those of the rest. */
  lemma {:induction false} GatherConcat<T>(a: seq<Link>, b: seq<Link>, userId: int, look: Link -> Option<T>)
    ensures Gather(a + b, userId, look) == Gather(a, userId, look) + Gather(b, userId, look)
    decreases |b|
  {
    if b == [] {
      assert a + b == a;
    } else {
      var init := b[..|b| - 1];
      assert (a + b)[..|a + b| - 1] == a + init;
      assert (a + b)[|a + b| - 1] == b[|b| - 1];
      GatherConcat(a, init, userId, look);
    }
  }

  /** An entry is gathered exactly when `look` finds it for one of the user's links. */
  lemma GatherSpec<T>(table: seq<Link>, userId: int, look: Link -> Option<T>)
    ensures forall v :: v in Gather(table, userId, look) <==>
      exists i :: 0 <= i < |table| && table[i].userId == userId && look(table[i]) == Some(v)
  {
    forall v | v in Gather(table, userId, look)
      ensures exists i :: 0 <= i < |table| && table[i].userId == userId && look(table[i]) == Some(v)
    {
      var i := GatherSource(table, userId, look, v);
    }
    forall i | 0 <= i < |table| && table[i].userId == userId && look(table[i]).Some?
      ensures look(table[i]).value in Gather(table, userId, look)
    {
      GatherListed(table, userId, look, i);
    }
  }

  /** The listing of a user's links: a job is listed exactly when it is the validated job of one of them. */
  function LinkedJobs(table: seq<Link>, jobs: seq<Job>, userId: int, now: DateTime): (r: seq<JobBase>)
    requires StorableRows(jobs)
    ensures |r| <= |table|
    ensures forall v :: v in r <==>
      exists i :: 0 <= i < |table| && table[i].userId == userId && LinkedJob(jobs, table[i], now) == Some(v)
  {
    var look := (link: Link) => LinkedJob(jobs, link, now);
    GatherSpec(table, userId, look);
    Gather(table, userId, look)
  }

  /** A user's listing over two tables is the listing of the first, then of the second. */
  lemma LinkedJobsConcat(a: seq<Link>, b: seq<Link>, jobs: seq<Job>, userId: int, now: DateTime)
    requires StorableRows(jobs)
    ensures LinkedJobs(a + b, jobs, userId, now) == LinkedJobs(a, jobs, userId, now) + LinkedJobs(b, jobs, userId, now)
  {
    GatherConcat(a, b, userId, (link: Link) => LinkedJob(jobs, link, now));
  }

  /** The `for` loop shared by `get_liked_jobs`, `get_seen_jobs` and `get_applied_jobs`. */
  method CollectLinkedJobs(table: seq<Link>, jobs: seq<Job>, userId: int, now: DateTime)
    returns (r: seq<JobBase>)
    requires StorableRows(jobs)
    ensures r == LinkedJobs(table, jobs, userId, now)
  {
    ghost var look := (link: Link) => LinkedJob(jobs, link, now);
    r := [];
    var i := 0;
    while i < |table|
      invariant 0 <= i <= |table|
      invariant r == Gather(table[..i], userId, look)
    {
      assert table[..i + 1][..i] == table[..i];
      var link := table[i];
      if link.userId == userId {
        var job := FindJob(jobs, link.jobId);
        if job.Some? {
          var checked := ValidateJob(job.value, now);
          if checked.Some? {
            r := r + [checked.value];
          }
        }
      }
      i := i + 1;
    }
    assert table[..i] == table;
  }

  /** `get_liked_jobs`. */
  method GetLikedJobs(db: Database, userId: int, now: DateTime) returns (r: seq<JobBase>)
    requires StorableRows(db.jobs)
    ensures r == LinkedJobs(db.likes, db.jobs, userId, now)
  {
    r := CollectLinkedJobs(db.likes, db.jobs, userId, now);
  }

  /** `get_seen_jobs`. */
  method GetSeenJobs(db: Database, userId: int, now: DateTime) returns (r: seq<JobBase>)
    requires StorableRows(db.jobs)
    ensures r == LinkedJobs(db.seen, db.jobs, userId, now)
  {
    r := CollectLinkedJobs(db.seen, db.jobs, userId, now);
  }

  /** `get_applied_jobs`: it reads the seen table, so it lists what `get_seen_jobs` lists. */
  method GetAppliedJobs(db: Database, userId: int, now: DateTime) returns (r: seq<JobBase>)
    requires StorableRows(db.jobs)
    ensures r == LinkedJobs(db.seen, db.jobs, userId, now)
  {
    r := CollectLinkedJobs(db.seen, db.jobs, userId, now);
  }
}
