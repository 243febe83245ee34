/*
 * The front end's job store: the list of postings the pages display, the
 * paging cursor, and the actions that like, unlike and mark postings,
 * keeping the local list in step with the back end's answers.
 *
 * Every request the store sends is a parameter: the caller passes in what
 * `fetch` answered, so each action is a deterministic update of the store.
 */
module JobStore {
  import opened Wrappers
  import opened Text

  /** A posting as the front end holds it. */
  datatype StoreJob = StoreJob(
    id: int,
    title: string,
    company: string,
    url: string,
    location: string,
    liked: bool,
    seen: Option<bool>,
    applicationSent: Option<bool>)

  /** What a `fetch` gave the store: it threw (network or body error), it
    * answered with a status that is not ok, or it answered ok with a body. */
  datatype Fetched<+T> = Unreachable | NotOk(status: int) | Received(body: T)

  /** `this.currentUser?.id` is truthy: there is a user and its id is not 0. */
  predicate HasUser(user: Option<int>) {
    user.Some? && user.value != 0
  }

  /** `findIndex` on the id: the first position holding `id`. */
  function FindIndex(jobs: seq<StoreJob>, id: int): (r: Option<nat>)
    ensures r.None? <==> forall k :: 0 <= k < |jobs| ==> jobs[k].id != id
    ensures r.Some? ==> r.value < |jobs| && jobs[r.value].id == id
    ensures r.Some? ==> forall k :: 0 <= k < r.value ==> jobs[k].id != id
  {
    if jobs == [] then None
    else if jobs[0].id == id then Some(0)
    else match FindIndex(jobs[1..], id)
      case None => None
      case Some(i) => Some(i + 1)
  }

  /** `filter` on a predicate, keeping the order of the list. */
  function Filter(jobs: seq<StoreJob>, p: StoreJob -> bool): (r: seq<StoreJob>)
    ensures |r| <= |jobs|
    ensures forall j :: j in r <==> j in jobs && p(j)
  {
    if jobs == [] then []
    else (if p(jobs[0]) then [jobs[0]] else []) + Filter(jobs[1..], p)
  }

  lemma {:induction false} FilterConcat(a: seq<StoreJob>, b: seq<StoreJob>, p: StoreJob -> bool)
    ensures Filter(a + b, p) == Filter(a, p) + Filter(b, p)
  {
    if a == [] {
      assert a + b == b;
    } else {
      assert (a + b)[1..] == a[1..] + b;
      FilterConcat(a[1..], b, p);
    }
  }

  predicate IsSeen(j: StoreJob) { j.seen == Some(true) }

  predicate IsApplied(j: StoreJob) { j.seen == Some(true) && j.applicationSent == Some(true) }

  /** The job matches the search box: the query, lower-cased, occurs in the
    * lower-cased title, company or location. */
  predicate Matches(j: StoreJob, lower: string) {
    Contains(Lower(j.title), lower) || Contains(Lower(j.company), lower)
      || Contains(Lower(j.location), lower)
  }

  /** Getter `isJobAlreadyLiked`. */
  predicate IsJobAlreadyLiked(jobs: seq<StoreJob>, id: int) {
    exists k :: 0 <= k < |jobs| && jobs[k].id == id && jobs[k].liked
  }

  /** Getter `getJobById`: the first job with that id. */
  function GetJobById(jobs: seq<StoreJob>, id: int): (r: Option<StoreJob>)
    ensures r.Some? <==> exists k :: 0 <= k < |jobs| && jobs[k].id == id
    ensures r.Some? ==> r.value in jobs && r.value.id == id
  {
    match FindIndex(jobs, id)
    case None => None
    case Some(i) => Some(jobs[i])
  }

  function LikedJobs(jobs: seq<StoreJob>): seq<StoreJob> {
    Filter(jobs, (j: StoreJob) => j.liked)
  }

  function SeenJobs(jobs: seq<StoreJob>): seq<StoreJob> {
    Filter(jobs, IsSeen)
  }

  function AppliedJobs(jobs: seq<StoreJob>): seq<StoreJob> {
    Filter(jobs, IsApplied)
  }

  function FilteredJobs(jobs: seq<StoreJob>, query: string): seq<StoreJob> {
    Filter(jobs, (j: StoreJob) => Matches(j, Lower(query)))
  }

  /** Every applied-for job is also listed among the seen ones. */
  lemma AppliedAreSeen(jobs: seq<StoreJob>)
    ensures forall j :: j in AppliedJobs(jobs) ==> j in SeenJobs(jobs)
    ensures |AppliedJobs(jobs)| <= |SeenJobs(jobs)|
  {
    AppliedAreSeenCount(jobs);
  }

  lemma {:induction false} AppliedAreSeenCount(jobs: seq<StoreJob>)
    ensures |AppliedJobs(jobs)| <= |SeenJobs(jobs)|
  {
    if jobs != [] {
      AppliedAreSeenCount(jobs[1..]);
    }
  }

  /** An empty search box filters nothing out. */
  lemma EmptyQueryKeepsAll(jobs: seq<StoreJob>)
    ensures FilteredJobs(jobs, "") == jobs
  {
    EmptyQueryKeepsAllFrom(jobs);
  }

  lemma {:induction false} EmptyQueryKeepsAllFrom(jobs: seq<StoreJob>)
    ensures Filter(jobs, (j: StoreJob) => Matches(j, Lower(""))) == jobs
  {
    if jobs != [] {
      assert StartsWith(Lower(jobs[0].title)[0..], "");
      EmptyQueryKeepsAllFrom(jobs[1..]);
    }
  }

  /** The search ignores the letter case of the query. */
  lemma QueryIgnoresCase(jobs: seq<StoreJob>, query: string)
    ensures FilteredJobs(jobs, Lower(query)) == FilteredJobs(jobs, query)
  {
    LowerIdempotent(query);
  }

  lemma {:induction false} LowerIdempotent(s: string)
    ensures Lower(Lower(s)) == Lower(s)
  {
    if s != [] {
      LowerIdempotent(s[1..]);
    }
  }

  /** `likedJobsData.some(l => l.id === id)`. */
  predicate LikedIn(liked: seq<StoreJob>, id: int) {
    exists k :: 0 <= k < |liked| && liked[k].id == id
  }

  /** `fetchLikedJobsInternal`: the list the back end sent, or an empty list
    * when there is no user or the request failed. */
  function LikedList(user: Option<int>, reply: Fetched<seq<StoreJob>>): (r: seq<StoreJob>)
    ensures r != [] ==> HasUser(user) && reply == Received(r)
  {
    if HasUser(user) && reply.Received? then reply.body else []
  }

  /** Each job's liked flag set from the user's liked list; nothing else moves. */
  function SyncLiked(jobs: seq<StoreJob>, liked: seq<StoreJob>): (r: seq<StoreJob>)
    ensures |r| == |jobs|
    ensures forall k :: 0 <= k < |jobs| ==> r[k].(liked := jobs[k].liked) == jobs[k]
    ensures forall k :: 0 <= k < |jobs| ==> (r[k].liked <==> LikedIn(liked, jobs[k].id))
  {
    seq(|jobs|, k requires 0 <= k < |jobs| => jobs[k].(liked := LikedIn(liked, jobs[k].id)))
  }

  /** After synchronisation, a job reads as liked exactly when its id is in the liked list. */
  lemma SyncedLikes(jobs: seq<StoreJob>, liked: seq<StoreJob>, id: int)
    requires exists k :: 0 <= k < |jobs| && jobs[k].id == id
    ensures IsJobAlreadyLiked(SyncLiked(jobs, liked), id) <==> LikedIn(liked, id)
  {
    var r := SyncLiked(jobs, liked);
    var k :| 0 <= k < |jobs| && jobs[k].id == id;
    assert r[k].id == id;
  }

  /** Synchronising twice against the same list changes nothing more. */
  lemma SyncLikedIdempotent(jobs: seq<StoreJob>, liked: seq<StoreJob>)
    ensures SyncLiked(SyncLiked(jobs, liked), liked) == SyncLiked(jobs, liked)
  {
    var once := SyncLiked(jobs, liked);
    var twice := SyncLiked(once, liked);
    forall k | 0 <= k < |jobs|
      ensures twice[k] == once[k]
    {
      assert once[k].id == jobs[k].id;
    }
  }

  /** The change one action makes to one job. */
  datatype Patch = SetLiked(value: bool) | MarkSeen | MarkApplied | Replace(job: StoreJob)

  function Applied(j: StoreJob, p: Patch): StoreJob {
    match p
    case SetLiked(b) => j.(liked := b)
    case MarkSeen => j.(seen := Some(true))
    case MarkApplied => j.(applicationSent := Some(true))
    case Replace(updated) => updated
  }

  /** The patch applied to the first job carrying `id`; the list is unchanged when there is none. */
  function PatchFirst(jobs: seq<StoreJob>, id: int, p: Patch): (r: seq<StoreJob>)
    ensures |r| == |jobs|
    ensures FindIndex(jobs, id).None? ==> r == jobs
    ensures FindIndex(jobs, id).Some? ==>
      var i := FindIndex(jobs, id).value;
      r[i] == Applied(jobs[i], p) && forall k :: 0 <= k < |jobs| && k != i ==> r[k] == jobs[k]
  {
    match FindIndex(jobs, id)
    case None => jobs
    case Some(i) => jobs[i := Applied(jobs[i], p)]
  }

  /** A patch that keeps the job's id leaves every id where it was. */
  predicate KeepsId(p: Patch, id: int) {
    p.Replace? ==> p.job.id == id
  }

  lemma PatchKeepsIndex(jobs: seq<StoreJob>, id: int, p: Patch)
    requires KeepsId(p, id)
    ensures FindIndex(PatchFirst(jobs, id, p), id) == FindIndex(jobs, id)
  {
    var r := PatchFirst(jobs, id, p);
    assert forall k :: 0 <= k < |jobs| ==> r[k].id == jobs[k].id;
  }

  /** Liking and then unliking leaves the job unliked; liking twice is liking once. */
  lemma LikeThenUnlike(jobs: seq<StoreJob>, id: int)
    ensures PatchFirst(PatchFirst(jobs, id, SetLiked(true)), id, SetLiked(false)) == PatchFirst(jobs, id, SetLiked(false))
    ensures PatchFirst(PatchFirst(jobs, id, SetLiked(true)), id, SetLiked(true)) == PatchFirst(jobs, id, SetLiked(true))
  {
    PatchKeepsIndex(jobs, id, SetLiked(true));
  }

  /** A successful like makes the getter report the job liked; a successful
    * unlike makes it report the job not liked when the id occurs once. */
  lemma LikeIsVisible(jobs: seq<StoreJob>, id: int)
    requires exists k :: 0 <= k < |jobs| && jobs[k].id == id
    ensures IsJobAlreadyLiked(PatchFirst(jobs, id, SetLiked(true)), id)
    ensures (forall k, m :: 0 <= k < m < |jobs| ==> jobs[k].id != jobs[m].id) ==>
      !IsJobAlreadyLiked(PatchFirst(jobs, id, SetLiked(false)), id)
  {
    var i := FindIndex(jobs, id).value;
    assert PatchFirst(jobs, id, SetLiked(true))[i].liked;
  }

  /** Marking a job applied after marking it seen lists it among the applied jobs. */
  lemma SeenThenAppliedListed(jobs: seq<StoreJob>, id: int)
    requires exists k :: 0 <= k < |jobs| && jobs[k].id == id
    ensures var r := PatchFirst(PatchFirst(jobs, id, MarkSeen), id, MarkApplied);
      exists j :: j in AppliedJobs(r) && j.id == id
  {
    PatchKeepsIndex(jobs, id, MarkSeen);
    var r := PatchFirst(PatchFirst(jobs, id, MarkSeen), id, MarkApplied);
    var i := FindIndex(jobs, id).value;
    assert r[i] in r && IsApplied(r[i]);
  }

  /** `fetchJobById`: the posting with its liked flag taken from the user's
    * liked list, or nothing when the request failed. */
  function FetchJobById(reply: Fetched<StoreJob>, user: Option<int>, likedReply: Fetched<seq<StoreJob>>): (r: Option<StoreJob>)
    ensures r.Some? <==> reply.Received?
    ensures r.Some? ==> r.value.(liked := reply.body.liked) == reply.body
    ensures r.Some? ==> (r.value.liked <==> HasUser(user) && LikedIn(LikedList(user, likedReply), reply.body.id))
  {
    match reply
    case Received(data) =>
      if HasUser(user) then Some(data.(liked := LikedIn(LikedList(user, likedReply), data.id)))
      else Some(data.(liked := false))
    case _ => None
  }

  /** Jobs read from the list endpoint start unliked. */
  function Unliked(data: seq<StoreJob>): (r: seq<StoreJob>)
    ensures |r| == |data|
    ensures forall k :: 0 <= k < |data| ==> r[k] == data[k].(liked := false)
  {
    seq(|data|, k requires 0 <= k < |data| => data[k].(liked := false))
  }

  /** The job list after `fetchJobs` received `data` for `offset`: the first
    * page replaces the list, later pages are appended, then likes are synchronised. */
  function AfterPage(jobs: seq<StoreJob>, offset: int, data: seq<StoreJob>, user: Option<int>,
                     likedReply: Fetched<seq<StoreJob>>): (r: seq<StoreJob>)
    ensures |r| == (if offset == 0 then 0 else |jobs|) + |data|
    ensures offset != 0 ==> forall k :: 0 <= k < |jobs| ==>
      r[k].(liked := jobs[k].liked) == jobs[k]
      && (r[k].liked <==> if HasUser(user) then LikedIn(LikedList(user, likedReply), jobs[k].id) else jobs[k].liked)
    ensures forall k :: 0 <= k < |data| ==>
      var n := if offset == 0 then 0 else |jobs|;
      r[n + k].(liked := data[k].liked) == data[k]
      && (r[n + k].liked <==> HasUser(user) && LikedIn(LikedList(user, likedReply), data[k].id))
  {
    var listed := if offset == 0 then Unliked(data) else jobs + Unliked(data);
    var n := if offset == 0 then 0 else |jobs|;
    assert |listed| == n + |data|;
    assert forall k :: 0 <= k < |data| ==> listed[n + k] == Unliked(data)[k];
    assert offset != 0 ==> forall k :: 0 <= k < |jobs| ==> listed[k] == jobs[k];
    Synced(listed, user, likedReply)
  }

  /** `syncLikedJobs` when there is a user; without one the flags stay as they are. */
  function Synced(listed: seq<StoreJob>, user: Option<int>, likedReply: Fetched<seq<StoreJob>>): (r: seq<StoreJob>)
    ensures |r| == |listed|
    ensures forall k :: 0 <= k < |listed| ==> r[k].(liked := listed[k].liked) == listed[k]
    ensures forall k :: 0 <= k < |listed| ==>
      (r[k].liked <==> if HasUser(user) then LikedIn(LikedList(user, likedReply), listed[k].id) else listed[k].liked)
  {
    if HasUser(user) then SyncLiked(listed, LikedList(user, likedReply)) else listed
  }

  class Store {
    var jobs: seq<StoreJob>
    var isLoading: bool
    var hasMore: bool
    var offset: int
    var limit: int
    var rawLikedJobs: seq<StoreJob>

    constructor()
      ensures jobs == [] && !isLoading && hasMore && offset == 0 && limit == 20 && rawLikedJobs == []
    {
      jobs := [];
      isLoading := false;
      hasMore := true;
      offset := 0;
      limit := 20;
      rawLikedJobs := [];
    }

    /** `fetchLikedJobs`: with a user, every job's liked flag is set from the
      * liked list one job at a time; without a user nothing changes. */
    method FetchLikedJobs(user: Option<int>, likedReply: Fetched<seq<StoreJob>>)
      modifies this
      ensures jobs == (if HasUser(user) then SyncLiked(old(jobs), LikedList(user, likedReply)) else old(jobs))
      ensures isLoading == old(isLoading) && hasMore == old(hasMore) && offset == old(offset)
      ensures limit == old(limit) && rawLikedJobs == old(rawLikedJobs)
    {
      if !HasUser(user) {
        return;
      }
      var liked := LikedList(user, likedReply);
      ghost var target := SyncLiked(jobs, liked);
      var i := 0;
      while i < |jobs|
        invariant 0 <= i <= |jobs| == |target|
        invariant jobs[..i] == target[..i]
        invariant jobs[i..] == old(jobs)[i..]
        invariant isLoading == old(isLoading) && hasMore == old(hasMore) && offset == old(offset)
        invariant limit == old(limit) && rawLikedJobs == old(rawLikedJobs)
      {
        var found := exists k :: 0 <= k < |liked| && liked[k].id == jobs[i].id;
        jobs := jobs[i := jobs[i].(liked := found)];
        i := i + 1;
      }
      assert jobs == jobs[..i] && target == target[..i];
    }

    /** `fetchJobs`: a page replaces or extends the list and its likes are
      * synchronised; a short page means there is nothing more to load; a
      * failed request leaves the list alone. The loading flag ends down. */
    method FetchJobs(offset: int, limit: int, reply: Fetched<seq<StoreJob>>, user: Option<int>,
                     likedReply: Fetched<seq<StoreJob>>)
      modifies this
      ensures !isLoading
      ensures jobs == (if reply.Received? then AfterPage(old(jobs), offset, reply.body, user, likedReply) else old(jobs))
      ensures hasMore == (old(hasMore) && !(reply.Received? && |reply.body| < limit))
      ensures this.offset == old(this.offset) && this.limit == old(this.limit) && rawLikedJobs == old(rawLikedJobs)
    {
      isLoading := true;
      if reply.Received? {
        var data := reply.body;
        var withLiked := Unliked(data);
        jobs := if offset == 0 then withLiked else jobs + withLiked;
        FetchLikedJobs(user, likedReply);
        if |data| < limit {
          hasMore := false;
        }
      }
      isLoading := false;
    }

    /** `likeJob`: without a user no request is sent; an ok answer marks the
      * first job with that id liked; any other answer changes nothing. */
    method LikeJob(jobId: int, user: Option<int>, reply: Fetched<()>) returns (requested: bool)
      modifies this
      ensures requested == HasUser(user)
      ensures jobs == (if requested && reply.Received? then PatchFirst(old(jobs), jobId, SetLiked(true)) else old(jobs))
      ensures isLoading == old(isLoading) && hasMore == old(hasMore) && offset == old(offset)
      ensures limit == old(limit) && rawLikedJobs == old(rawLikedJobs)
    {
      if !HasUser(user) {
        return false;
      }
      if reply.Received? {
        var index := FindIndex(jobs, jobId);
        if index.Some? {
          jobs := jobs[index.value := jobs[index.value].(liked := true)];
        }
      }
      return true;
    }

    /** `unlikeJob`: the same, clearing the flag. */
    method UnlikeJob(jobId: int, user: Option<int>, reply: Fetched<()>) returns (requested: bool)
      modifies this
      ensures requested == HasUser(user)
      ensures jobs == (if requested && reply.Received? then PatchFirst(old(jobs), jobId, SetLiked(false)) else old(jobs))
      ensures isLoading == old(isLoading) && hasMore == old(hasMore) && offset == old(offset)
      ensures limit == old(limit) && rawLikedJobs == old(rawLikedJobs)
    {
      if !HasUser(user) {
        return false;
      }
      if reply.Received? {
        var index := FindIndex(jobs, jobId);
        if index.Some? {
          jobs := jobs[index.value := jobs[index.value].(liked := false)];
        }
      }
      return true;
    }

    /** `toggleLikeJob`: unlike what the caller says is liked, like the rest. */
    method ToggleLikeJob(jobId: int, isAlreadyLiked: bool, user: Option<int>, reply: Fetched<()>) returns (requested: bool)
      modifies this
      ensures requested == HasUser(user)
      ensures jobs == (if requested && reply.Received? then PatchFirst(old(jobs), jobId, SetLiked(!isAlreadyLiked)) else old(jobs))
      ensures isLoading == old(isLoading) && hasMore == old(hasMore) && offset == old(offset)
      ensures limit == old(limit) && rawLikedJobs == old(rawLikedJobs)
    {
      if isAlreadyLiked {
        requested := UnlikeJob(jobId, user, reply);
      } else {
        requested := LikeJob(jobId, user, reply);
      }
    }

    /** `updateJob`: the first job with the same id is replaced. */
    method UpdateJob(updated: StoreJob)
      modifies this
      ensures jobs == PatchFirst(old(jobs), updated.id, Replace(updated))
      ensures isLoading == old(isLoading) && hasMore == old(hasMore) && offset == old(offset)
      ensures limit == old(limit) && rawLikedJobs == old(rawLikedJobs)
    {
      var index := FindIndex(jobs, updated.id);
      if index.Some? {
        jobs := jobs[index.value := updated];
      }
    }

    /** `updateSeenJobs`: the first job with that id is marked seen. */
    method UpdateSeenJobs(jobId: int)
      modifies this
      ensures jobs == PatchFirst(old(jobs), jobId, MarkSeen)
      ensures isLoading == old(isLoading) && hasMore == old(hasMore) && offset == old(offset)
      ensures limit == old(limit) && rawLikedJobs == old(rawLikedJobs)
    {
      var index := FindIndex(jobs, jobId);
      if index.Some? {
        jobs := jobs[index.value := jobs[index.value].(seen := Some(true))];
      }
    }

    /** `updateAppliedJobs`: the first job with that id is marked applied for. */
    method UpdateAppliedJobs(jobId: int)
      modifies this
      ensures jobs == PatchFirst(old(jobs), jobId, MarkApplied)
      ensures isLoading == old(isLoading) && hasMore == old(hasMore) && offset == old(offset)
      ensures limit == old(limit) && rawLikedJobs == old(rawLikedJobs)
    {
      var index := FindIndex(jobs, jobId);
      if index.Some? {
        jobs := jobs[index.value := jobs[index.value].(applicationSent := Some(true))];
      }
    }
  }
}
