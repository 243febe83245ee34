/**
 * The SQL tables behind the SQLAlchemy session: `jobs`, `users`, `liked_jobs`
 * and the seen-jobs table, each a sequence of rows in insertion order. A
 * committed change reassigns a table; a failed one leaves it as it was.
 */
module Storage {
  import opened Wrappers
  import opened Models

  /** `jobs.id` is the primary key: present and unique. */
  predicate JobKeys(jobs: seq<Job>) {
    (forall i :: 0 <= i < |jobs| ==> jobs[i].id.Some?)
    && (forall i, j :: 0 <= i < j < |jobs| ==> jobs[i].id != jobs[j].id)
  }

  /** `users.id` is the primary key; `username` and `email` are unique columns. */
  predicate UserKeys(users: seq<User>) {
    forall i, j :: 0 <= i < j < |users| ==>
      users[i].id != users[j].id && users[i].username != users[j].username
      && users[i].email != users[j].email
  }

  /** A reset token and its expiry are set and cleared together. */
  predicate ResetPaired(users: seq<User>) {
    forall i :: 0 <= i < |users| ==> (users[i].resetToken.Some? <==> users[i].resetExpires.Some?)
  }

  /** No (user, job) pair is recorded twice. */
  predicate NoDuplicateLinks(links: seq<Link>) {
    forall i, j :: 0 <= i < j < |links| ==> links[i] != links[j]
  }

  /** The row `.filter(Job.id == id).first()` finds. */
  function FindJob(jobs: seq<Job>, id: string): (r: Option<Job>)
    ensures r.Some? <==> exists k :: 0 <= k < |jobs| && jobs[k].id == Some(id)
    ensures r.Some? ==> r.value in jobs && r.value.id == Some(id)
  {
    if jobs == [] then None
    else if jobs[0].id == Some(id) then Some(jobs[0])
    else
      var r := FindJob(jobs[1..], id);
      assert forall k :: 1 <= k < |jobs| ==> jobs[k] == jobs[1..][k - 1];
      r
  }

  /** The row `.filter(User.username == name).first()` finds. */
  function FindUserByName(users: seq<User>, name: string): (r: Option<nat>)
    ensures r.Some? ==> r.value < |users| && users[r.value].username == name
    ensures r.Some? ==> forall k :: 0 <= k < r.value ==> users[k].username != name
    ensures r.None? ==> forall k :: 0 <= k < |users| ==> users[k].username != name
  {
    if users == [] then None
    else if users[0].username == name then Some(0)
    else
      match FindUserByName(users[1..], name)
      case Some(k) => Some(k + 1)
      case None => None
  }

  /** The row `.filter(User.email == email).first()` finds. */
  function FindUserByEmail(users: seq<User>, email: string): (r: Option<nat>)
    ensures r.Some? ==> r.value < |users| && users[r.value].email == email
    ensures r.Some? ==> forall k :: 0 <= k < r.value ==> users[k].email != email
    ensures r.None? ==> forall k :: 0 <= k < |users| ==> users[k].email != email
  {
    if users == [] then None
    else if users[0].email == email then Some(0)
    else
      match FindUserByEmail(users[1..], email)
      case Some(k) => Some(k + 1)
      case None => None
  }

  /** The row `.filter(User.id == id).first()` finds. */
  function FindUserById(users: seq<User>, id: int): (r: Option<nat>)
    ensures r.Some? ==> r.value < |users| && users[r.value].id == id
    ensures r.None? ==> forall k :: 0 <= k < |users| ==> users[k].id != id
  {
    if users == [] then None
    else if users[0].id == id then Some(0)
    else
      match FindUserById(users[1..], id)
      case Some(k) => Some(k + 1)
      case None => None
  }

  /** The id SQLite gives the next inserted user: one more than the largest in use. */
  function NextUserId(users: seq<User>): (id: int)
    ensures forall k :: 0 <= k < |users| ==> users[k].id < id
  {
    if users == [] then 1
    else
      var rest := NextUserId(users[1..]);
      assert forall k :: 1 <= k < |users| ==> users[k] == users[1..][k - 1];
      if users[0].id + 1 > rest then users[0].id + 1 else rest
  }

  /** The four tables of the application database. */
  class Database {
    var jobs: seq<Job>
    var users: seq<User>
    var likes: seq<Link>
    var seen: seq<Link>

    constructor ()
      ensures jobs == [] && users == [] && likes == [] && seen == []
      ensures Valid()
    {
      jobs := [];
      users := [];
      likes := [];
      seen := [];
    }

    /** The schema's keys and unique columns, and the invariants the handlers keep. */
    predicate Valid()
      reads this
    {
      JobKeys(jobs) && UserKeys(users) && ResetPaired(users)
      && NoDuplicateLinks(likes) && NoDuplicateLinks(seen)
    }
  }
}
