/**
 * The pydantic schemas of `auth/schemas.py`: the `JobBase` record every source
 * adapter produces, its `dateCreation` validators, and the `UserResponse` defaults.
 */
module Schemas {
  import opened Wrappers
  import opened Text
  import opened Calendar
  import opened Json

  /**
   * `JobBase`. `id` and `external_id` default to None and `liked` to False;
   * `dateCreation` is a `datetime` once validated.
   */
  datatype JobBase = JobBase(
    id: Option<int>,
    externalId: Option<string>,
    title: string,
    company: string,
    url: string,
    source: string,
    location: string,
    salary: string,
    description: string,
    typeContrat: string,
    dateCreation: DateTime,
    liked: Option<bool>)

  /**
   * `JobBase.parse_date`, run before field validation: a string is read as ISO 8601
   * (after `Z` becomes `+00:00`), else as `dd/mm/yyyy`, else replaced by the
   * current time; any date or datetime becomes midnight of its day; anything
   * else is passed on unchanged.
   */
  function ParseDate(v: Value, now: DateTime): (r: Value)
    ensures r.VDateTime? <==> v.VStr? || v.VDate? || v.VDateTime?
    ensures !r.VDateTime? ==> r == v
  {
    match v
    case VStr(s) =>
      (match ParseIso(ReplaceZ(s))
       case Some(dt) => VDateTime(dt)
       case None =>
         match ParseDmy(s)
         case Some(d) => VDateTime(Midnight(d))
         case None => VDateTime(now))
    case VDate(d) => VDateTime(Midnight(d))
    case VDateTime(dt) => VDateTime(Midnight(dt.date))
    case _ => v
  }

  /** ISO text, as `isoformat` writes it, is read back exactly. */
  lemma ParseDateIso(dt: DateTime, now: DateTime)
    requires ValidDateTime(dt)
    ensures ParseDate(VStr(FormatIso(dt)), now) == VDateTime(dt)
  {
    IsoHasNoZ(dt);
    ParseFormatIso(dt);
  }

  /** A trailing `Z` (as the public board writes its dates) reads as UTC. */
  lemma ParseDateZulu(dt: DateTime, now: DateTime)
    requires ValidDateTime(dt) && dt.offset.None?
    ensures ParseDate(VStr(FormatIso(dt) + "Z"), now) == VDateTime(dt.(offset := Some(0)))
  {
    var utc := dt.(offset := Some(0));
    var s := FormatIso(dt);
    IsoHasNoZ(dt);
    assert ReplaceZ(s) == s;
    assert ReplaceZ("Z") == "+00:00";
    ReplaceZConcat(s, "Z");
    assert ReplaceZ(s + "Z") == s + "+00:00";
    UtcSuffix(dt);
    ParseFormatIso(utc);
  }

  /** Marking a naive value as UTC appends `+00:00` to its ISO text. */
  lemma UtcSuffix(dt: DateTime)
    requires ValidDateTime(dt) && dt.offset.None?
    ensures FormatIso(dt.(offset := Some(0))) == FormatIso(dt) + "+00:00"
  {
    assert Pad(0, 2) == "00";
    assert FormatOffset(Some(0)) == "+00:00";
  }

  /** `dd/mm/yyyy` text fails the ISO reading and falls to the second format. */
  lemma ParseDateDmy(d: Date, now: DateTime)
    requires ValidDate(d)
    ensures ParseDate(VStr(FormatDmy(d)), now) == VDateTime(Midnight(d))
  {
    DmyHasNoZ(d);
    DmyIsNotIso(d);
    ParseFormatDmy(d);
  }

  /** Text that neither format reads is replaced by the clock. */
  lemma ParseDateFallback(s: string, now: DateTime)
    requires ParseIso(ReplaceZ(s)).None? && ParseDmy(s).None?
    ensures ParseDate(VStr(s), now) == VDateTime(now)
  {
  }

  /** A date or datetime keeps its calendar day and loses its time and zone. */
  lemma ParseDateKeepsDay(v: Value, now: DateTime)
    requires v.VDate? || v.VDateTime?
    ensures var r := ParseDate(v, now);
            r.VDateTime? && r.dt.hour == 0 && r.dt.minute == 0 && r.dt.second == 0
            && r.dt.micro == 0 && r.dt.offset.None?
            && r.dt.date == (if v.VDate? then v.d else v.dt.date)
  {
  }

  /** The calendar day a date-like value stands for. */
  function DayOf(v: Value): Date
    requires v.VDate? || v.VDateTime?
  {
    if v.VDate? then v.d else v.dt.date
  }

  /** `JobResponse.format_date` (after validation): a date renders as `dd/mm/yyyy`. */
  function FormatDate(v: Value): (r: Value)
    requires (v.VDate? || v.VDateTime?) ==> ValidDate(DayOf(v))
    ensures (v.VDate? || v.VDateTime?) ==> r.VStr? && ParseDmy(r.s) == Some(DayOf(v))
    ensures !(v.VDate? || v.VDateTime?) ==> r == v
  {
    if v.VDate? || v.VDateTime? then
      ParseFormatDmy(DayOf(v));
      VStr(FormatDmy(DayOf(v)))
    else v
  }

  /** A `str` field accepts only JSON strings (pydantic does not coerce numbers). */
  function AsText(j: Json): (r: Option<string>)
    ensures r.Some? <==> j.JStr?
    ensures j.JStr? ==> r.value == j.s
  {
    if j.JStr? then Some(j.s) else None
  }

  /**
   * `JobBase(...)` as the adapters call it: each text argument must be a JSON
   * string, and `dateCreation` a date (None fails the `datetime` field).
   * A validation failure is None.
   */
  function MakeJobBase(
    externalId: string, title: Json, company: Json, url: Json, source: string,
    location: Json, salary: Json, description: Json, typeContrat: Json,
    dateCreation: Option<Date>): (r: Option<JobBase>)
    ensures r.Some? <==>
      title.JStr? && company.JStr? && url.JStr? && location.JStr? && salary.JStr?
      && description.JStr? && typeContrat.JStr? && dateCreation.Some?
    ensures r.Some? ==>
      r.value.id.None? && r.value.externalId == Some(externalId) && r.value.liked == Some(false)
      && r.value.title == title.s && r.value.company == company.s && r.value.url == url.s
      && r.value.source == source && r.value.location == location.s
      && r.value.salary == salary.s && r.value.description == description.s
      && r.value.typeContrat == typeContrat.s
      && r.value.dateCreation == Midnight(dateCreation.value)
  {
    if title.JStr? && company.JStr? && url.JStr? && location.JStr? && salary.JStr?
       && description.JStr? && typeContrat.JStr? && dateCreation.Some?
    then Some(JobBase(None, Some(externalId), title.s, company.s, url.s, source,
                      location.s, salary.s, description.s, typeContrat.s,
                      Midnight(dateCreation.value), Some(false)))
    else None
  }

  /** The date stored by `MakeJobBase` is what `parse_date` makes of the date argument. */
  lemma MakeJobBaseDate(d: Date, now: DateTime)
    ensures ParseDate(VDate(d), now) == VDateTime(Midnight(d))
  {
  }

  /**
   * `UserResponse`. The three job lists default to empty; here they hold the
   * ids of the jobs concerned.
   */
  datatype UserResponse = UserResponse(
    id: int,
    username: string,
    email: string,
    disabled: bool,
    resetToken: Option<string>,
    resetExpires: Option<int>,
    likedJobs: seq<string>,
    seenJobs: seq<string>,
    appliedJobs: seq<string>)

  /** A `UserResponse` built from the required fields only: every default applies. */
  function NewUserResponse(id: int, username: string, email: string): (r: UserResponse)
    ensures r.id == id && r.username == username && r.email == email
    ensures !r.disabled && r.resetToken.None? && r.resetExpires.None?
    ensures r.likedJobs == [] && r.seenJobs == [] && r.appliedJobs == []
  {
    UserResponse(id, username, email, false, None, None, [], [], [])
  }
}
