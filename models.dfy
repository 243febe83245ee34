/**
 * The ORM entities of `models/models.py`: a stored `Job`, its constructor and its
 * `to_dict` rendering, the `User` row, and the user-job link rows.
 */
module Models {
  import opened Wrappers
  import opened Text
  import opened Calendar

  /**
   * A row of the `jobs` table. Text columns are nullable (None is SQL NULL);
   * `dateCreation` holds whatever Python value was assigned to it.
   */
  datatype Job = Job(
    id: Option<string>,
    title: Option<string>,
    company: Option<string>,
    url: Option<string>,
    source: Option<string>,
    location: Option<string>,
    salary: Option<string>,
    description: Option<string>,
    typeContrat: Option<string>,
    dateCreation: Value,
    liked: Option<bool>)

  /** `Job.__init__`: every argument is stored as given; `liked` defaults to False. */
  function NewJob(
    id: Option<string>, title: Option<string>, company: Option<string>, url: Option<string>,
    source: Option<string>, location: Option<string>, salary: Option<string>,
    description: Option<string>, typeContrat: Option<string>, dateCreation: Value,
    liked: Option<bool> := Some(false)): (j: Job)
    ensures j.id == id && j.title == title && j.company == company && j.url == url
    ensures j.source == source && j.location == location && j.salary == salary
    ensures j.description == description && j.typeContrat == typeContrat
    ensures j.dateCreation == dateCreation && j.liked == liked
  {
    Job(id, title, company, url, source, location, salary, description, typeContrat,
        dateCreation, liked)
  }

  /** A job built without a `liked` argument is not liked. */
  lemma NewJobNotLiked(id: Option<string>, title: Option<string>, url: Option<string>, d: Value)
    ensures NewJob(id, title, None, url, None, None, None, None, None, d).liked == Some(false)
  {
  }

  /** A value of the `to_dict` result: a string, or the `liked` column as it is. */
  datatype Field = Text(s: string) | Flag(b: Option<bool>)

  /** `str(v) if v else ""` for a text column. */
  function TextOrEmpty(v: Option<string>): (s: string)
    ensures s == v.GetOr("")
  {
    if v.Some? && v.value != "" then v.value else ""
  }

  /** The dates `to_dict` can render: any date it is handed lies in the calendar. */
  predicate RenderableDate(v: Value) {
    (v.VDate? ==> ValidDate(v.d)) && (v.VDateTime? ==> ValidDate(v.dt.date))
  }

  /**
   * The `dateCreation` entry of `to_dict`: a string is first read as `%Y-%m-%d`
   * (unreadable text gives no date); a date renders as `dd/mm/yyyy`; no date
   * renders as "". A non-zero integer has no `strftime` and raises (None here).
   */
  function RenderDate(v: Value): (r: Option<string>)
    requires RenderableDate(v)
    ensures r.None? <==> v.VInt? && v.i != 0
  {
    match v
    case VStr(s) =>
      (match ParseYmd(s)
       case Some(d) => Some(FormatDmy(d))
       case None => Some(""))
    case VDate(d) => Some(FormatDmy(d))
    case VDateTime(dt) => Some(FormatDmy(dt.date))
    case VNone => Some("")
    case VInt(i) => if i == 0 then Some("") else None
  }

  const DictKeys: set<string> :=
    {"id", "title", "company", "url", "source", "location", "salary", "description",
     "typeContrat", "dateCreation", "liked"}

  lemma ElevenKeys()
    ensures |DictKeys| == 11
  {
    var names := ["id", "title", "company", "url", "source", "location", "salary",
                  "description", "typeContrat", "dateCreation", "liked"];
    assert forall i, j :: 0 <= i < j < 11 ==> names[i] != names[j];
    assert DictKeys == set i | 0 <= i < 11 :: names[i] by {
      assert names[0] == "id" && names[1] == "title" && names[2] == "company";
      assert names[3] == "url" && names[4] == "source" && names[5] == "location";
      assert names[6] == "salary" && names[7] == "description" && names[8] == "typeContrat";
      assert names[9] == "dateCreation" && names[10] == "liked";
    }
    DistinctCard(names);
  }

  /** `Job.to_dict`; None when rendering the date raises. */
  function ToDict(job: Job): (r: Option<map<string, Field>>)
    requires RenderableDate(job.dateCreation)
    ensures r.Some? <==> RenderDate(job.dateCreation).Some?
    ensures r.Some? ==> r.value.Keys == DictKeys
    ensures r.Some? ==> r.value["liked"] == Flag(job.liked)
    ensures r.Some? ==> r.value["dateCreation"] == Text(RenderDate(job.dateCreation).value)
  {
    match RenderDate(job.dateCreation)
    case None => None
    case Some(date) =>
      Some(map[
        "id" := Text(TextOrEmpty(job.id)),
        "title" := Text(TextOrEmpty(job.title)),
        "company" := Text(TextOrEmpty(job.company)),
        "url" := Text(TextOrEmpty(job.url)),
        "source" := Text(TextOrEmpty(job.source)),
        "location" := Text(TextOrEmpty(job.location)),
        "salary" := Text(TextOrEmpty(job.salary)),
        "description" := Text(TextOrEmpty(job.description)),
        "typeContrat" := Text(TextOrEmpty(job.typeContrat)),
        "dateCreation" := Text(date),
        "liked" := Flag(job.liked)])
  }

  /** Every text column of `to_dict` is the column's text, or "" for NULL. */
  lemma ToDictText(job: Job)
    requires RenderableDate(job.dateCreation) && RenderDate(job.dateCreation).Some?
    ensures var r := ToDict(job).value;
      r["id"] == Text(job.id.GetOr("")) && r["title"] == Text(job.title.GetOr(""))
      && r["company"] == Text(job.company.GetOr("")) && r["url"] == Text(job.url.GetOr(""))
      && r["source"] == Text(job.source.GetOr("")) && r["location"] == Text(job.location.GetOr(""))
      && r["salary"] == Text(job.salary.GetOr(""))
      && r["description"] == Text(job.description.GetOr(""))
      && r["typeContrat"] == Text(job.typeContrat.GetOr(""))
  {
  }

  /** A `yyyy-mm-dd` string is re-rendered as the same day in `dd/mm/yyyy`. */
  lemma RenderStoredText(d: Date)
    requires ValidDate(d)
    ensures RenderDate(VStr(FormatYmd(d))) == Some(FormatDmy(d))
  {
    ParseFormatYmd(d);
  }

  /** Whatever date `to_dict` renders reads back as that day. */
  lemma RenderDateRoundTrip(v: Value)
    requires RenderableDate(v) && (v.VDate? || v.VDateTime?)
    ensures ParseDmy(RenderDate(v).value) == Some(if v.VDate? then v.d else v.dt.date)
  {
    ParseFormatDmy(if v.VDate? then v.d else v.dt.date);
  }

  /** A row of the `users` table. `resetExpires` is an instant in seconds. */
  datatype User = User(
    id: int,
    username: string,
    email: string,
    hashedPassword: string,
    disabled: bool,
    resetToken: Option<string>,
    resetExpires: Option<int>)

  /** A row of `liked_jobs` (and of the seen-jobs table, which has the same shape). */
  datatype Link = Link(userId: int, jobId: string)
}
