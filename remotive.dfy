/**
 * `RemotiveService.fetch_jobs`: the public board adapter. It keeps the first
 * `JOB_LIMIT` records of the feed and normalizes them all, or returns nothing.
 */
module Remotive {
  import opened Wrappers
  import opened Calendar
  import opened Json
  import opened Schemas
  import opened Io

  /** What normalizing one record does: a job, a caught `ValueError`, or an escaping exception. */
  datatype Step = Made(job: JobBase) | Caught | Raised(error: PyError)

  /** The fixed `source` tag of every posting from this board. */
  const SourceName: string := "Remotive"

  /**
   * One element of `data["jobs"]`, arguments evaluated left to right:
   * `str(job['id'])` (a missing key raises `KeyError`, a non-object `TypeError`),
   * the text fields with "" defaults, then `strptime` of `publication_date`
   * (a non-string raises `TypeError`, a bad format `ValueError`), then `JobBase`
   * validation (a `ValueError` too).
   */
  function NormalizeJob(job: Json): (r: Step)
    ensures r.Raised? <==> !job.JObj? || "id" !in job.fields || !Field(job.fields, "publication_date").JStr?
    ensures r.Made? <==>
      job.JObj? && "id" in job.fields && Field(job.fields, "publication_date").JStr?
      && ParseStamp(Field(job.fields, "publication_date").s).Some? && TextsPresent(job.fields)
    ensures r.Made? ==> r.job.source == SourceName && r.job.externalId == Some(PyStr(job.fields["id"]))
    ensures r.Made? ==>
      var f := job.fields;
      Field(f, "title") == JStr(r.job.title) && Field(f, "company_name") == JStr(r.job.company)
      && Field(f, "url") == JStr(r.job.url) && Field(f, "candidate_required_location") == JStr(r.job.location)
      && Field(f, "salary") == JStr(r.job.salary) && Field(f, "description") == JStr(r.job.description)
      && Field(f, "job_type") == JStr(r.job.typeContrat)
      && r.job.dateCreation == Midnight(ParseStamp(Field(f, "publication_date").s).value.date)
      && r.job.id.None? && r.job.liked == Some(false)
  {
    if !job.JObj? then Raised(TypeError)
    else if "id" !in job.fields then Raised(KeyError("id"))
    else
      var f := job.fields;
      var published := Field(f, "publication_date");
      if !published.JStr? then Raised(TypeError)
      else
        match ParseStamp(published.s)
        case None => Caught
        case Some(dt) =>
          match MakeJobBase(PyStr(f["id"]),
                            Field(f, "title"),
                            Field(f, "company_name"),
                            Field(f, "url"),
                            SourceName,
                            Field(f, "candidate_required_location"),
                            Field(f, "salary"),
                            Field(f, "description"),
                            Field(f, "job_type"),
                            Some(dt.date))
          case None => Caught
          case Some(jb) => Made(jb)
  }

  /** `job.get(key, "")`. */
  function Field(f: map<string, Json>, key: string): Json {
    Get(f, key, JStr(""))
  }

  /** Every text field the record has is a string, as `JobBase` demands. */
  predicate TextsPresent(f: map<string, Json>) {
    Field(f, "title").JStr? && Field(f, "company_name").JStr? && Field(f, "url").JStr?
    && Field(f, "candidate_required_location").JStr? && Field(f, "salary").JStr?
    && Field(f, "description").JStr? && Field(f, "job_type").JStr?
  }

  /** The list comprehension: the first record that fails decides the outcome. */
  function NormalizeAll(records: seq<Json>): (r: Batch)
    ensures r.Jobs? ==> |r.jobs| == |records| && forall j :: j in r.jobs ==> j.source == SourceName
    decreases |records|
  {
    if records == [] then Jobs([])
    else
      match NormalizeJob(records[0])
      case Caught => Swallowed
      case Raised(e) => Escaped(e)
      case Made(j) =>
        match NormalizeAll(records[1..])
        case Jobs(rest) => Jobs([j] + rest)
        case other => other
  }

  /** The outcome of the whole comprehension. */
  datatype Batch = Jobs(jobs: seq<JobBase>) | Swallowed | Escaped(error: PyError)

  /** A complete result has one job per record, each the record's own normalization. */
  lemma {:induction false} NormalizeAllJobs(records: seq<Json>)
    requires NormalizeAll(records).Jobs?
    ensures var js := NormalizeAll(records).jobs;
      |js| == |records| && forall i :: 0 <= i < |records| ==> NormalizeJob(records[i]) == Made(js[i])
  {
    if records != [] {
      NormalizeAllJobs(records[1..]);
      var js := NormalizeAll(records).jobs;
      var rest := NormalizeAll(records[1..]).jobs;
      assert js == [NormalizeJob(records[0]).job] + rest;
      forall i | 0 <= i < |records|
        ensures NormalizeJob(records[i]) == Made(js[i])
      {
        if i > 0 { assert records[i] == records[1..][i - 1]; }
      }
    }
  }

  /** If every record normalizes, the comprehension completes. */
  lemma {:induction false} NormalizeAllComplete(records: seq<Json>)
    requires forall i :: 0 <= i < |records| ==> NormalizeJob(records[i]).Made?
    ensures NormalizeAll(records).Jobs?
  {
    if records != [] {
      NormalizeAllComplete(records[1..]);
    }
  }

  /** The first record that fails decides whether the error is caught or escapes. */
  lemma {:induction false} NormalizeAllFirstFailure(records: seq<Json>, k: nat)
    requires k < |records|
    requires forall i :: 0 <= i < k ==> NormalizeJob(records[i]).Made?
    requires !NormalizeJob(records[k]).Made?
    ensures NormalizeJob(records[k]).Caught? ==> NormalizeAll(records) == Swallowed
    ensures NormalizeJob(records[k]).Raised? ==> NormalizeAll(records) == Escaped(NormalizeJob(records[k]).error)
  {
    if k > 0 {
      NormalizeAllFirstFailure(records[1..], k - 1);
    }
  }

  /** Python's `s[:k]`: a negative bound counts from the end. */
  function SliceTo<T>(s: seq<T>, k: int): (r: seq<T>)
    ensures k >= 0 ==> |r| == if k < |s| then k else |s|
    ensures k < 0 ==> |r| == if |s| + k > 0 then |s| + k else 0
    ensures |r| <= |s| && r == s[..|r|]
  {
    if k >= 0 then (if k < |s| then s[..k] else s)
    else if |s| + k > 0 then s[..|s| + k] else []
  }

  /**
   * `fetch_jobs(response)`. A failed request or an undecodable body is caught and
   * gives []; so does any `ValueError` while normalizing. A body that is not an
   * object or an undefined `JOB_LIMIT` raises `AttributeError`; a `jobs` value
   * that cannot be sliced, a non-empty string slice (its characters cannot be
   * indexed by key), a record without an `id` or with a non-string date raise
   * exceptions that are not caught here.
   */
  function FetchJobs(response: Response, jobLimit: Option<int>): (r: Result<seq<JobBase>, PyError>)
    ensures !response.Body? ==> r == Ok([])
    ensures response.Body? && (!response.json.JObj? || jobLimit.None?) ==> r == Err(AttributeError)
    ensures response.Body? && response.json.JObj? && jobLimit.Some?
            && Get(response.json.fields, "jobs", JArr([])).JStr? ==>
              (r.Ok? <==> SliceTo(Get(response.json.fields, "jobs", JArr([])).s, jobLimit.value) == [])
              && (r.Ok? ==> r.value == []) && (r.Err? ==> r.error == TypeError)
    ensures response.Body? && response.json.JObj? && jobLimit.Some?
            && !Get(response.json.fields, "jobs", JArr([])).JArr?
            && !Get(response.json.fields, "jobs", JArr([])).JStr?
            ==> r == Err(TypeError)
    ensures r.Ok? && r.value != [] ==>
      response.Body? && response.json.JObj? && jobLimit.Some?
      && Get(response.json.fields, "jobs", JArr([])).JArr?
      && forall j :: j in r.value ==> j.source == SourceName
  {
    match response
    case Body(data) =>
      if !data.JObj? then Err(AttributeError)
      else if jobLimit.None? then Err(AttributeError)
      else
        (match Get(data.fields, "jobs", JArr([]))
         case JArr(items) =>
           (match NormalizeAll(SliceTo(items, jobLimit.value))
            case Jobs(js) => Ok(js)
            case Swallowed => Ok([])
            case Escaped(e) => Err(e))
         case JStr(text) => if SliceTo(text, jobLimit.value) == [] then Ok([]) else Err(TypeError)
         case _ => Err(TypeError))
    case _ => Ok([])
  }

  /**
   * On success the result is all or nothing: either empty, or one job per record
   * of the first `JOB_LIMIT`, in feed order, each tagged "Remotive".
   */
  lemma FetchJobsAllOrNothing(data: map<string, Json>, items: seq<Json>, jobLimit: int)
    requires Get(data, "jobs", JArr([])) == JArr(items)
    requires FetchJobs(Body(JObj(data)), Some(jobLimit)).Ok?
    ensures var js := FetchJobs(Body(JObj(data)), Some(jobLimit)).value;
      var kept := SliceTo(items, jobLimit);
      js == [] || (|js| == |kept| && forall i :: 0 <= i < |js| ==>
                    NormalizeJob(kept[i]) == Made(js[i]) && js[i].source == SourceName)
  {
    var kept := SliceTo(items, jobLimit);
    if NormalizeAll(kept).Jobs? {
      NormalizeAllJobs(kept);
    }
  }

  /**
   * A bad record among the kept ones decides the whole fetch: the first one
   * that does not normalize gives [] when it failed with a `ValueError`, and
   * otherwise its `KeyError` or `TypeError` escapes `fetch_jobs`.
   */
  lemma FetchJobsFirstFailure(data: map<string, Json>, items: seq<Json>, jobLimit: int, k: nat)
    requires Get(data, "jobs", JArr([])) == JArr(items)
    requires k < |SliceTo(items, jobLimit)|
    requires forall i :: 0 <= i < k ==> NormalizeJob(SliceTo(items, jobLimit)[i]).Made?
    requires !NormalizeJob(SliceTo(items, jobLimit)[k]).Made?
    ensures var step := NormalizeJob(SliceTo(items, jobLimit)[k]);
      (step.Caught? ==> FetchJobs(Body(JObj(data)), Some(jobLimit)) == Ok([]))
      && (step.Raised? ==> FetchJobs(Body(JObj(data)), Some(jobLimit)) == Err(step.error))
  {
    NormalizeAllFirstFailure(SliceTo(items, jobLimit), k);
  }

  /** When every kept record is well formed, exactly `min(JOB_LIMIT, len(jobs))` come out. */
  lemma FetchJobsLength(data: map<string, Json>, items: seq<Json>, jobLimit: nat)
    requires Get(data, "jobs", JArr([])) == JArr(items)
    requires forall i :: 0 <= i < |items| ==> NormalizeJob(items[i]).Made?
    ensures FetchJobs(Body(JObj(data)), Some(jobLimit)).Ok?
    ensures |FetchJobs(Body(JObj(data)), Some(jobLimit)).value| == if jobLimit < |items| then jobLimit else |items|
  {
    var kept := SliceTo(items, jobLimit);
    NormalizeAllComplete(kept);
    NormalizeAllJobs(kept);
  }

  /**
   * With the configuration as shipped (`JOB_LIMIT` undefined) every decoded
   * body raises `AttributeError`, whatever the board sent; only a failed
   * request returns normally, with no job.
   */
  lemma UndefinedLimitNeverFetches(response: Response)
    ensures FetchJobs(response, None) == if response.Body? then Err(AttributeError) else Ok([])
  {
  }

  /** The text fields `JobBase` takes from a record. */
  const TextKeys: set<string> :=
    {"title", "company_name", "url", "candidate_required_location", "salary", "description", "job_type"}

  /** The string a record holds under `key`, or "" when it has none. */
  function Given(f: map<string, Json>, key: string): string {
    if key in f && f[key].JStr? then f[key].s else ""
  }

  /**
   * Any record with an `id`, a well-formed publication date and string text
   * fields normalizes: each text field is the record's own string, or "" when
   * the key is missing; the id is rendered with `str`, the date kept at midnight.
   */
  lemma NormalizeJobDefaults(f: map<string, Json>, published: DateTime)
    requires ValidDateTime(published) && published.offset.None?
    requires "id" in f && Field(f, "publication_date") == JStr(FormatStamp(published))
    requires forall key :: key in TextKeys && key in f ==> f[key].JStr?
    ensures var r := NormalizeJob(JObj(f));
      r.Made? && r.job.externalId == Some(PyStr(f["id"]))
      && r.job.title == Given(f, "title") && r.job.company == Given(f, "company_name")
      && r.job.url == Given(f, "url") && r.job.location == Given(f, "candidate_required_location")
      && r.job.salary == Given(f, "salary") && r.job.description == Given(f, "description")
      && r.job.typeContrat == Given(f, "job_type") && r.job.dateCreation == Midnight(published.date)
  {
    ParseFormatStamp(published);
    forall key | key in TextKeys
      ensures Field(f, key) == JStr(Given(f, key))
    {
    }
  }

  /** A record without `id` raises `KeyError` even when its date is also bad. */
  lemma MissingIdEscapes(rest: map<string, Json>)
    requires "id" !in rest
    ensures NormalizeJob(JObj(rest)) == Raised(KeyError("id"))
  {
  }
}
