/**
 * The authenticated board adapter of `services/external_apis/francetravail.py`:
 * the process-wide client-credentials token cache (section 4.4 of RFC 6749), the
 * bearer-authenticated search request (section 2.1 of RFC 6750), and the
 * all-or-nothing normalization of the `resultats` records.
 */
module FranceTravail {
  import opened Wrappers
  import opened Text
  import opened Calendar
  import opened Json
  import opened Schemas
  import opened Io

  /** A cached token is reused only while it is more than this many seconds from expiry. */
  const SafetyMargin: real := 60.0

  /** `expires_in` when the token endpoint omits it (section 5.1 of RFC 6749). */
  const DefaultLifetime: int := 3600

  /** The two entries of `_francetravail_token_cache`. */
  datatype CacheState = CacheState(accessToken: Json, expiresAt: real)

  /** What a token lookup hands back to its caller. */
  datatype TokenOutcome = Granted(token: Json) | NoToken | Crashed(error: PyError)

  /** How the token endpoint's reply is read. */
  datatype Reply =
    | Issued(token: Json, lifetime: int)  // a truthy `access_token` and a numeric lifetime
    | Refused                             // request error, or no truthy `access_token`
    | BadLifetime(token: Json)            // `now + expires_in` raises `TypeError`
    | Malformed                           // a body that is not an object: `.get` raises

  /** `expires_in` as a number of seconds (a JSON `true` counts as 1, as in Python). */
  function Seconds(j: Json): Option<int> {
    match j
    case JInt(i) => Some(i)
    case JBool(b) => Some(if b then 1 else 0)
    case _ => None
  }

  function ReadReply(response: Response): (r: Reply)
    ensures r.Issued? || r.BadLifetime? ==> Truthy(r.token)
  {
    match response
    case Body(data) =>
      if !data.JObj? then Malformed
      else
        var token := Get(data.fields, "access_token", JNull);
        var lifetime := Get(data.fields, "expires_in", JInt(DefaultLifetime));
        if !Truthy(token) then Refused
        else
          (match Seconds(lifetime)
           case Some(n) => Issued(token, n)
           case None => BadLifetime(token))
    case _ => Refused
  }

  /** A reply with a token and no lifetime grants the token for an hour. */
  lemma DefaultLifetimeApplies(token: string)
    requires token != ""
    ensures ReadReply(Body(JObj(map["access_token" := JStr(token)])))
            == Issued(JStr(token), DefaultLifetime)
  {
  }

  /** The cache may answer at `now` without a request. */
  predicate Reusable(c: CacheState, now: real) {
    Truthy(c.accessToken) && c.expiresAt > now + SafetyMargin
  }

  /**
   * `get_francetravail_access_token` as a function of the cache before the call:
   * the outcome, the cache after the call, and whether a token request was sent.
   */
  function Lookup(c: CacheState, now: real, settings: Settings, response: Response)
    : (r: (TokenOutcome, CacheState, bool))
    ensures r.0.Granted? ==> Truthy(r.0.token) && r.1.accessToken == r.0.token
  {
    if Reusable(c, now) then (Granted(c.accessToken), c, false)
    else if !IsSet(settings.clientId) || !IsSet(settings.clientSecret) then (NoToken, c, false)
    else
      match ReadReply(response)
      case Issued(token, lifetime) =>
        (Granted(token), CacheState(token, now + lifetime as real), true)
      case BadLifetime(token) =>
        (Crashed(TypeError), c.(accessToken := token), true)
      case Refused => (NoToken, c, true)
      case Malformed => (Crashed(AttributeError), c, true)
  }

  /** A token more than the margin away from expiry is returned as is, with no request. */
  lemma LookupReuses(c: CacheState, now: real, settings: Settings, response: Response)
    requires Reusable(c, now)
    ensures Lookup(c, now, settings, response) == (Granted(c.accessToken), c, false)
  {
  }

  /** Without credentials a miss returns no token, sends nothing and changes nothing. */
  lemma LookupWithoutCredentials(c: CacheState, now: real, settings: Settings, response: Response)
    requires !Reusable(c, now)
    requires !IsSet(settings.clientId) || !IsSet(settings.clientSecret)
    ensures Lookup(c, now, settings, response) == (NoToken, c, false)
  {
  }

  /**
   * A refresh replaces the cache wholesale with the new token, expiring
   * `expires_in` seconds after the time read before the request.
   */
  lemma LookupRefreshes(c: CacheState, now: real, settings: Settings, response: Response)
    requires !Reusable(c, now) && IsSet(settings.clientId) && IsSet(settings.clientSecret)
    requires ReadReply(response).Issued?
    ensures var reply := ReadReply(response);
      Lookup(c, now, settings, response)
        == (Granted(reply.token), CacheState(reply.token, now + reply.lifetime as real), true)
  {
  }

  /**
   * A refused refresh leaves the cache as it was and yields no token: an expired
   * token is never handed out in place of a fresh one.
   */
  lemma LookupFailureKeepsCache(c: CacheState, now: real, settings: Settings, response: Response)
    requires !Reusable(c, now)
    requires ReadReply(response).Refused?
    ensures Lookup(c, now, settings, response).0 == NoToken
    ensures Lookup(c, now, settings, response).1 == c
  {
  }

  /** Right after a refresh with a lifetime over the margin, the next call reuses the token. */
  lemma RefreshThenReuse(c: CacheState, now: real, later: real, settings: Settings,
                         first: Response, second: Response)
    requires !Reusable(c, now) && IsSet(settings.clientId) && IsSet(settings.clientSecret)
    requires ReadReply(first).Issued?
    requires now <= later < now + ReadReply(first).lifetime as real - SafetyMargin
    ensures var c' := Lookup(c, now, settings, first).1;
      Lookup(c', later, settings, second) == (Granted(ReadReply(first).token), c', false)
  {
  }

  /**
   * `_francetravail_token_cache`, one per process. It starts empty and is only
   * changed by `GetAccessToken`.
   */
  class TokenCache {
    var accessToken: Json
    var expiresAt: real

    constructor ()
      ensures accessToken == JNull && expiresAt == 0.0
    {
      accessToken := JNull;
      expiresAt := 0.0;
    }

    function State(): CacheState
      reads this
    {
      CacheState(accessToken, expiresAt)
    }

    /** `get_francetravail_access_token`, with the clock and the endpoint's reply as inputs. */
    method GetAccessToken(now: real, settings: Settings, response: Response)
      returns (r: TokenOutcome, requested: bool)
      modifies this
      ensures (r, State(), requested) == Lookup(old(State()), now, settings, response)
    {
      if Truthy(accessToken) && expiresAt > now + SafetyMargin {
        return Granted(accessToken), false;
      }
      if !IsSet(settings.clientId) || !IsSet(settings.clientSecret) {
        return NoToken, false;
      }
      requested := true;
      match ReadReply(response) {
        case Issued(token, lifetime) =>
          accessToken := token;
          expiresAt := now + lifetime as real;
          r := Granted(token);
        case BadLifetime(token) =>
          accessToken := token;
          r := Crashed(TypeError);
        case Refused =>
          r := NoToken;
        case Malformed =>
          r := Crashed(AttributeError);
      }
    }
  }

  /** The search request that carries the token. */
  datatype SearchRequest = SearchRequest(
    authorization: string,
    accept: string,
    accesTravailleurHandicape: string,
    motsCles: string)

  /** The `Authorization` header value of section 2.1 of RFC 6750. */
  function BearerHeader(token: Json): (h: string)
    ensures StartsWith(h, "Bearer ") && h[7..] == PyStr(token)
  {
    "Bearer " + PyStr(token)
  }

  /** The keyword filter of a defined `ENV`: none in production, a narrow one anywhere else. */
  function Keywords(env: string): (k: string)
    ensures k == "" <==> env == "prod"
    ensures k != "" ==> k == "d\U{e9}veloppeur"
  {
    if env == "prod" then "" else "d\U{e9}veloppeur"
  }

  /** The search sent with a token: bearer authorization, JSON, no disability filter, the keywords. */
  function MakeSearchRequest(token: Json, env: string): (q: SearchRequest)
    ensures StartsWith(q.authorization, "Bearer ") && q.authorization[7..] == PyStr(token)
    ensures q.motsCles == "" <==> env == "prod"
    ensures q.accept == "application/json" && q.accesTravailleurHandicape == "false"
  {
    SearchRequest(BearerHeader(token), "application/json", "false", Keywords(env))
  }

  /** The fixed `source` tag of every posting from this board. */
  const SourceName: string := "France Travail"

  /** `offre.get(outer, {}).get(inner, "")`; None when the outer value is not an object. */
  function Nested(f: map<string, Json>, outer: string, inner: string): (r: Option<Json>)
    ensures r.Some? <==> Get(f, outer, EmptyObject).JObj?
  {
    var o := Get(f, outer, EmptyObject);
    if o.JObj? then Some(Get(o.fields, inner, JStr(""))) else None
  }

  /**
   * The `dateCreation` of a record: a falsy value gives no date (Some(None)); a
   * truthy value must be a string in `%Y-%m-%dT%H:%M:%S.%fZ` form, else the
   * record fails (None).
   */
  function CreationDate(f: map<string, Json>): (r: Option<Option<Date>>)
    ensures r.Some? && r.value.Some? ==> ValidDate(r.value.value)
  {
    var dc := Get(f, "dateCreation", JNull);
    if !Truthy(dc) then Some(None)
    else if !dc.JStr? then None
    else
      match ParseStamp(dc.s)
      case Some(dt) => Some(Some(dt.date))
      case None => None
  }

  /**
   * One `resultats` record, with `textDefault` standing for the default given to
   * a missing `description` and `typeContrat`. None when anything raises.
   */
  function NormalizeOfferWith(offre: Json, textDefault: Json): (r: Option<JobBase>)
    ensures r.Some? ==> offre.JObj? && r.value.source == SourceName
    ensures r.Some? ==> r.value.externalId == Some(PyStr(Get(offre.fields, "id", JStr(""))))
    ensures r.Some? ==> Get(offre.fields, "description", textDefault) == JStr(r.value.description)
                        && Get(offre.fields, "typeContrat", textDefault) == JStr(r.value.typeContrat)
    ensures r.Some? ==>
      var f := offre.fields;
      Get(f, "intitule", JStr("")) == JStr(r.value.title)
      && Nested(f, "entreprise", "nom") == Some(JStr(r.value.company))
      && Nested(f, "lieuTravail", "libelle") == Some(JStr(r.value.location))
      && Nested(f, "salaire", "libelle") == Some(JStr(r.value.salary))
      && Nested(f, "contact", "urlPostulation").Some?
      && Or(Nested(f, "contact", "urlPostulation").value, JStr("")) == JStr(r.value.url)
      && CreationDate(f).Some? && CreationDate(f).value.Some?
      && r.value.dateCreation == Midnight(CreationDate(f).value.value)
      && r.value.id.None? && r.value.liked == Some(false)
  {
    if !offre.JObj? then None
    else
      var f := offre.fields;
      var date := CreationDate(f);
      var company := Nested(f, "entreprise", "nom");
      var contact := Nested(f, "contact", "urlPostulation");
      var location := Nested(f, "lieuTravail", "libelle");
      var salary := Nested(f, "salaire", "libelle");
      if date.None? || company.None? || contact.None? || location.None? || salary.None? then None
      else
        MakeJobBase(PyStr(Get(f, "id", JStr(""))),
                    Get(f, "intitule", JStr("")),
                    company.value,
                    Or(contact.value, JStr("")),
                    SourceName,
                    location.value,
                    salary.value,
                    Get(f, "description", textDefault),
                    Get(f, "typeContrat", textDefault),
                    date.value)
  }

  /**
   * The record normalization as written: missing `description`/`typeContrat`
   * default to `{}`, which is not a string, so such a record always fails.
   */
  function NormalizeOfferAsWritten(offre: Json): (r: Option<JobBase>)
    ensures offre.JObj? && ("description" !in offre.fields || "typeContrat" !in offre.fields) ==> r.None?
  {
    NormalizeOfferWith(offre, EmptyObject)
  }

  /**
   * The record normalization with the intended "" default for those two
   * fields; on a record that has both, it agrees with the code as written.
   */
  function NormalizeOffer(offre: Json): (r: Option<JobBase>)
    ensures r.Some? ==> offre.JObj? && r.value.source == SourceName
    ensures offre.JObj? && "description" in offre.fields && "typeContrat" in offre.fields ==>
              r == NormalizeOfferAsWritten(offre)
  {
    NormalizeOfferWith(offre, JStr(""))
  }

  /**
   * As written, a record lacking `description` makes the whole fetch fail,
   * because the `{}` default is not a string; with "" it normalizes.
   */
  lemma MissingDescription(date: DateTime)
    requires ValidDateTime(date) && date.offset.None?
    ensures var offre := JObj(map["dateCreation" := JStr(FormatStamp(date)),
                                  "typeContrat" := JStr("CDI")]);
      NormalizeOfferAsWritten(offre).None?
      && NormalizeOffer(offre).Some? && NormalizeOffer(offre).value.description == ""
  {
    var f := map["dateCreation" := JStr(FormatStamp(date)), "typeContrat" := JStr("CDI")];
    DatedRecord(f, date);
    assert "description" !in f;
    assert NormalizeOfferWith(JObj(f), EmptyObject).None?;
    assert Get(f, "typeContrat", JStr("")) == JStr("CDI");
  }

  /**
   * A record whose only other keys are `typeContrat`, `description` and
   * `contact` has a creation date and empty nested values.
   */
  lemma DatedRecord(f: map<string, Json>, date: DateTime)
    requires ValidDateTime(date) && date.offset.None?
    requires "dateCreation" in f && f["dateCreation"] == JStr(FormatStamp(date))
    requires forall k :: k in f ==> k == "dateCreation" || k == "typeContrat" || k == "description" || k == "contact"
    ensures CreationDate(f) == Some(Some(date.date))
    ensures Nested(f, "entreprise", "nom") == Some(JStr(""))
    ensures Nested(f, "lieuTravail", "libelle") == Some(JStr(""))
    ensures Nested(f, "salaire", "libelle") == Some(JStr(""))
    ensures Get(f, "id", JStr("")) == JStr("") && Get(f, "intitule", JStr("")) == JStr("")
  {
    ParseFormatStamp(date);
    assert "entreprise" !in f && "lieuTravail" !in f && "salaire" !in f;
    assert "id" !in f && "intitule" !in f;
  }

  /** `offre.get(outer, {}).get(inner, "")` falls back to its "" default. */
  predicate NoInner(f: map<string, Json>, outer: string, inner: string) {
    outer !in f || (f[outer].JObj? && inner !in f[outer].fields)
  }

  /** The application URL is missing or falsy, so `or ""` applies. */
  predicate NoApplyUrl(f: map<string, Json>) {
    "contact" !in f
    || (f["contact"].JObj? && ("urlPostulation" !in f["contact"].fields
                               || !Truthy(f["contact"].fields["urlPostulation"])))
  }

  /**
   * In any record that normalizes, every missing field gives "": the title,
   * the id, the nested company, location and salary, the application URL
   * (also when falsy), and, with the corrected default, the description and
   * contract type, which as written make the record fail instead.
   */
  lemma NormalizeOfferDefaults(f: map<string, Json>)
    requires NormalizeOffer(JObj(f)).Some?
    ensures var r := NormalizeOffer(JObj(f)).value;
      ("intitule" !in f ==> r.title == "") && ("id" !in f ==> r.externalId == Some(""))
      && (NoInner(f, "entreprise", "nom") ==> r.company == "")
      && (NoInner(f, "lieuTravail", "libelle") ==> r.location == "")
      && (NoInner(f, "salaire", "libelle") ==> r.salary == "")
      && (NoApplyUrl(f) ==> r.url == "")
      && ("description" !in f ==> r.description == "" && NormalizeOfferAsWritten(JObj(f)).None?)
      && ("typeContrat" !in f ==> r.typeContrat == "" && NormalizeOfferAsWritten(JObj(f)).None?)
  {
  }

  /** A record without a creation date fails validation: it does not default to the clock. */
  lemma MissingDateFails(f: map<string, Json>)
    requires "dateCreation" !in f
    ensures NormalizeOffer(JObj(f)).None?
  {
  }

  /** All records, or None as soon as one fails. */
  function NormalizeOffers(records: seq<Json>): (r: Option<seq<JobBase>>)
    ensures r.Some? ==> |r.value| == |records|
  {
    AllPresent(Offers(records))
  }

  /** Each record normalized on its own. */
  function Offers(records: seq<Json>): (r: seq<Option<JobBase>>)
    ensures |r| == |records|
    ensures forall i :: 0 <= i < |r| ==> r[i] == NormalizeOffer(records[i])
  {
    Each(records, NormalizeOffer)
  }

  /** The result is complete exactly when every record normalizes, and keeps their order. */
  lemma NormalizeOffersSpec(records: seq<Json>)
    ensures NormalizeOffers(records).Some? <==>
            forall i :: 0 <= i < |records| ==> NormalizeOffer(records[i]).Some?
    ensures NormalizeOffers(records).Some? ==>
            forall i :: 0 <= i < |records| ==>
              NormalizeOffers(records).value[i] == NormalizeOffer(records[i]).value
  {
    AllPresentSpec(Offers(records));
  }

  /** The `for offre in ...: jobs.append(...)` loop; None when a record raises. */
  method CollectOffers(records: seq<Json>) returns (jobs: Option<seq<JobBase>>)
    ensures jobs == NormalizeOffers(records)
  {
    jobs := CollectEach(records, NormalizeOffer);
  }

  /** The jobs a search reply yields: any failure while reading it gives []. */
  function SearchResults(response: Response): (r: seq<JobBase>)
    ensures !response.Body? ==> r == []
    ensures forall j :: j in r ==> j.source == SourceName
  {
    match response
    case Body(data) =>
      if !data.JObj? then []
      else
        (match Get(data.fields, "resultats", JArr([]))
         case JArr(items) => NormalizeOffersSpec(items); NormalizeOffers(items).GetOr([])
         case _ => [])
    case _ => []
  }

  /**
   * The result of `fetch_jobs` given the outcome of the token lookup and the
   * `ENV` attribute: an undefined `ENV` raises `AttributeError` while the
   * search parameters are built, and the broad handler turns it into [].
   */
  function FetchOutcome(token: TokenOutcome, env: Option<string>, response: Response)
    : (r: Result<seq<JobBase>, PyError>)
    ensures r.Err? <==> token.Crashed?
    ensures r.Err? ==> r.error == token.error
    ensures r.Ok? && r.value != [] ==> token.Granted? && env.Some? && r.value == SearchResults(response)
    ensures token.Granted? && env.Some? ==> r == Ok(SearchResults(response))
  {
    match token
    case Crashed(e) => Err(e)
    case NoToken => Ok([])
    case Granted(_) => if env.None? then Ok([]) else Ok(SearchResults(response))
  }

  /**
   * Without a token, or with the configuration as shipped (`ENV` undefined),
   * the adapter returns [] whatever the search would have answered.
   */
  lemma NoSearchNoJobs(token: TokenOutcome, env: Option<string>, response: Response)
    requires token.NoToken? || (token.Granted? && env.None?)
    ensures FetchOutcome(token, env, response) == Ok([])
  {
  }

  /** Each search result corresponds to one record, in order, tagged "France Travail". */
  lemma SearchResultsSpec(items: seq<Json>, data: map<string, Json>)
    requires Get(data, "resultats", JArr([])) == JArr(items)
    ensures var js := SearchResults(Body(JObj(data)));
      js == [] || (|js| == |items| && forall i :: 0 <= i < |js| ==>
                    NormalizeOffer(items[i]) == Some(js[i]) && js[i].source == SourceName)
  {
    NormalizeOffersSpec(items);
  }

  /**
   * `FranceTravailService.fetch_jobs`: look the token up, then search with it.
   * `request` is the search sent, None when no token was obtained or `ENV`
   * is undefined.
   */
  method FetchJobs(cache: TokenCache, now: real, settings: Settings,
                   tokenResponse: Response, searchResponse: Response)
    returns (r: Result<seq<JobBase>, PyError>, request: Option<SearchRequest>)
    modifies cache
    ensures var (token, state, _) := Lookup(old(cache.State()), now, settings, tokenResponse);
      cache.State() == state
      && r == FetchOutcome(token, settings.env, searchResponse)
      && request == (if token.Granted? && settings.env.Some?
                     then Some(MakeSearchRequest(token.token, settings.env.value)) else None)
  {
    var token, _ := cache.GetAccessToken(now, settings, tokenResponse);
    if token.Crashed? {
      return Err(token.error), None;
    }
    if token.NoToken? {
      return Ok([]), None;
    }
    if settings.env.None? {
      return Ok([]), None;
    }
    request := Some(MakeSearchRequest(token.token, settings.env.value));
    r := Ok([]);
    if searchResponse.Body? && searchResponse.json.JObj? {
      var results := Get(searchResponse.json.fields, "resultats", JArr([]));
      if results.JArr? {
        var jobs := CollectOffers(results.items);
        if jobs.Some? {
          r := Ok(jobs.value);
        }
      }
    }
  }
}
