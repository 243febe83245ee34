# NextOffer job-board aggregator: a Dafny model

NextOffer gathers job postings from two boards: Remotive, a public JSON feed, and France Travail, an OAuth2-protected search API. It stores the postings in a SQL database and serves them to a Vue front end. Signed-in users can like, see and apply to postings there, and can reset their password by e-mail.

This project models the logic of that system:

- **Token cache.** The France Travail client-credentials token cache (section 4.4 of RFC 6749). Tokens are sent as Bearer tokens (section 2.1 of RFC 6750).
- **Board adapters.** Both adapters normalize raw records into `JobBase` postings, all or nothing.
- **Import.** The import keeps the postings whose URL is not stored yet, in one batch, and the paged read-back.
- **Date validators.** The pydantic date validators (`parse_date`, `format_date`, `ensure_date`) and `Job.to_dict`.
- **Link routes.** Like / unlike / see / apply over the link tables, and the listings built from those tables.
- **Account routes.** Register, login, forgot-password and reset-password with a single-use reset token, plus the `get_current_user` rejection chain.
- **Front-end stores.** The Pinia job store and authentication store.
- **Front-end helpers.** The colour-mode class update, device classification and the `colorText` helper.

Each module follows one source file:

| module | file | models |
|---|---|---|
| `Remotive` | `remotive.dfy` | `backend/services/external_apis/remotive.py` |
| `FranceTravail` | `france_travail.dfy` | `backend/services/external_apis/francetravail.py` |
| `Aggregator` | `aggregator.dfy` | `backend/services/job_aggregator.py` |
| `Schemas` | `schemas.dfy` | `backend/auth/schemas.py` |
| `Models` | `models.dfy` | `backend/models/models.py` |
| `JobsRouter` | `jobs_router.dfy` | `backend/routers/jobs.py` |
| `AuthRouter` | `auth_router.dfy` | `backend/routers/auth.py` |
| `Authentication` | `authentication.dfy` | `backend/auth/authentication.py` |
| `JobStore` | `job_store.dfy` | `frontend/src/stores/jobStore.ts` |
| `AuthStore` | `auth_store.dfy` | `frontend/src/stores/authStore.ts` |
| `ColorMode` | `color_mode.dfy` | `frontend/src/utils/useGlobalColorMode.ts` |
| `DeviceDetection` | `device_detection.dfy` | `frontend/src/utils/useDeviceDetection.ts` |
| `ColorText` | `color_text.dfy` | `backend/utils/colorText.py` |

Shared modules:

- `Wrappers`: `Option`, `Result`, and collecting a sequence of options.
- `Text`: digits, ASCII case, substrings.
- `Calendar`: dates and the fixed date layouts.
- `Json`: decoded JSON with Python truthiness, `dict.get` and `str`.
- `Io`: HTTP responses, Python exceptions, route replies and settings.
- `Storage`: the SQL tables as a `Database` class with one sequence per table.

How state and outside inputs are represented:

- **Mutable state is a class.** This covers the token cache, the database session, and the two Pinia stores. The root element's class list and the shared colour-mode cell are classes too.
- **Each state-changing method is tied to a pure function.** The method ensures that its outcome and new state equal that function of the old state. The properties are lemmas about those functions.
- **Loops stay loops.** Where the source loops, the model has a method with a `while` loop and its invariants, proved equal to a specification function:
  - the `jobs_to_add` loop;
  - the `resultats` loop;
  - the `get_*_jobs` loops;
  - the liked-flag `forEach`.
- **Outside inputs are parameters.** HTTP replies, the clock, password hashing and checking, JWT signing, and decoded JWT claims are all passed in.

Behaviour of the code worth knowing:

- **No in-batch deduplication.** The import checks only against the store. Two new postings sharing a URL are both queued.
- **Missing France Travail creation date.** It is not replaced by the current time. The `datetime` field rejects `None` and the whole fetch returns `[]`.
- **Applications go to the seen table.** `apply_job` and `get_applied_jobs` read and write the seen-jobs table, as `see_job` does. So applying to a job already seen is refused with 409.
- **`IntegrityError` comes from `sqlite3`.** SQLAlchemy's own error is not caught by that handler. Either way the batch is not committed and the table is unchanged.
- **`ENV` and `JOB_LIMIT` are not defined.** The configuration class of `backend/core/config.py` defines neither attribute. The settings model each as optional, with None for the shipped configuration:
  - Remotive: a decoded body raises `AttributeError` at `settings.JOB_LIMIT`, which its handlers do not catch.
  - France Travail: building the search parameters raises `AttributeError`; the broad handler returns `[]` and no search is sent.
  - So with the shipped configuration an import never stores anything.
- **A liked job that does not validate breaks the user lookup.** `get_user_by_id` validates each like as a `JobResponse`. A liked row whose key is not a decimal integer, or with a NULL column, raises, and the like route answers 500 after its commit.

## Model

| member | source | states |
|---|---|---|
| `FranceTravail.ReadReply` | backend/services/external_apis/francetravail.py:36-55 | a reply counts as issued only with a truthy `access_token` |
| `FranceTravail.DefaultLifetimeApplies` | backend/services/external_apis/francetravail.py:41 | with no `expires_in`, a token is granted for 3600 seconds |
| `FranceTravail.Lookup` | backend/services/external_apis/francetravail.py:15-55 | a granted token is truthy and is the one left in the cache |
| `FranceTravail.LookupReuses` | backend/services/external_apis/francetravail.py:18-19 | a token more than 60 s from expiry is returned with no request and no change |
| `FranceTravail.LookupWithoutCredentials` | backend/services/external_apis/francetravail.py:21-23 | on a miss without client id or secret: no token, no request, cache unchanged |
| `FranceTravail.LookupRefreshes` | backend/services/external_apis/francetravail.py:43-47 | a refresh stores the new token with expiry `now + expires_in` |
| `FranceTravail.LookupFailureKeepsCache` | backend/services/external_apis/francetravail.py:48-55 | a refused refresh yields no token and leaves the cache as it was |
| `FranceTravail.RefreshThenReuse` | backend/services/external_apis/francetravail.py:18-47 | right after a refresh, a call within the lifetime minus 60 s reuses the token without a request |
| `FranceTravail.TokenCache.GetAccessToken` | backend/services/external_apis/francetravail.py:15-55 | updates the two cache fields exactly as `Lookup` prescribes |
| `FranceTravail.BearerHeader` | backend/services/external_apis/francetravail.py:73 | the header is "Bearer " followed by the token |
| `FranceTravail.Keywords` | backend/services/external_apis/francetravail.py:68 | with `ENV` defined: no keyword iff it is "prod", "développeur" otherwise |
| `FranceTravail.MakeSearchRequest` | backend/services/external_apis/francetravail.py:66-75 | the search carries the token as a Bearer header, asks for JSON, sets no disability filter, and has no keyword iff `ENV` is "prod" |
| `FranceTravail.Nested` | backend/services/external_apis/francetravail.py:89-93 | the nested lookup fails exactly when the outer value is not an object |
| `FranceTravail.CreationDate` | backend/services/external_apis/francetravail.py:84-85 | any date read is a calendar date |
| `FranceTravail.NormalizeOfferWith` | backend/services/external_apis/francetravail.py:86-97 | a normalized record is an object tagged "France Travail" with `str(id)`; its title is `intitule`, its company, location and salary the nested `entreprise.nom`, `lieuTravail.libelle` and `salaire.libelle`, its URL `contact.urlPostulation or ""`, its description and contract type the record's (or the default), its date the parsed `dateCreation` at midnight |
| `FranceTravail.MissingDescription` | backend/services/external_apis/francetravail.py:94 | as written, a record without `description` fails; with a "" default it normalizes |
| `FranceTravail.NormalizeOfferAsWritten` | backend/services/external_apis/francetravail.py:86-97 | as written, a record lacking `description` or `typeContrat` fails |
| `FranceTravail.NormalizeOffer` | backend/services/external_apis/francetravail.py:86-97 | (corrected) a normalized record is tagged "France Travail"; on a record with both `description` and `typeContrat` it agrees with the code as written |
| `FranceTravail.NormalizeOfferDefaults` | backend/services/external_apis/francetravail.py:87-95 | in any record that normalizes, a missing title, id, nested company, location or salary gives ""; a missing or falsy application URL gives ""; a missing description or contract type gives "" with the corrected default and fails as written |
| `FranceTravail.MissingDateFails` | backend/services/external_apis/francetravail.py:84-96 | a record without `dateCreation` fails; there is no clock fallback |
| `FranceTravail.NormalizeOffers` | backend/services/external_apis/francetravail.py:83-98 | a complete result has one posting per record |
| `FranceTravail.Offers` | backend/services/external_apis/francetravail.py:83-98 | each record is normalized on its own, in order |
| `FranceTravail.NormalizeOffersSpec` | backend/services/external_apis/francetravail.py:83-107 | the result is complete iff every record normalizes, and then the postings are in record order |
| `FranceTravail.CollectOffers` | backend/services/external_apis/francetravail.py:81-98 | the append loop computes `NormalizeOffers` |
| `Wrappers.CollectEach` | backend/services/external_apis/francetravail.py:81-98 | the loop stops at the first record that fails and otherwise returns every result in order, i.e. `AllPresent` of the per-record results |
| `Wrappers.AllPresentMissing` | backend/services/external_apis/francetravail.py:83-98 | one record that fails makes the whole batch fail |
| `FranceTravail.SearchResults` | backend/services/external_apis/francetravail.py:77-107 | (corrected) a failed search gives `[]`; every result is tagged "France Travail" |
| `FranceTravail.FetchOutcome` | backend/services/external_apis/francetravail.py:59-108 | (corrected) an error iff the token lookup raised, and then that error; a posting only with a token and a defined `ENV`, and then the search results |
| `FranceTravail.NoSearchNoJobs` | backend/services/external_apis/francetravail.py:60-68 | without a token, or with `ENV` undefined, the adapter yields `[]` |
| `FranceTravail.SearchResultsSpec` | backend/services/external_apis/francetravail.py:80-108 | search results match the records one to one, in order, tagged "France Travail", or are `[]` |
| `FranceTravail.FetchJobs` | backend/services/external_apis/francetravail.py:59-108 | (corrected) the cache follows `Lookup`; the result is `FetchOutcome`; a search is sent only with a token and a defined `ENV` |
| `Remotive.NormalizeJob` | backend/services/external_apis/remotive.py:18-28 | an escaping exception iff the record is not an object, lacks `id` or has a non-string date; a job iff, besides, the date parses and every text field is a string; the job is tagged "Remotive" with `str(id)`, each field is the record's key (`title`, `company_name`, `url`, `candidate_required_location`, `salary`, `description`, `job_type`) or "", and the date is the publication day at midnight |
| `Remotive.NormalizeAll` | backend/services/external_apis/remotive.py:17-30 | a complete comprehension has one job per record, each tagged "Remotive" |
| `Remotive.NormalizeAllJobs` | backend/services/external_apis/remotive.py:17-30 | a complete comprehension has one job per record, each that record's normalization |
| `Remotive.NormalizeAllComplete` | backend/services/external_apis/remotive.py:17-30 | if every record normalizes, the comprehension completes |
| `Remotive.NormalizeAllFirstFailure` | backend/services/external_apis/remotive.py:17-37 | the first failing record decides: a `ValueError` is swallowed, a `KeyError`/`TypeError` escapes |
| `Remotive.SliceTo` | backend/services/external_apis/remotive.py:30 | `s[:k]` keeps the first `min(k, len)` elements, and counts from the end for negative `k` |
| `Remotive.FetchJobsAllOrNothing` | backend/services/external_apis/remotive.py:12-37 | a result is empty, or one job per kept record in feed order, tagged "Remotive" |
| `Remotive.FetchJobsLength` | backend/services/external_apis/remotive.py:17-30 | well-formed records give exactly `min(JOB_LIMIT, len(jobs))` postings |
| `Remotive.FetchJobs` | backend/services/external_apis/remotive.py:11-37 | a failed request gives `[]`; a non-object body or an undefined `JOB_LIMIT` raises `AttributeError`; a string `jobs` gives `[]` iff its slice is empty, else `TypeError`; any other non-list `jobs` raises `TypeError`; postings come only from a `jobs` list and are tagged "Remotive" |
| `Remotive.FetchJobsFirstFailure` | backend/services/external_apis/remotive.py:17-37 | the first kept record that does not normalize decides the fetch: `[]` for a caught `ValueError`, otherwise its `KeyError` or `TypeError` escapes |
| `Remotive.UndefinedLimitNeverFetches` | backend/services/external_apis/remotive.py:30 | with `JOB_LIMIT` undefined, a decoded body always raises `AttributeError` and a failed request gives `[]` |
| `Remotive.NormalizeJobDefaults` | backend/services/external_apis/remotive.py:19-28 | any record with an `id`, a well-formed date and string text fields normalizes; each field is the record's string, or "" when the key is missing |
| `Remotive.MissingIdEscapes` | backend/services/external_apis/remotive.py:19 | a record without `id` raises `KeyError`, which is not caught |
| `Aggregator.FreshPostings` | backend/services/job_aggregator.py:32-35 | no more postings are kept than were fetched |
| `Aggregator.FreshPostingsSpec` | backend/services/job_aggregator.py:32-35 | a posting is queued iff no stored row has its URL |
| `Aggregator.FreshPostingsConcat` | backend/services/job_aggregator.py:28-35 | filtering the merged list is filtering Remotive, then France Travail, in that order |
| `Aggregator.SameUrlBothQueued` | backend/services/job_aggregator.py:31-50 | two new postings sharing a URL are both queued |
| `Aggregator.ToRow` | backend/services/job_aggregator.py:37-49 | the queued row has the posting's key and URL, `liked = False` and the day of its date |
| `Aggregator.Queue` | backend/services/job_aggregator.py:31-50 | the queued rows are the fresh postings, in merged-list order, converted |
| `Aggregator.QueueAfterSave` | backend/services/job_aggregator.py:34-35 | once the queued rows are stored, the same postings queue nothing |
| `Aggregator.QueueStep` | backend/services/job_aggregator.py:32-50 | a posting's row is queued, ahead of the rest, iff no stored row has its URL |
| `Aggregator.QueueNewJobs` | backend/services/job_aggregator.py:31-50 | the loop computes `Queue` |
| `Aggregator.ConflictsSpec` | backend/services/job_aggregator.py:52-59 | over valid keys, a batch conflicts iff storing it would break the primary key |
| `Aggregator.Aggregate` | backend/services/job_aggregator.py:18-59 | (corrected) a fetch error is the outcome, Remotive's first; nothing queued iff no fresh posting; `IntegrityError` iff the batch conflicts; otherwise the count saved; a save appends exactly the queued rows, any other outcome leaves the table unchanged |
| `Aggregator.AggregateKeepsRows` | backend/services/job_aggregator.py:34-59 | stored rows are never changed or moved, keys stay unique, the saved count is the number of new rows |
| `Aggregator.ImportTwice` | backend/services/job_aggregator.py:34-52 | a second import of the same postings after a save queues nothing |
| `Aggregator.AggregateAsWritten` | backend/services/job_aggregator.py:37-49 | as written, the table is never changed |
| `Aggregator.AsWrittenNeverSaves` | backend/services/job_aggregator.py:37-49 | as written, any queued posting ends in `TypeError`; the corrected import never does |
| `Aggregator.OnePostingSaved` | backend/services/job_aggregator.py:37-55 | one new posting is saved by the corrected import and lost as written |
| `Aggregator.AggregateJobs` | backend/services/job_aggregator.py:18-59 | (corrected) the token cache and the jobs table change as `Lookup` and `Aggregate` prescribe; other tables are untouched; the database invariant is kept |
| `Aggregator.ShippedImportSavesNothing` | backend/services/job_aggregator.py:18-59 | with neither `JOB_LIMIT` nor `ENV` defined, an import never changes the table, and a decoded Remotive body ends in `AttributeError` |
| `Aggregator.JobsPage` | backend/services/job_aggregator.py:62-67 | the page has length `min(limit, max(0, N - offset))` and holds rows `offset...` in order |
| `Aggregator.PagesTile` | backend/services/job_aggregator.py:62-67 | consecutive pages neither skip nor repeat a row |
| `Schemas.ParseDate` | backend/auth/schemas.py:22-39 | text, dates and datetimes become datetimes; anything else passes unchanged |
| `Schemas.ParseDateIso` | backend/auth/schemas.py:28 | `isoformat` text is read back exactly |
| `Schemas.ParseDateZulu` | backend/auth/schemas.py:28 | a trailing `Z` reads as UTC |
| `Schemas.UtcSuffix` | backend/auth/schemas.py:28 | a UTC value's ISO text ends in `+00:00` |
| `Schemas.ParseDateDmy` | backend/auth/schemas.py:30-32 | `dd/mm/yyyy` text falls through to the second format and gives midnight of that day |
| `Schemas.ParseDateFallback` | backend/auth/schemas.py:33-35 | text neither format reads becomes the current time |
| `Schemas.ParseDateKeepsDay` | backend/auth/schemas.py:37-38 | a date or datetime becomes naive midnight of the same day |
| `Schemas.FormatDate` | backend/auth/schemas.py:43-46 | a date renders as `dd/mm/yyyy` text that reads back as that day; other values pass |
| `Schemas.AsText` | backend/auth/schemas.py:9-16 | a `str` field accepts exactly JSON strings |
| `Schemas.MakeJobBase` | backend/auth/schemas.py:5-18 | validation succeeds iff every text argument is a string and the date is present; defaults for `id` and `liked` |
| `Schemas.MakeJobBaseDate` | backend/auth/schemas.py:36-38 | the stored date is midnight of the given day |
| `Schemas.NewUserResponse` | backend/auth/schemas.py:88-97 | the defaults: not disabled, no reset token or expiry, empty job lists |
| `Models.NewJob` | backend/models/models.py:23-46 | every argument is stored as given |
| `Models.NewJobNotLiked` | backend/models/models.py:34-46 | `liked` defaults to False |
| `Models.TextOrEmpty` | backend/models/models.py:58-66 | a text column renders as its text, or "" for NULL |
| `Models.RenderDate` | backend/models/models.py:49-67 | rendering fails only for a non-zero integer |
| `Models.ElevenKeys` | backend/models/models.py:57-69 | the dictionary has eleven keys |
| `Models.ToDict` | backend/models/models.py:48-69 | it succeeds iff the date renders; its keys are the eleven columns; `liked` is copied |
| `Models.ToDictText` | backend/models/models.py:58-66 | every text entry is the column's text or "" |
| `Models.RenderStoredText` | backend/models/models.py:49-67 | `yyyy-mm-dd` text re-renders as the same day in `dd/mm/yyyy` |
| `Models.RenderDateRoundTrip` | backend/models/models.py:49-67 | a rendered date reads back as that day |
| `Storage.FindJob` | backend/routers/jobs.py:64 | the lookup finds a row iff some row has that key |
| `Storage.FindUserByName` | backend/auth/authentication.py:33-34 | the first row with that username, or none exists |
| `Storage.FindUserByEmail` | backend/routers/auth.py:35 | the first row with that email, or none exists |
| `Storage.FindUserById` | backend/routers/auth.py:123 | a row with that id, or none exists |
| `Storage.NextUserId` | backend/models/models.py:75 | a new user's id exceeds every id in use |
| `Storage.Database.constructor` | backend/models/models.py:7-101 | the four tables start empty and satisfy the keys and invariants |
| `JobsRouter.EnsureDate` | backend/routers/jobs.py:26-40 | dates and ISO text become `dd/mm/yyyy` that reads back as that day; other text is kept; other values become `str` |
| `JobsRouter.ValidatedDateKeepsDay` | backend/routers/jobs.py:26-32 | after `ensure_date` and `parse_date`, a stored date is midnight of its day |
| `JobsRouter.ValidatedIsoKeepsDay` | backend/routers/jobs.py:33-37 | ISO text is re-read as midnight of its day |
| `JobsRouter.ValidateJob` | backend/routers/jobs.py:22-40 | validation succeeds iff the key reads as an integer and every text column is set; the id is the parsed key and every text column, `liked` and the re-read date are kept |
| `JobsRouter.StoredRowValidates` | backend/routers/jobs.py:22-40 | a row the import stored validates with its key and its day |
| `JobsRouter.ValidateRows` | backend/routers/jobs.py:54 | none iff some row fails validation; otherwise every row validated, in order |
| `JobsRouter.GetJobs` | backend/routers/jobs.py:46-54 | 422 iff the query is out of bounds; 500 iff the query is in bounds and some row of the page fails; otherwise the validated page |
| `JobsRouter.GetJobById` | backend/routers/jobs.py:62-71 | 404 iff no row has that key; 500 iff the row found fails validation; otherwise the validated row with that id |
| `JobsRouter.AddLink` | backend/routers/jobs.py:82-100 | 409 iff the pair is recorded; 404 iff it is not and no job has the key; success iff neither, and only a success appends the pair |
| `JobsRouter.AddLinkKeepsInvariant` | backend/routers/jobs.py:82-100 | no pair is recorded twice, and a success records the pair |
| `JobsRouter.AddLinkTwice` | backend/routers/jobs.py:82-89 | adding the same pair again is refused with 409 |
| `JobsRouter.ApplyAfterSee` | backend/routers/jobs.py:141-193 | applying to a job already seen is refused: both use the seen table |
| `JobsRouter.Answer` | backend/routers/jobs.py:102 | a refusal is passed on; a body iff the change succeeded and the user lookup found a valid response; 500 otherwise |
| `JobsRouter.LikeJob` | backend/routers/jobs.py:74-102 | the likes table changes as `AddLink` prescribes; other tables are untouched; the database invariant is kept |
| `JobsRouter.SeeJob` | backend/routers/jobs.py:132-161 | the seen table changes as `AddLink` prescribes |
| `JobsRouter.ApplyJob` | backend/routers/jobs.py:178-208 | the seen table changes as `AddLink` prescribes, with the "already applied" detail |
| `JobsRouter.RemoveFirst` | backend/routers/jobs.py:109-113 | one occurrence of the pair goes, when there is one |
| `JobsRouter.RemoveFirstCounts` | backend/routers/jobs.py:109-113 | as multisets, exactly one copy of the pair is removed |
| `JobsRouter.RemoveFirstExactly` | backend/routers/jobs.py:109-113 | with unique pairs, the pair is gone and the rest stay unique |
| `JobsRouter.UnlikeJob` | backend/routers/jobs.py:105-115 | 404 "Like not found" iff the pair is not recorded; otherwise exactly that like is deleted; the database invariant is kept |
| `JobsRouter.LinkedJob` | backend/routers/jobs.py:122-128 | a link to no row gives nothing; a job found carries the link's key as its id |
| `JobsRouter.Gather` | backend/routers/jobs.py:122-128 | the listing is no longer than the link table |
| `JobsRouter.GatherSpec` | backend/routers/jobs.py:122-128 | an entry is listed iff it is found for one of the user's links |
| `JobsRouter.LinkedJobs` | backend/routers/jobs.py:117-129 | a job is listed iff it is the validated job of one of the user's links |
| `JobsRouter.GatherSource` | backend/routers/jobs.py:122-128 | each listed job comes from one of the user's links |
| `JobsRouter.GatherListed` | backend/routers/jobs.py:122-128 | each of the user's links with a valid job has that job listed |
| `JobsRouter.GatherConcat` | backend/routers/jobs.py:122-128 | listing a longer table lists the first part, then the rest |
| `JobsRouter.LinkedJobsConcat` | backend/routers/jobs.py:122-129 | listings follow link order |
| `JobsRouter.CollectLinkedJobs` | backend/routers/jobs.py:119-129 | the loop computes `LinkedJobs` |
| `JobsRouter.GetLikedJobs` | backend/routers/jobs.py:117-129 | lists the user's likes |
| `JobsRouter.GetSeenJobs` | backend/routers/jobs.py:163-175 | lists the user's seen jobs |
| `JobsRouter.GetAppliedJobs` | backend/routers/jobs.py:211-223 | lists the seen table, as `get_seen_jobs` does |
| `Authentication.AccessClaims` | backend/auth/authentication.py:17-25 | the claims are `data` plus `exp` = now + delta, or now + 30 minutes when the delta is absent or zero |
| `Authentication.ZeroDeltaIsDefault` | backend/auth/authentication.py:19-22 | a zero delta gives the same claims as no delta |
| `Authentication.AuthenticateUser` | backend/auth/authentication.py:36-43 | success iff the first user with that name has a matching password |
| `Authentication.AuthenticateUnique` | backend/auth/authentication.py:36-43 | with unique names, login succeeds exactly for that user's password |
| `Authentication.GetCurrentUser` | backend/auth/authentication.py:46-63 | success iff the claims decode, `sub` is a string and a user has that name; a refusal is 401 |
| `Authentication.LoginTokenAccepted` | backend/auth/authentication.py:17-63 | a token issued for a stored user is accepted as that user |
| `AuthRouter.Register` | backend/routers/auth.py:29-46 | a taken name is refused first, then a taken email; otherwise exactly one row with that name, email and hash is appended |
| `AuthRouter.RegisterKeepsInvariant` | backend/routers/auth.py:29-46 | ids, names and emails stay unique; reset fields stay paired |
| `AuthRouter.RegisterUser` | backend/routers/auth.py:29-46 | the users table changes as `Register` prescribes |
| `AuthRouter.Login` | backend/routers/auth.py:48-64 | claims `{sub, exp}` iff authentication succeeds, else 401 |
| `AuthRouter.Forgot` | backend/routers/auth.py:70-88 | an unknown email changes nothing; a known one stores a 15-minute token on that user only and mails the link |
| `AuthRouter.ForgotKeepsInvariant` | backend/routers/auth.py:70-88 | keys stay unique; reset fields stay paired |
| `AuthRouter.ForgotPassword` | backend/routers/auth.py:70-88 | the users table changes as `Forgot` prescribes |
| `AuthRouter.Reset` | backend/routers/auth.py:90-119 | a refusal is 400 and changes nothing |
| `AuthRouter.ResetRejectsForeignToken` | backend/routers/auth.py:94-98 | a token without `sub` or not for password reset is refused as invalid |
| `AuthRouter.ResetSuccess` | backend/routers/auth.py:94-117 | a reset succeeds only for a reset-purpose token whose own `exp` has not passed, for the token's user with that stored, unexpired token; it sets the hash and clears that user's reset fields only |
| `AuthRouter.ForgotThenReset` | backend/routers/auth.py:71-117 | the token a reset request stores and mails resets the password at any time within its 15 minutes |
| `AuthRouter.ResetSingleUse` | backend/routers/auth.py:110-115 | replaying a token after a successful reset is refused |
| `AuthRouter.FindUserByEmailSameEmails` | backend/routers/auth.py:107 | the email lookup depends on the emails only |
| `AuthRouter.ResetKeepsInvariant` | backend/routers/auth.py:90-119 | keys stay unique; reset fields stay paired |
| `AuthRouter.ResetNoMissingExpiry` | backend/routers/auth.py:110 | with paired reset fields, a reset never fails on a missing expiry |
| `AuthRouter.ResetPassword` | backend/routers/auth.py:90-119 | the users table changes as `Reset` prescribes |
| `AuthRouter.LikedIds` | backend/routers/auth.py:126 | exactly the jobs the user liked |
| `AuthRouter.GetUserById` | backend/routers/auth.py:122-126 | none iff the id is unknown; a validation error iff the user has a like whose job is missing or is not a valid `JobResponse`; otherwise the row's id, username, email, disabled flag and reset fields, the user's likes, and empty seen and applied lists |
| `AuthRouter.TextKeyLikeFails` | backend/auth/schemas.py:41-42 | a liked row whose key is not a decimal integer makes the lookup fail |
| `JobStore.FindIndex` | frontend/src/stores/jobStore.ts:251-268 | the first position holding the id, or none holds it |
| `JobStore.Filter` | frontend/src/stores/jobStore.ts:24-35 | keeps exactly the elements satisfying the test |
| `JobStore.FilterConcat` | frontend/src/stores/jobStore.ts:24-35 | filtering keeps list order |
| `JobStore.GetJobById` | frontend/src/stores/jobStore.ts:23 | a job is found iff one has that id, and it has that id |
| `JobStore.AppliedAreSeen` | frontend/src/stores/jobStore.ts:25-26 | every applied job is among the seen ones |
| `JobStore.AppliedAreSeenCount` | frontend/src/stores/jobStore.ts:25-26 | there are no more applied jobs than seen ones |
| `JobStore.EmptyQueryKeepsAll` | frontend/src/stores/jobStore.ts:27-35 | an empty query keeps every job |
| `JobStore.EmptyQueryKeepsAllFrom` | frontend/src/stores/jobStore.ts:27-35 | the empty lower-cased query matches every job |
| `JobStore.QueryIgnoresCase` | frontend/src/stores/jobStore.ts:28 | a query and its lower-case form filter alike |
| `JobStore.LowerIdempotent` | frontend/src/stores/jobStore.ts:28-33 | lower-casing twice is lower-casing once |
| `JobStore.LikedList` | frontend/src/stores/jobStore.ts:210-230 | the liked list is non-empty only with a user and an ok reply |
| `JobStore.SyncLiked` | frontend/src/stores/jobStore.ts:239-241 | only the liked flags change, each set to whether the id is in the liked list |
| `JobStore.SyncedLikes` | frontend/src/stores/jobStore.ts:239-241 | after sync, a present job reads as liked iff its id is liked |
| `JobStore.SyncLikedIdempotent` | frontend/src/stores/jobStore.ts:239-241 | syncing twice is syncing once |
| `JobStore.PatchFirst` | frontend/src/stores/jobStore.ts:251-268 | only the first job with the id changes; no match means no change |
| `JobStore.PatchKeepsIndex` | frontend/src/stores/jobStore.ts:251-268 | a patch keeping the id leaves the first match where it was |
| `JobStore.LikeThenUnlike` | frontend/src/stores/jobStore.ts:142-190 | like then unlike is unlike; liking twice is liking once |
| `JobStore.LikeIsVisible` | frontend/src/stores/jobStore.ts:142-190 | after a like the getter reports it; with unique ids, after an unlike it does not |
| `JobStore.SeenThenAppliedListed` | frontend/src/stores/jobStore.ts:257-268 | marking seen then applied lists the job among applied jobs |
| `JobStore.FetchJobById` | frontend/src/stores/jobStore.ts:64-86 | a job iff the request succeeded; liked iff a user is present and the id is in their liked list |
| `JobStore.Unliked` | frontend/src/stores/jobStore.ts:51 | incoming jobs all start unliked, otherwise unchanged |
| `JobStore.AfterPage` | frontend/src/stores/jobStore.ts:51-55 | offset 0 replaces and any other offset appends, keeping old jobs; with a user every job is liked iff in the liked list, without one old jobs keep their flag and new ones are unliked |
| `JobStore.Store.constructor` | frontend/src/stores/jobStore.ts:10-17 | the initial state: no jobs, not loading, more to load, offset 0, limit 20 |
| `JobStore.Store.FetchLikedJobs` | frontend/src/stores/jobStore.ts:231-243 | with a user the jobs become `SyncLiked`; without one nothing changes |
| `JobStore.Store.FetchJobs` | frontend/src/stores/jobStore.ts:38-63 | not loading afterwards; an ok reply gives `AfterPage`, a failure keeps the jobs; `hasMore` only ever falls, on a short page |
| `JobStore.Store.LikeJob` | frontend/src/stores/jobStore.ts:97-162 | no user, no request; an ok reply likes the first match; otherwise nothing changes |
| `JobStore.Store.UnlikeJob` | frontend/src/stores/jobStore.ts:164-208 | no user, no request; an ok reply unlikes the first match; otherwise nothing changes |
| `JobStore.Store.ToggleLikeJob` | frontend/src/stores/jobStore.ts:244-250 | unlikes what the caller says is liked, likes the rest |
| `JobStore.Store.UpdateJob` | frontend/src/stores/jobStore.ts:251-256 | the first job with the same id is replaced |
| `JobStore.Store.UpdateSeenJobs` | frontend/src/stores/jobStore.ts:257-262 | the first match is marked seen |
| `JobStore.Store.UpdateAppliedJobs` | frontend/src/stores/jobStore.ts:263-268 | the first match is marked applied |
| `AuthStore.Bearer` | frontend/src/stores/authStore.ts:28-41 | the header is "Bearer " followed by the token |
| `AuthStore.GetUsername` | frontend/src/stores/authStore.ts:18-20 | a name iff a user with a non-null name is present |
| `AuthStore.Initial` | frontend/src/stores/authStore.ts:8-13 | the start state holds the stored token, is consistent and is not authenticated |
| `AuthStore.LoggedIn` | frontend/src/stores/authStore.ts:23-29 | login stores the user, sets the flag, and puts the token in the state, the storage and the Bearer header; authenticated iff the name is not null |
| `AuthStore.LoggedOut` | frontend/src/stores/authStore.ts:30-36 | logout sets no current user, clears the flag, the token, its stored copy and the header; not authenticated |
| `AuthStore.Initialized` | frontend/src/stores/authStore.ts:37-54 | no stored token changes nothing; a refused token logs out; an accepted one logs in with that token |
| `AuthStore.AuthenticatedRule` | frontend/src/stores/authStore.ts:15-17 | authentication needs the flag and a token; with no user the name test passes |
| `AuthStore.StoredTokenAccepted` | frontend/src/stores/authStore.ts:37-46 | an accepted stored token authenticates its user |
| `AuthStore.StoredTokenRefused` | frontend/src/stores/authStore.ts:47-50 | a refused stored token is forgotten, storage included |
| `AuthStore.AuthStore.constructor` | frontend/src/stores/authStore.ts:8-13 | the store starts in `Initial` |
| `AuthStore.AuthStore.Login` | frontend/src/stores/authStore.ts:23-29 | the state becomes `LoggedIn` |
| `AuthStore.AuthStore.Logout` | frontend/src/stores/authStore.ts:30-36 | the state becomes `LoggedOut` |
| `AuthStore.AuthStore.InitializeAuth` | frontend/src/stores/authStore.ts:37-54 | the state becomes `Initialized` |
| `ColorMode.UpdatedClasses` | frontend/src/utils/useGlobalColorMode.ts:6-15 | `dark` iff dark mode, or auto and the system prefers dark; `light` otherwise; other classes kept |
| `ColorMode.ExactlyOneModeClass` | frontend/src/utils/useGlobalColorMode.ts:8-14 | exactly one of `light`/`dark` is present |
| `ColorMode.UpdateIdempotent` | frontend/src/utils/useGlobalColorMode.ts:6-15 | re-running the update changes nothing |
| `ColorMode.ModeCell.constructor` | frontend/src/utils/useGlobalColorMode.ts:3 | the mode starts as auto |
| `ColorMode.RootElement.UpdateClass` | frontend/src/utils/useGlobalColorMode.ts:6-15 | the class list becomes `UpdatedClasses` |
| `ColorMode.GlobalColorMode.UseGlobalColorMode` | frontend/src/utils/useGlobalColorMode.ts:22-24 | always the same shared cell |
| `DeviceDetection.Detect` | frontend/src/utils/useDeviceDetection.ts:4-45 | the agent is the navigator's or ""; mobile, tablet, landscape, touch and desktop each hold iff their query or agent test does; desktop iff the desktop query holds and neither mobile nor tablet does |
| `DeviceDetection.AndroidOnlyIsTablet` | frontend/src/utils/useDeviceDetection.ts:24-27 | an agent naming Android and never "mobile" is a tablet agent |
| `DeviceDetection.AndroidTabletInLandscape` | frontend/src/utils/useDeviceDetection.ts:22-35 | such a device in landscape is mobile and tablet, never desktop |
| `DeviceDetection.DesktopNeedsWidth` | frontend/src/utils/useDeviceDetection.ts:14-35 | desktop needs the desktop query and neither other query, and no iPad agent |
| `ColorText.ColorCode` | backend/utils/colorText.py:2-10 | a code exists iff the name is one of the table's, and it starts with ESC |
| `ColorText.SevenColors` | backend/utils/colorText.py:3-9 | exactly seven names |
| `ColorText.Colorize` | backend/utils/colorText.py:1-11 | defined iff the colour is known; then prefix + text + reset |
| `ColorText.StripColor` | backend/utils/colorText.py:11 | dropping the prefix and the four-character reset gives the text back |
| `Calendar.ParseFormatDmy` | backend/auth/schemas.py:32 | `%d/%m/%Y` parsing inverts formatting |
| `Calendar.ParseFormatYmd` | backend/models/models.py:51 | `%Y-%m-%d` parsing inverts formatting |
| `Calendar.ParseFormatStamp` | backend/services/external_apis/remotive.py:28 | `%Y-%m-%dT%H:%M:%S.%fZ` parsing inverts formatting |
| `Calendar.ScaleFraction` | backend/services/external_apis/remotive.py:28 | a `%f` fraction of one to six digits gives fewer than a million microseconds |
| `Calendar.ParseFormatIso` | backend/auth/schemas.py:28 | `fromisoformat` inverts `isoformat` |
| `Calendar.DmyIsNotIso` | backend/auth/schemas.py:28-32 | `dd/mm/yyyy` text is not ISO |
| `Calendar.DmyIsNotYmd` | backend/models/models.py:49-53 | `dd/mm/yyyy` text is not `yyyy-mm-dd` |
| `Json.PyStrIntRoundTrip` | backend/services/external_apis/remotive.py:19 | `str` of an integer id reads back as that integer |
| `Wrappers.AllPresentSpec` | backend/services/external_apis/francetravail.py:83-98 | all values are collected iff none is missing, each in its place |

## Left out

- HTTP, mail and the clock:
  - HTTP requests, Mailgun delivery and the clock are parameters.
  - The request payloads and URLs are not modelled, apart from the France Travail search headers and parameters.
- Concurrency: `asyncio.gather` and the executor thread are modelled as the Remotive fetch followed by the France Travail fetch.
- The SQLAlchemy session:
  - Tables are sequences in insertion order. A commit reassigns them; a rollback keeps them.
  - Query ordering is taken to be insertion order.
- Cryptography:
  - bcrypt hashing and checking, and JWT signing, are function parameters.
  - A decoded JWT is its claims, `None` when jose rejects the signature or the expiry.
- Response serialization that depends on the missing relationships. `UserSchema` (backend/auth/schemas.py:77-78) requires `seen_jobs` and `applied_jobs`, which the `User` model (backend/models/models.py:72-84) does not have, so converting a user raises and the route answers 500:
  - `AuthRouter.RegisterUser` returns the new row, not the `UserSchema` conversion of `response_model`; the registration is committed, then answered with 500.
  - `Authentication.AuthenticateUser` returns the user, not `AuthUserSchema.from_orm(user)` (backend/auth/authentication.py:43), so the model does not show that every valid login raises there.
  - `AuthRouter.Login`: its success is the claims of the token; as written, every login with valid credentials answers 500 at that conversion.
  - `Authentication.GetCurrentUser` returns the user; `read_users_me` converts it with `UserSchema` and answers 500 for every valid token.
- The `SeenJob` and `AppliedJob` models are imported by `routers/jobs.py` but are not defined in `models/models.py`. The model gives the seen table the shape of `liked_jobs` and routes applications to it, as the handlers do.
- `import_jobs`, `read_users_me` and `verify_password`/`get_password_hash` are thin wrappers. They are represented by `Aggregator.AggregateJobs`, `Authentication.GetCurrentUser` and the hash/verify parameters.
- `JobsRouter.GetJobs`: the limit is a parameter. Its default, `settings.JOB_LIMIT` (backend/routers/jobs.py:49), is evaluated when the module is imported, where the shipped configuration raises `AttributeError`; module import is not modelled.
- `FranceTravail.FetchJobs`, `FranceTravail.FetchOutcome`, `FranceTravail.SearchResults` and `Aggregator.AggregateJobs` build on the corrected normalization and import (`NormalizeOffer`, `Aggregate`). The code as written is `NormalizeOfferAsWritten` and `AggregateAsWritten`, and the Findings relate the two.
- `AuthRouter.GetUserById`: the liked jobs of the response are their ids, in like order; the `JobResponse` objects `UserResponse` carries for them are only validated (`LinkValid`), not built.
- Time zones: one `now`, in seconds, stands for every clock. `create_access_token` and `forgot_password` build `exp` from the naive local `datetime.now()`, jose reads that as UTC and checks it against UTC, and `reset_password` reads it back with the local `fromtimestamp`. The model is the behaviour on a server running in UTC; elsewhere token lifetimes shift by the server's offset, and west of UTC access tokens expire when they are issued.
- `Json` has no floating-point case: an `expires_in` of `3599.0` or a float record `id` is not modelled.
- `AuthRouter.ClaimText` treats an integer `sub` as naming no e-mail. SQLite would compare it with the e-mail column as text; that comparison is not modelled.
- Library date parsing:
  - `fromisoformat` and `strptime` are modelled over the fixed layouts the code uses. For ISO text that is date-only or `T`-separated with a `.fff`/`.ffffff` fraction and an `±HH:MM` offset.
  - Other ISO 8601 variants that Python accepts read as not ISO.
- `Schemas.ParseDate`, `Calendar.ParseDmy`, `Calendar.ParseYmd` and `Calendar.ParseStamp` read fixed-width fields: `strptime` also accepts one-digit (and, for `%d`, space-padded) days, months, hours, minutes and seconds, so `"1/2/2024"` parses as 1 February 2024 in Python but falls back to the clock here.
- `JobsRouter.GetJobs`, `JobsRouter.GetJobById` and the liked, seen and applied listings answer the handler's return value; the second `ensure_date`/`parse_date` pass that FastAPI's `response_model` validation applies to it is not modelled. It matters only for a row stored without a date, whose `now` becomes midnight of today on that pass; rows the import stores always have one.
- `Remotive.FetchJobs`: a `jobs` value that is an object raises `TypeError` on slicing before Python 3.12 and `KeyError` from 3.12 on; the model gives `TypeError`. Either way it escapes `fetch_jobs`.
- `str` of a JSON array or object is a fixed placeholder; Python's `repr` is not modelled.
- Front-end toasts, console output and `localStorage`:
  - Toasts and console output are left out.
  - `localStorage` and the axios default header are fields of the authentication store.
- Front-end types:
  - `JobStore.FindIndex`: job ids are integers on both sides of `===`. A string route parameter compared with a numeric id, which never matches in TypeScript, is not modelled.
  - `JobStore.StoreJob` carries only the fields the store reads.
- `JobStore.Matches` and `DeviceDetection.Detect`: `toLowerCase` is modelled as ASCII lower-casing. Unicode case mapping is left out.
- `JobStore.Store`: `_rawLikedJobs` is declared but never written, so it stays `[]`.
- Reactivity:
  - `watchEffect` and `computed` re-evaluation are not modelled.
  - `ColorMode.RootElement.UpdateClass` is the effect body run once.
  - `DeviceDetection.Detect` is a snapshot of every flag.
  - The `typeof window` guard around the colour-mode effect is not modelled.
- `DeviceDetection.Detect`: a page with `window` but no `navigator`, where `navigator.maxTouchPoints` would throw, is not modelled.

## Findings

| source | as written | input that shows it | evidently intended | confidence | as-written member | corrected member |
|---|---|---|---|---|---|---|
| backend/services/job_aggregator.py:37-49 | `Job(external_id=...)`, but `Job.__init__` takes `id`, so building a queued row raises `TypeError` and nothing is ever saved | one posting with a key whose URL is not stored, imported into an empty table | the posting's `external_id` becomes the row's key and the row is saved | not executed | `Aggregator.AsWrittenNeverSaves` | `Aggregator.Aggregate` |
| backend/services/external_apis/remotive.py:30 | `settings.JOB_LIMIT` is read, but the configuration class does not define it, so every decoded Remotive body raises `AttributeError` | any Remotive reply that decodes, e.g. `{"jobs": []}` | a defined limit slices the feed | not executed | `Remotive.UndefinedLimitNeverFetches` | `Remotive.FetchJobsLength` |
| backend/services/external_apis/francetravail.py:68 | `settings.ENV` is read, but the configuration class does not define it, so the broad handler returns `[]` before any search | any fetch with a valid token | a defined `ENV` chooses the keywords and the search is sent | not executed | `FranceTravail.NoSearchNoJobs` | `FranceTravail.MakeSearchRequest` |
| backend/services/external_apis/francetravail.py:94-95 | `description` and `typeContrat` default to `{}`, which the `str` fields reject, so one record lacking either empties the whole fetch | a `resultats` record with a valid `dateCreation` and no `description` | a missing text field defaults to "" like the others | not executed | `FranceTravail.MissingDescription` | `FranceTravail.NormalizeOffer` |
