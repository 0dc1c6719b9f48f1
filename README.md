# Job-submission service: a Dafny model

This project models the job-submission API of a personal résumé website. The API is a
Django REST Framework viewset over one table, `JobSubmission`. It has three operations:

- **create** accepts a job lead, with two anti-spam checks. The first is a one-hour
  "duplicate marker" in the cache, keyed by the lower-cased title and company. The second
  is a case-insensitive title+company lookup in the store.
- **list** returns records, optionally filtered by status, newest first.
- **retrieve** returns one record by id.

Modules, one per source file:

- `Models` (`models.dfy`, for `resume/models.py`): the record, the five status choices,
  the column limits, the default ordering (an insertion sort proved to yield a
  newest-first permutation) and the display string.
- `Serializers` (`serializers.dfy`, for `resume/serializers.py`): the create serializer's
  five input fields and its validation, and the public serializer's eight-field view.
  That view never includes `notes`. Validation first strips every value of surrounding
  whitespace (`Stripped`), as the framework's character fields do, then applies the field
  rules (`ValidateFields`) to the stripped values. So a value of whitespace only is blank,
  the length limit counts the stripped value, and the saved record holds stripped values.
- `ApiViews` (`api_views.dfy`, for `resume/api_views.py`):
  - the marker key;
  - the status filter and the list;
  - id parsing and retrieve;
  - class `SubmissionService`, holding the store (`records`), the next database id
    (`nextId`) and the marker cache (`markers`, key to expiry time). Its method `Create`
    follows the handler's early-return chain. Every branch states what it answers and
    which state it leaves unchanged.
- `Text` (`text.dfy`): ASCII case folding, shared by the marker key and the store's
  case-insensitive match so that the two agree; Python's whitespace and `str.strip`,
  which the character fields apply to every value they read; and decimal digit strings
  for ids.
- `Wrappers` (`wrappers.dfy`): `Option`.

Modelling choices:

- A request body is a `map<string, string>`.
- Time is an integer clock passed to `Create`.
- A marker is live while `now < expiry`; at the expiry instant it has expired.
- The URL and e-mail checks of Django's URL and e-mail fields are passed in as a
  `Validators` value of two total functions. Those fields' default maximum lengths are
  part of these checks.
- Response bodies are maps from the `Field` datatype (the table's columns) to values;
  `FieldName` gives each column's JSON key.
- An `api_version` entry and a message are separate fields of the response datatypes.
- The marker key is modelled literally and is not injective:
  `DuplicateKeyCollides` shows title `a_b` with company `c` sharing a key with title `a`
  with company `b_c`. So the second can be answered 429 within the hour although it is a
  different job.
- The store check in `resume/api_views.py:91-94` also filters on
  `submitted_at__gte=validated_data.get('submitted_at', None)`. The create serializer
  never carries `submitted_at`, so the bound is always `None`. Django's query builder
  refuses `None` on every lookup except `exact` and `iexact`: it raises "Cannot use None
  as a query value", which the handler does not catch. As written, then, every valid
  create with no live marker ends in a server error (500): nothing is saved and no marker
  is set. `SubmissionService.CreateAsWritten` models this (see "## Findings").
  `SubmissionService.Create` models the evident intent: a title and company check with
  no time bound.
- Retrieve parses a string of ASCII digits as a decimal id (`"007"` is id 7). Any other
  string is mapped to "not found". The code itself hands such a string to the ORM, and
  only `DoesNotExist` is caught there.
- An unrecognised `status` filter value lists nothing. An absent or empty one lists
  everything.
- The list view serialises its whole queryset. The overridden `list` never calls the
  paginator, so the page size in the settings does not apply and is not modelled.
- `Annotate` models an internal status-and-notes update: the site owner marks a lead as
  applied, rejected and so on, and keeps private notes. It changes nothing else.
  Through the API a record's id and `submitted_at` never change after creation, because
  both are read-only in the public serializer. Its title and company can change: the
  viewset's inherited update and delete actions, and the admin site, can edit them or
  remove the record; see "## Left out".
- `ForgetMarker` models the cache dropping a marker early (culling at its entry limit).
- Every state-changing method keeps every existing case-insensitive title+company match.
- The store check compares the title and company as sent (`request.data`), but the saved
  record holds them stripped. A stored record's title and company therefore never have
  surrounding whitespace (part of the `Valid` invariant), and a title sent with
  surrounding whitespace never matches the store (`PaddedTitleNeverStored`).
  - `RepeatSubmission` shows that a repeat of a successful submission whose title and
    company have no surrounding whitespace is refused. It is answered 429 while its marker
    lives, and otherwise by the duplicate store lookup, or by field errors when the repeat
    is itself invalid.
  - `RepeatAfterOtherWork` shows that a repeat whose title and company equal the stored
    (stripped) ones up to case is still never created after an unrelated create, an
    `Annotate` and the loss of the marker.
  - `PaddedRepeatCreated` shows the other side: once the marker is gone, resending a
    submission whose title has surrounding whitespace creates a second record.

## Model

| member | source | states |
|---|---|---|
| `Text.Lower` | resume/api_views.py:81 | case folding keeps the length and folds each character on its own (ASCII upper to lower) |
| `Text.LowerIdempotent` | resume/api_views.py:81 | folding an already folded string changes nothing |
| `Text.Trim` | resume/serializers.py:16-21 | the stripped value has no whitespace at either end, is no longer than the value, and is the value itself when nothing was removed |
| `Text.TrimCut` | resume/serializers.py:16-21 | the stripped value is a slice of the value, and every character cut off before or after it is whitespace (with `Trim`'s ensures: the largest such cut) |
| `Text.TrimKeepsTrimmed` | resume/serializers.py:16-21 | stripping leaves a value unchanged exactly when it has no whitespace at either end |
| `Text.TrimIdempotent` | resume/serializers.py:16-21 | stripping a stripped value changes nothing |
| `Text.DecimalRoundTrip` | resume/api_views.py:125 | the decimal value of a number's rendering is the number |
| `Text.LeadingZeroIgnored` | resume/api_views.py:125 | a leading zero does not change a digit string's value |
| `Models.ParseStatus` | resume/models.py:6-12 | a name maps to the status whose stored value it is, and to none exactly when no status has that value |
| `Models.StatusNameFits` | resume/models.py:20 | every status value is non-empty, fits the 20-character column and reads back as itself |
| `Models.Display` | resume/models.py:27-28 | the display string is the title, then " at ", then the company |
| `Models.DisplayDetermines` | resume/models.py:27-28 | with titles of equal length, equal display strings mean equal title and company, and conversely |
| `Models.PrependNewest` | resume/models.py:24 | a record no older than the head may precede a newest-first sequence |
| `Models.InsertNewestContents` | resume/models.py:24 | insertion adds exactly the one record and changes nothing else in the multiset |
| `Models.InsertNewestOrdered` | resume/models.py:24 | insertion keeps a sequence in non-increasing submitted_at order |
| `Models.SortNewestFirst` | resume/models.py:24 | the default ordering is a permutation of the records in non-increasing submitted_at order |
| `Serializers.FieldListsAgree` | resume/serializers.py:12-21 | the public fields are all columns except notes; the create fields are exactly the public fields that are not read-only (id, submitted_at, status) |
| `Serializers.ValidateFields` | resume/serializers.py:16-24 | on the values as the fields read them, a request is accepted iff title and company are present, non-blank and at most 200 characters, url and submitted_by are present, non-blank and valid, and no value of the five holds a NUL character; the payload is those values, with description defaulting to empty; otherwise exactly the failing fields are reported, each with its error |
| `Serializers.ValidateCreate` | resume/serializers.py:16-24 | an accepted request has title and company whose stripped values are non-blank and at most 200 characters, and url and submitted_by whose stripped values pass the syntax checks; the payload holds the stripped values, so its title and company have no surrounding whitespace; a title of whitespace only is reported blank |
| `Serializers.FieldRulesIgnoreOtherFields` | resume/serializers.py:21 | the field rules see only the five create fields |
| `Serializers.ValidationIgnoresOtherFields` | resume/serializers.py:21 | keys other than the five create fields (client id, status, notes, submitted_at) cannot change the validation outcome or payload |
| `Serializers.NewRecord` | resume/models.py:19-21 | the saved record has the server's id and time, the pending status, empty notes and the five payload values |
| `Serializers.Project` | resume/serializers.py:10-13 | a serializer's output holds exactly its listed fields, each with the record's value |
| `Serializers.PublicData` | resume/serializers.py:10-13 | the public view has every column except notes, each with the record's value |
| `Serializers.PublicDataHidesOnlyNotes` | resume/serializers.py:12 | two records have equal public views iff they differ at most in notes |
| `Serializers.CreatedData` | resume/serializers.py:19-21 | the 201 body's data holds exactly the five create fields of the saved record |
| `ApiViews.DuplicateKey` | resume/api_views.py:81 | the key is the prefix `job_submission_`, the folded title, `_` and the folded company, in that order |
| `ApiViews.DuplicateKeyIgnoresCase` | resume/api_views.py:77-81 | the marker key of a title and company equals the key of their folded forms |
| `ApiViews.SameKeyUpToCase` | resume/api_views.py:77-81 | submissions whose titles and companies agree up to case share one marker key |
| `ApiViews.DuplicateKeyCollides` | resume/api_views.py:81 | the key is not injective: ("a_b", "c") and ("a", "b_c") share a key |
| `ApiViews.DuplicateKeySameTitleLength` | resume/api_views.py:81 | for titles of one length, equal keys imply equal folded titles and companies |
| `ApiViews.MarkerLive` | resume/api_views.py:82 | a marker is live only if the cache holds the key |
| `ApiViews.MarkerWindow` | resume/api_views.py:104-105 | a marker set at a time is live exactly during the following 3600 seconds, whatever the cache held before |
| `ApiViews.SameJob` | resume/api_views.py:91-92 | a record that matches has a title and company of the given lengths, and a record matches its own title and company |
| `ApiViews.AlreadyStored` | resume/api_views.py:91-94 | the store lookup succeeds iff some stored record matches the title and company up to case |
| `ApiViews.AlreadyStoredGrows` | resume/api_views.py:91-94 | a case-insensitive title+company match persists when records are added |
| `ApiViews.NewRecordMatches` | resume/api_views.py:91-102 | the saved record matches every later title and company equal to its own up to case |
| `ApiViews.StatusFilter` | resume/api_views.py:35-36 | the filter applies iff the status parameter is present and non-empty, and then with that value |
| `ApiViews.Selected` | resume/api_views.py:35-37 | with no filter every record is selected; with a filter only records whose stored status is the value |
| `ApiViews.WithStatus` | resume/api_views.py:35-37 | the filter keeps exactly the records whose stored status equals the value, with their multiplicity |
| `ApiViews.GetQueryset` | resume/api_views.py:24-39 | the queryset is newest first and holds exactly the records passing the filter (all records when the parameter is absent or empty), with their multiplicity |
| `ApiViews.UnfilteredListsAll` | resume/api_views.py:35-36 | an absent or empty status parameter lists every record |
| `ApiViews.UnknownStatusListsNothing` | resume/api_views.py:36-37 | a non-empty status that is none of the five choices lists nothing |
| `ApiViews.ListJobs` | resume/api_views.py:47-58 | the list response is the public view of each queryset record in order, none with notes |
| `ApiViews.ParseId` | resume/api_views.py:124-125 | an id is found exactly for digit strings, with their decimal value |
| `ApiViews.ParseIdOfRendered` | resume/api_views.py:124-125 | every id written in decimal parses back to itself |
| `ApiViews.ParseIdLeadingZero` | resume/api_views.py:125 | a leading zero names the same id |
| `ApiViews.IndexOfId` | resume/api_views.py:128 | the lookup returns a position holding the id, or none exactly when no record has it |
| `ApiViews.Retrieve` | resume/api_views.py:117-137 | found iff the path is a digit string naming a stored id, then with that record's public view and api_version "v1"; otherwise "Job submission not found"; the code is 200 exactly when found, else 404 |
| `ApiViews.RetrieveFindsTheRecord` | resume/api_views.py:122-132 | with unique ids, retrieving a stored record's id returns exactly that record's public view |
| `ApiViews.CreateResponse.Code` | resume/api_views.py:82-115 | 201 exactly for Created, 429 exactly for TooManyRequests, 400 exactly for InvalidInput and AlreadySubmitted, 500 exactly for ServerError |
| `ApiViews.ValidatedConforms` | resume/api_views.py:89-102 | a record saved from an accepted request fits the table's columns, passes the url and e-mail checks and has stripped title and company |
| `ApiViews.SubmissionService.constructor` | resume/models.py:4-21 | the service starts with an empty table and an empty marker cache |
| `ApiViews.SubmissionService.Create` | resume/api_views.py:60-115 | 429 iff a marker for the key (from the title and company as sent) is live; else 400 with the field errors iff validation fails; else 400 "already submitted" iff a stored record matches the title and company as sent up to case; only 201 changes state, appending one record with a fresh id, status pending, empty notes, submitted_at now and the stripped values, setting the marker to expire at now + 3600 and answering api_version "v1"; earlier records never change; ids stay unique and every record valid and stripped; the code is 429, 400 or 201 as above and never 500; a request whose title and company as sent match a stored record up to case is never created; after a 201, every title and company equal to the stripped ones up to case is matched by the store; every existing match is kept |
| `ApiViews.SubmissionService.Submit` | resume/api_views.py:90-114 | after validation: "already submitted" iff a stored record matches the title and company as sent, with no change; otherwise the payload is saved under the next id, the marker set for an hour and 201 answered, and the new record matches its own title and company up to case |
| `ApiViews.SubmissionService.Save` | resume/api_views.py:102 | saving appends the record under the next id, which no stored record has, and keeps ids unique and every record conforming |
| `ApiViews.SubmissionService.CreateAsWritten` | resume/api_views.py:88-94 | as written: 429 with the recently-submitted message iff a marker is live, else 400 with exactly the validation's field errors iff validation fails, else 500, because the `submitted_at__gte` bound is `None`; never 201 and never "already submitted", and no state changes |
| `ApiViews.SubmissionService.ForgetMarker` | personal_website/settings_prod.py:58-67 | the cache may drop a marker early; the store is untouched and keeps every match |
| `ApiViews.SubmissionService.Annotate` | resume/models.py:19-21 | the status-and-notes write path changes only the status and notes of the record with the id, reports whether it exists, and keeps every stored match |
| `ApiViews.AnnotateKeepsMatches` | resume/models.py:14-15 | changes that keep titles and companies keep every stored match |
| `ApiViews.CreateStored` | resume/api_views.py:82-100 | a create whose title and company as sent match a stored record is never answered 201: 429 iff its marker is live, otherwise 400; nothing changes |
| `ApiViews.RepeatSubmission` | resume/api_views.py:77-105 | after a successful create whose title and company have no surrounding whitespace, a repeat equal up to case is never created: 429 while its marker lives, otherwise "already submitted" or field errors |
| `ApiViews.RepeatAfterOtherWork` | resume/api_views.py:77-105 | after a successful create, then another create, a status change and the loss of the marker, a repeat whose title and company equal the stripped first ones up to case is still never created |
| `ApiViews.PaddedTitleNeverStored` | resume/api_views.py:91-102 | when every stored title is stripped, a title with whitespace at either end matches no stored record |
| `ApiViews.PaddedRepeatCreated` | resume/api_views.py:77-105 | once its marker is gone, resending a created submission whose title has surrounding whitespace is created again |

## Left out

- Web, ORM and cache machinery (routing, request parsing, rendering, the database) is left
  out. The store is a sequence of records, the cache a map from key to expiry time.
- Django's URL and e-mail validators are not modelled; they are abstract parameters.
- The `iexact` lookup and `str.lower` are both modelled by one ASCII folding. In the code
  they differ: `str.lower` folds Unicode letters, and the production database
  (PostgreSQL) compares `UPPER` of both sides. So for non-ASCII letters the marker key
  and the store lookup can disagree. This is not modelled.
- RepeatSubmission: promises a refused repeat only when the first title and company have
  no surrounding whitespace. The store lookup compares the raw sent values with the
  stripped stored ones, so a repeat of a padded submission is created again once its
  marker is gone (`PaddedRepeatCreated`).
- RepeatAfterOtherWork: promises a refused repeat only for a repeat whose title and
  company equal the stripped first ones up to case. A repeat sent with the first
  request's surrounding whitespace is not covered, and is created again
  (`PaddedRepeatCreated`).
- The cache's lazy deletion of expired entries on read is not modelled; an expired marker
  stays in the map but is never live. Eviction at the entry limit is represented only by
  `ForgetMarker`.
- The race between the checks and the insert under concurrent requests is not modelled;
  the model is sequential.
- Non-string JSON values for title or company are not modelled; they would make
  `.lower()` fail.
- Pagination settings, environment-dependent configuration and template views are left
  out.
- Admin edits of title, company, url, description or submitted_by, and admin deletions,
  are not modelled (`resume/admin.py` is not part of this model). `Annotate` covers only
  status and notes. Either kind of edit could remove a stored match, and then a repeat
  whose marker has expired would be created.
- The viewset's inherited `update`, `partial_update` and `destroy` actions are not
  modelled. The viewset is a `ModelViewSet` open to anyone (`resume/api_views.py:14,22`),
  and the router exposes these actions at `jobs/{id}/` (`resume/api_urls.py:6-7`). They
  use the public serializer, whose only read-only fields are id, submitted_at and status
  (`resume/serializers.py:13`). So anyone can change a stored title or company, or
  delete the record, and either removes a stored match: a repeat whose marker is gone is
  then created. The class docstring (`resume/api_views.py:15-20`) mentions only
  submitting and viewing.
- ParseId: accepts ASCII digit strings only and maps every other id to "not found". In
  the code, a non-digit string goes to the ORM as it is. The integer key then converts it
  with `int()`, so `"+5"` and `" 5"` fetch record 5, and `"abc"` raises an uncaught
  conversion error (500). Unicode digits such as `"٥"` and `"５"` pass `str.isdigit` and
  `int()` and also find record 5. Digits such as superscript `"²"` pass `str.isdigit`,
  but `int()` refuses them with a `ValueError` at `resume/api_views.py:125`. Only
  `DoesNotExist` is caught (line 133), so the code answers 500 where the model answers
  404. None of these cases are modelled.
- SubmissionService.Create: checks the store on title and company only. It leaves out
  the `submitted_at__gte` bound, which as written makes the request fail (see
  "## Findings" and `CreateAsWritten`).
- ListJobs: the order among records with equal submitted_at is a fixed choice of the
  sort; the database leaves it unspecified.
- Field-error messages are not modelled: each failing field carries one error kind, not
  the framework's message strings. When several validators of one field fail, the
  framework lists every message; the model reports the first. The `api_version` entry is a separate field, not a
  ninth map key.

## Findings

| source | as written | input that shows it | evidently intended | confidence | as-written member | corrected member |
|---|---|---|---|---|---|---|
| resume/api_views.py:91-94 | the store check filters on `submitted_at__gte=validated_data.get('submitted_at', None)`; the create serializer has no `submitted_at`, so the bound is `None`, which Django refuses on a `gte` lookup | any valid create with no live marker, e.g. title "Engineer", company "Acme", a valid url and e-mail: 500, nothing saved, no marker | a case-insensitive title+company check with no time bound, then save, marker and 201 | high, from the query builder's documented refusal of `None`; not executed | `ApiViews.SubmissionService.CreateAsWritten` | `ApiViews.SubmissionService.Create` |
