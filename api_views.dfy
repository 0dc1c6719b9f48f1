/**
 * The job-submission viewset: create with its two duplicate checks (a
 * one-hour marker in a cache, then a case-insensitive lookup in the
 * store), list with its optional status filter, and retrieve by id.
 */
module ApiViews {
  import opened Wrappers
  import opened Text
  import opened Models
  import opened Serializers

  const DuplicateKeyPrefix: string := "job_submission_"

  /** How long a duplicate marker stays live, in seconds. */
  const MarkerLifetime: int := 60 * 60

  const ApiVersion: string := "v1"

  const RecentlySubmittedError: string :=
    "A similar job was recently submitted. Please wait before submitting again."
  const AlreadySubmittedError: string := "This job has already been submitted."
  const SuccessMessage: string := "Job submission received successfully! Thank you for thinking of me."
  const NotFoundError: string := "Job submission not found"

  // ---------------------------------------------------------------------
  // The duplicate marker

  /** The marker key of a title and company: prefix, folded title, "_", folded company. */
  function DuplicateKey(title: string, company: string): (k: string)
    ensures |k| == |DuplicateKeyPrefix| + |title| + 1 + |company|
    ensures k[..|DuplicateKeyPrefix|] == DuplicateKeyPrefix
    ensures k[|DuplicateKeyPrefix|..|DuplicateKeyPrefix| + |title|] == Lower(title)
    ensures k[|DuplicateKeyPrefix| + |title|] == '_'
    ensures k[|DuplicateKeyPrefix| + |title| + 1..] == Lower(company)
  {
    DuplicateKeyPrefix + (Lower(title) + ("_" + Lower(company)))
  }

  /** A request value read the way the create handler reads it, a missing one as "". */
  function Sent(data: map<string, string>, f: Field): string {
    Lookup(data, FieldName(f)).GetOr("")
  }

  /** The marker key of a create request. */
  function SubmissionKey(data: map<string, string>): string {
    DuplicateKey(Sent(data, Title), Sent(data, Company))
  }

  /** The key sees only the folded title and company: folding the inputs first gives the same key. */
  lemma DuplicateKeyIgnoresCase(title: string, company: string)
    ensures DuplicateKey(title, company) == DuplicateKey(Lower(title), Lower(company))
  {
    LowerIdempotent(title);
    LowerIdempotent(company);
  }

  /** So two submissions whose titles and companies agree up to case share one key. */
  lemma SameKeyUpToCase(t1: string, c1: string, t2: string, c2: string)
    requires Lower(t1) == Lower(t2) && Lower(c1) == Lower(c2)
    ensures DuplicateKey(t1, c1) == DuplicateKey(t2, c2)
  {
  }

  /** The key is not injective: an underscore may belong to the title or to the company. */
  lemma DuplicateKeyCollides()
    ensures DuplicateKey("a_b", "c") == DuplicateKey("a", "b_c")
    ensures Lower("a_b") != Lower("a")
  {
  }

  /** Equal strings with a common prefix are equal after it. */
  lemma PrefixCancels(p: string, x: string, y: string)
    requires p + x == p + y
    ensures x == y
  {
    assert x == (p + x)[|p|..];
  }

  /** Cutting a joined string at a known length recovers both parts. */
  lemma JoinedParts(a: string, b: string, c: string, d: string)
    requires |a| == |c|
    requires a + ("_" + b) == c + ("_" + d)
    ensures a == c && b == d
  {
    var s1, s2 := a + ("_" + b), c + ("_" + d);
    assert a == s1[..|a|] && c == s2[..|a|];
    assert b == s1[|a| + 1..] && d == s2[|a| + 1..];
  }

  /** Among titles of one length the key does determine the folded title and company. */
  lemma DuplicateKeySameTitleLength(t1: string, c1: string, t2: string, c2: string)
    requires |t1| == |t2|
    requires DuplicateKey(t1, c1) == DuplicateKey(t2, c2)
    ensures Lower(t1) == Lower(t2) && Lower(c1) == Lower(c2)
  {
    var lt1, lc1, lt2, lc2 := Lower(t1), Lower(c1), Lower(t2), Lower(c2);
    PrefixCancels(DuplicateKeyPrefix, lt1 + ("_" + lc1), lt2 + ("_" + lc2));
    JoinedParts(lt1, lc1, lt2, lc2);
  }

  /** A marker is live until its expiry time; at the expiry instant it has expired. */
  predicate MarkerLive(markers: map<string, int>, key: string, now: int): (live: bool)
    ensures live ==> key in markers
  {
    key in markers && now < markers[key]
  }

  /** A marker set at time `setAt` is live exactly during the hour that follows, whatever came before. */
  lemma MarkerWindow(markers: map<string, int>, key: string, setAt: int, now: int)
    ensures MarkerLive(markers[key := setAt + MarkerLifetime], key, now) <==> now < setAt + 3600
  {
  }

  // ---------------------------------------------------------------------
  // The store lookup

  /** A stored record matches a title and company when both agree ignoring case. */
  predicate SameJob(r: Record, title: string, company: string): (b: bool)
    ensures b ==> |r.title| == |title| && |r.company| == |company|
    ensures r.title == title && r.company == company ==> b
  {
    Lower(r.title) == Lower(title) && Lower(r.company) == Lower(company)
  }

  /** Whether the store holds a record matching a title and company. */
  predicate AlreadyStored(records: seq<Record>, title: string, company: string): (b: bool)
    ensures b <==> exists r :: r in records && SameJob(r, title, company)
  {
    exists i :: 0 <= i < |records| && SameJob(records[i], title, company)
  }

  /** A match stays a match when the store grows. */
  lemma AlreadyStoredGrows(records: seq<Record>, more: seq<Record>, title: string, company: string)
    requires AlreadyStored(records, title, company)
    ensures AlreadyStored(records + more, title, company)
  {
    var i :| 0 <= i < |records| && SameJob(records[i], title, company);
    assert (records + more)[i] == records[i];
  }

  /** The record a create saves matches every title and company equal to its own up to case. */
  lemma NewRecordMatches(id: nat, input: CreateInput, now: int, title: string, company: string)
    requires Lower(input.title) == Lower(title) && Lower(input.company) == Lower(company)
    ensures SameJob(NewRecord(id, input, now), title, company)
  {
  }

  // ---------------------------------------------------------------------
  // List

  /** The status filter in force: a present, non-empty `status` parameter. */
  function StatusFilter(statusParam: Option<string>): (r: Option<string>)
    ensures r.Some? <==> statusParam.Some? && statusParam.value != ""
    ensures r.Some? ==> r == statusParam
  {
    if statusParam.Some? && statusParam.value != "" then statusParam else None
  }

  /** Whether a record passes the (possibly absent) status filter. */
  predicate Selected(statusParam: Option<string>, r: Record): (b: bool)
    ensures (statusParam.None? || statusParam == Some("")) ==> b
    ensures b && statusParam.Some? && statusParam.value != "" ==> StatusName(r.status) == statusParam.value
  {
    StatusFilter(statusParam).None? || StatusName(r.status) == StatusFilter(statusParam).value
  }

  /** The records whose stored status equals `name` exactly, each as often as it is stored. */
  function WithStatus(records: seq<Record>, name: string): (r: seq<Record>)
    ensures forall x :: multiset(r)[x] == if StatusName(x.status) == name then multiset(records)[x] else 0
  {
    if records == [] then []
    else
      var t := WithStatus(records[1..], name);
      assert records == [records[0]] + records[1..];
      if StatusName(records[0].status) == name then [records[0]] + t else t
  }

  /**
   * The list queryset: newest first, and exactly the stored records that
   * pass the status filter, with their multiplicity.
   */
  function GetQueryset(records: seq<Record>, statusParam: Option<string>): (r: seq<Record>)
    ensures NewestFirst(r)
    ensures forall x :: multiset(r)[x] == if Selected(statusParam, x) then multiset(records)[x] else 0
    ensures forall x :: x in r <==> x in records && Selected(statusParam, x)
  {
    match StatusFilter(statusParam)
    case None => SortNewestFirst(records)
    case Some(name) => SortNewestFirst(WithStatus(records, name))
  }

  /** Without a filter the list is every stored record. */
  lemma UnfilteredListsAll(records: seq<Record>, statusParam: Option<string>)
    requires statusParam.None? || statusParam == Some("")
    ensures multiset(GetQueryset(records, statusParam)) == multiset(records)
  {
  }

  /** A status value that is none of the five choices lists nothing (there is no error). */
  lemma UnknownStatusListsNothing(records: seq<Record>, name: string)
    requires name != "" && ParseStatus(name).None?
    ensures GetQueryset(records, Some(name)) == []
  {
  }

  /** The list response: the public view of each queryset record, in order. */
  function ListJobs(records: seq<Record>, statusParam: Option<string>): (r: seq<map<Field, Value>>)
    ensures |r| == |GetQueryset(records, statusParam)|
    ensures forall i :: 0 <= i < |r| ==> r[i] == PublicData(GetQueryset(records, statusParam)[i])
    ensures forall i :: 0 <= i < |r| ==> Notes !in r[i]
  {
    var qs := GetQueryset(records, statusParam);
    seq(|qs|, i requires 0 <= i < |qs| => PublicData(qs[i]))
  }

  // ---------------------------------------------------------------------
  // Retrieve

  /** The id in a path: a digit string read as a decimal number; anything else has no id. */
  function ParseId(pk: string): (r: Option<nat>)
    ensures r.Some? <==> IsDigitString(pk)
    ensures r.Some? ==> r.value == DecimalValue(pk)
  {
    if IsDigitString(pk) then Some(DecimalValue(pk)) else None
  }

  /** Every id, written in decimal, parses back to itself. */
  lemma ParseIdOfRendered(n: nat)
    ensures ParseId(DecimalString(n)) == Some(n)
  {
    DecimalRoundTrip(n);
  }

  /** A leading zero names the same record. */
  lemma ParseIdLeadingZero(pk: string)
    requires IsDigitString(pk)
    ensures ParseId("0" + pk) == ParseId(pk)
  {
    LeadingZeroIgnored(pk);
    assert forall i :: 0 <= i < |"0" + pk| ==> IsDigit(("0" + pk)[i]);
  }

  /** The position of the record with a given id, if any. */
  function IndexOfId(records: seq<Record>, id: nat): (r: Option<nat>)
    ensures r.Some? ==> r.value < |records| && records[r.value].id == id
    ensures r.None? ==> forall i :: 0 <= i < |records| ==> records[i].id != id
  {
    if records == [] then None
    else if records[0].id == id then Some(0)
    else
      match IndexOfId(records[1..], id)
      case None => None
      case Some(k) => Some(k + 1)
  }

  datatype RetrieveResponse = Found(data: map<Field, Value>, apiVersion: string) | NotFound(error: string) {
    function Code(): int {
      if Found? then 200 else 404
    }
  }

  /**
   * Retrieve: a digit-string id of a stored record gives that record's
   * public view and the API version; any other id gives "not found".
   */
  function Retrieve(records: seq<Record>, pk: string): (r: RetrieveResponse)
    ensures r.Found? <==> ParseId(pk).Some? && exists i :: 0 <= i < |records| && records[i].id == ParseId(pk).value
    ensures r.Found? ==> r.apiVersion == ApiVersion
    ensures r.Found? ==> exists i :: 0 <= i < |records| && records[i].id == ParseId(pk).value && r.data == PublicData(records[i])
    ensures r.NotFound? ==> r.error == NotFoundError
    ensures r.Code() == 200 || r.Code() == 404
    ensures r.Code() == 200 <==> r.Found?
  {
    match ParseId(pk)
    case None => NotFound(NotFoundError)
    case Some(id) =>
      match IndexOfId(records, id)
      case None => NotFound(NotFoundError)
      case Some(i) => Found(PublicData(records[i]), ApiVersion)
  }

  /** With unique ids, a found record is the one with that id. */
  lemma RetrieveFindsTheRecord(records: seq<Record>, i: nat)
    requires i < |records|
    requires forall j, k :: 0 <= j < k < |records| ==> records[j].id != records[k].id
    ensures Retrieve(records, DecimalString(records[i].id)) == Found(PublicData(records[i]), ApiVersion)
  {
    ParseIdOfRendered(records[i].id);
  }

  // ---------------------------------------------------------------------
  // Create

  datatype CreateResponse =
    | Created(message: string, data: map<Field, Value>, apiVersion: string)
    | TooManyRequests(error: string)
    | InvalidInput(errors: map<Field, FieldError>)
    | AlreadySubmitted(error: string)
    | ServerError
  {
    function Code(): (c: int)
      ensures c == 201 <==> Created?
      ensures c == 429 <==> TooManyRequests?
      ensures c == 400 <==> InvalidInput? || AlreadySubmitted?
      ensures c == 500 <==> ServerError?
    {
      match this
      case Created(_, _, _) => 201
      case TooManyRequests(_) => 429
      case InvalidInput(_) => 400
      case AlreadySubmitted(_) => 400
      case ServerError => 500
    }
  }

  /** Whether a stored record satisfies the column rules and the URL and e-mail checks. */
  predicate Conforms(r: Record, vs: Validators) {
    FitsSchema(r) && vs.isUrl(r.url) && vs.isEmail(r.submittedBy) && Trimmed(r.title) && Trimmed(r.company)
  }

  /** A record saved from a validated payload conforms, whatever its id and time. */
  lemma ValidatedConforms(data: map<string, string>, vs: Validators, id: nat, now: int)
    requires ValidateCreate(data, vs).Validated?
    ensures Conforms(NewRecord(id, ValidateCreate(data, vs).input, now), vs)
  {
  }

  /**
   * The service state: the store of records, the next id the database will
   * assign, and the cache of duplicate markers (key to expiry time).
   */
  class SubmissionService {
    var records: seq<Record>
    var nextId: nat
    var markers: map<string, int>
    const validators: Validators

    /** Ids are unique and below nextId; every stored record passed validation and was stored stripped. */
    ghost predicate Valid()
      reads this
    {
      && (forall i :: 0 <= i < |records| ==> records[i].id < nextId)
      && (forall i, j :: 0 <= i < j < |records| ==> records[i].id != records[j].id)
      && (forall i :: 0 <= i < |records| ==> Conforms(records[i], validators))
    }

    /** An empty table (ids start at 1) and an empty cache. */
    constructor (vs: Validators)
      ensures Valid()
      ensures records == [] && nextId == 1 && markers == map[] && validators == vs
    {
      records := [];
      nextId := 1;
      markers := map[];
      validators := vs;
    }

    /**
     * Handles one create request at clock time `now`. A live marker for the
     * request's key answers 429 before anything else; otherwise invalid
     * fields answer 400 with their errors; otherwise a stored match for the
     * title and company as sent answers 400 "already submitted"; otherwise
     * the record is saved, with the stripped values and a fresh id, the
     * marker is set for an hour and 201 is answered. Only the last case
     * changes any state.
     */
    method Create(data: map<string, string>, now: int) returns (resp: CreateResponse)
      requires Valid()
      modifies this
      ensures Valid()
      ensures resp.TooManyRequests? <==> MarkerLive(old(markers), SubmissionKey(data), now)
      ensures resp.TooManyRequests? ==> resp.error == RecentlySubmittedError
      ensures resp.InvalidInput? <==>
        !MarkerLive(old(markers), SubmissionKey(data), now) && ValidateCreate(data, validators).FieldErrors?
      ensures resp.InvalidInput? ==> resp.errors == ValidateCreate(data, validators).errors
      ensures resp.AlreadySubmitted? <==>
        && !MarkerLive(old(markers), SubmissionKey(data), now)
        && ValidateCreate(data, validators).Validated?
        && AlreadyStored(old(records), Sent(data, Title), Sent(data, Company))
      ensures resp.AlreadySubmitted? ==> resp.error == AlreadySubmittedError
      ensures !resp.Created? ==> records == old(records) && nextId == old(nextId) && markers == old(markers)
      ensures resp.Created? ==>
        var rec := NewRecord(old(nextId), ValidateCreate(data, validators).input, now);
        && records == old(records) + [rec]
        && nextId == old(nextId) + 1
        && markers == old(markers)[SubmissionKey(data) := now + MarkerLifetime]
        && resp == Created(SuccessMessage, CreatedData(rec), ApiVersion)
      ensures resp.Created? ==> forall i :: 0 <= i < |old(records)| ==> old(records)[i].id != old(nextId)
      ensures old(records) <= records
      ensures !resp.ServerError?
      ensures resp.Code() == 429 <==> MarkerLive(old(markers), SubmissionKey(data), now)
      ensures resp.Code() == 201 <==> resp.Created?
      ensures AlreadyStored(old(records), Sent(data, Title), Sent(data, Company)) ==> !resp.Created?
      ensures resp.Created? ==> forall t, c ::
        Lower(t) == Lower(Trim(Sent(data, Title))) && Lower(c) == Lower(Trim(Sent(data, Company))) ==>
        AlreadyStored(records, t, c)
      ensures forall t, c :: AlreadyStored(old(records), t, c) ==> AlreadyStored(records, t, c)
    {
      var title := Sent(data, Title);
      var company := Sent(data, Company);
      var key := SubmissionKey(data);
      if MarkerLive(markers, key, now) {
        return TooManyRequests(RecentlySubmittedError);
      }
      var validation := ValidateCreate(data, validators);
      if validation.FieldErrors? {
        return InvalidInput(validation.errors);
      }
      ValidatedConforms(data, validators, nextId, now);
      resp := Submit(validation.input, title, company, key, now);
    }

    /**
     * A create after its payload passed validation: a stored match for the
     * title and company as sent answers 400 "already submitted"; otherwise
     * the payload is saved under the next id, the marker `key` is set for
     * an hour and 201 is answered.
     */
    method Submit(input: CreateInput, title: string, company: string, key: string, now: int)
      returns (resp: CreateResponse)
      requires Valid()
      requires Conforms(NewRecord(nextId, input, now), validators)
      modifies this
      ensures Valid()
      ensures resp.Created? || resp.AlreadySubmitted?
      ensures resp.AlreadySubmitted? <==> AlreadyStored(old(records), title, company)
      ensures resp.AlreadySubmitted? ==>
        && resp.error == AlreadySubmittedError
        && records == old(records) && nextId == old(nextId) && markers == old(markers)
      ensures resp.Created? ==>
        var rec := NewRecord(old(nextId), input, now);
        && records == old(records) + [rec]
        && nextId == old(nextId) + 1
        && markers == old(markers)[key := now + MarkerLifetime]
        && resp == Created(SuccessMessage, CreatedData(rec), ApiVersion)
      ensures resp.Created? ==> forall i :: 0 <= i < |old(records)| ==> old(records)[i].id != old(nextId)
      ensures resp.Created? ==> forall t, c ::
        Lower(t) == Lower(input.title) && Lower(c) == Lower(input.company) ==> AlreadyStored(records, t, c)
      ensures forall t, c :: AlreadyStored(old(records), t, c) ==> AlreadyStored(records, t, c)
    {
      if AlreadyStored(records, title, company) {
        return AlreadySubmitted(AlreadySubmittedError);
      }
      var rec := NewRecord(nextId, input, now);
      ghost var before := records;
      Save(rec);
      markers := markers[key := now + MarkerLifetime];
      forall t, c | AlreadyStored(before, t, c) ensures AlreadyStored(records, t, c) {
        AlreadyStoredGrows(before, [rec], t, c);
      }
      forall t, c | Lower(t) == Lower(input.title) && Lower(c) == Lower(input.company)
        ensures AlreadyStored(records, t, c)
      {
        NewRecordMatches(rec.id, input, now, t, c);
        assert SameJob(records[|records| - 1], t, c);
      }
      return Created(SuccessMessage, CreatedData(rec), ApiVersion);
    }

    /**
     * Inserts a validated record under the next id; the database assigns ids
     * in increasing order, so the new id is unused.
     */
    method Save(rec: Record)
      requires Valid()
      requires rec.id == nextId && Conforms(rec, validators)
      modifies this
      ensures Valid()
      ensures records == old(records) + [rec] && nextId == old(nextId) + 1 && markers == old(markers)
      ensures forall i :: 0 <= i < |old(records)| ==> old(records)[i].id != rec.id
    {
      ghost var before := records;
      records := records + [rec];
      assert forall i :: 0 <= i < |before| ==> records[i] == before[i];
      nextId := nextId + 1;
    }

    /**
     * The create handler as written: the store query carries the bound
     * `submitted_at__gte` taken from the validated payload, which never has
     * a `submitted_at`, so the bound is None. The query builder refuses None
     * on every lookup but exact and iexact, so building the query raises an
     * error the handler does not catch, and the request ends in a server
     * error before anything is saved. Only 429, 400 with field errors and
     * 500 can be answered, and no state changes.
     */
    method CreateAsWritten(data: map<string, string>, now: int) returns (resp: CreateResponse)
      requires Valid()
      ensures resp.TooManyRequests? <==> MarkerLive(markers, SubmissionKey(data), now)
      ensures resp.TooManyRequests? ==> resp.error == RecentlySubmittedError
      ensures resp.InvalidInput? <==>
        !MarkerLive(markers, SubmissionKey(data), now) && ValidateCreate(data, validators).FieldErrors?
      ensures resp.InvalidInput? ==> resp.errors == ValidateCreate(data, validators).errors
      ensures resp.ServerError? <==>
        !MarkerLive(markers, SubmissionKey(data), now) && ValidateCreate(data, validators).Validated?
      ensures resp.Code() != 201 && !resp.AlreadySubmitted?
    {
      var key := SubmissionKey(data);
      if MarkerLive(markers, key, now) {
        return TooManyRequests(RecentlySubmittedError);
      }
      var validation := ValidateCreate(data, validators);
      if validation.FieldErrors? {
        return InvalidInput(validation.errors);
      }
      return ServerError;
    }

    /** The cache dropping a marker before it expires (culling); the store is untouched. */
    method ForgetMarker(key: string)
      requires Valid()
      modifies this
      ensures Valid()
      ensures markers == old(markers) - {key}
      ensures records == old(records) && nextId == old(nextId)
      ensures forall t, c :: AlreadyStored(old(records), t, c) ==> AlreadyStored(records, t, c)
    {
      markers := markers - {key};
    }

    /**
     * The internal write path: sets the status and notes of the record with
     * the given id. No other field of any record changes, in particular no
     * id, title, company or submitted_at.
     */
    method Annotate(id: nat, status: Status, notes: string) returns (found: bool)
      requires Valid()
      modifies this
      ensures Valid()
      ensures found <==> exists i :: 0 <= i < |old(records)| && old(records)[i].id == id
      ensures |records| == |old(records)|
      ensures forall i :: 0 <= i < |records| ==>
        records[i] == if old(records)[i].id == id then old(records)[i].(status := status, notes := notes) else old(records)[i]
      ensures nextId == old(nextId) && markers == old(markers)
      ensures forall t, c :: AlreadyStored(old(records), t, c) ==> AlreadyStored(records, t, c)
    {
      var index := IndexOfId(records, id);
      found := index.Some?;
      if found {
        var i := index.value;
        ghost var before := records;
        records := records[i := records[i].(status := status, notes := notes)];
        forall t, c | AlreadyStored(before, t, c) ensures AlreadyStored(records, t, c) {
          AnnotateKeepsMatches(before, records, t, c);
        }
      }
    }
  }

  /** Annotating keeps every title and company, so every earlier match is still a match. */
  lemma AnnotateKeepsMatches(before: seq<Record>, after: seq<Record>, title: string, company: string)
    requires |after| == |before|
    requires forall i :: 0 <= i < |before| ==> after[i].title == before[i].title && after[i].company == before[i].company
    requires AlreadyStored(before, title, company)
    ensures AlreadyStored(after, title, company)
  {
    var i :| 0 <= i < |before| && SameJob(before[i], title, company);
    assert SameJob(after[i], title, company);
  }

  /**
   * A create whose title and company, as sent, match a stored record is
   * never answered 201: a live marker answers 429, and otherwise the answer
   * is 400, for the fields or for the match.
   */
  method CreateStored(s: SubmissionService, data: map<string, string>, now: int) returns (resp: CreateResponse)
    requires s.Valid()
    requires AlreadyStored(s.records, Sent(data, Title), Sent(data, Company))
    modifies s
    ensures s.Valid()
    ensures !resp.Created?
    ensures resp.TooManyRequests? <==> MarkerLive(old(s.markers), SubmissionKey(data), now)
    ensures !resp.TooManyRequests? ==> resp.AlreadySubmitted? || resp.InvalidInput?
    ensures s.records == old(s.records) && s.nextId == old(s.nextId) && s.markers == old(s.markers)
  {
    resp := s.Create(data, now);
  }

  /**
   * A repeat of a successful submission with no surrounding whitespace,
   * equal up to case in title and company, is refused: with 429 while the
   * marker lives, and, if the marker was dropped or has expired, with the
   * store's duplicate answer (or with field errors when the repeat itself
   * is invalid).
   */
  method RepeatSubmission(s: SubmissionService, first: map<string, string>, again: map<string, string>,
                          t1: int, t2: int, dropMarker: bool)
    returns (r1: CreateResponse, r2: CreateResponse)
    requires s.Valid()
    requires Trimmed(Sent(first, Title)) && Trimmed(Sent(first, Company))
    requires Lower(Sent(first, Title)) == Lower(Sent(again, Title))
    requires Lower(Sent(first, Company)) == Lower(Sent(again, Company))
    modifies s
    ensures r1.Created? ==> !r2.Created?
    ensures r1.Created? && !dropMarker && t2 < t1 + MarkerLifetime ==> r2.TooManyRequests?
    ensures r1.Created? && (dropMarker || t2 >= t1 + MarkerLifetime) ==>
      r2.AlreadySubmitted? || r2.InvalidInput?
  {
    r1 := s.Create(first, t1);
    if dropMarker {
      s.ForgetMarker(SubmissionKey(first));
    }
    if r1.Created? {
      TrimKeepsTrimmed(Sent(first, Title));
      TrimKeepsTrimmed(Sent(first, Company));
      DuplicateKeyIgnoresCase(Sent(first, Title), Sent(first, Company));
      DuplicateKeyIgnoresCase(Sent(again, Title), Sent(again, Company));
      r2 := CreateStored(s, again, t2);
    } else {
      r2 := s.Create(again, t2);
    }
  }

  /**
   * The same after unrelated work: once a submission has been created,
   * another create, a status change and the loss of its marker still
   * leave refused every later request whose title and company equal the
   * stored (stripped) ones up to case.
   */
  method RepeatAfterOtherWork(s: SubmissionService, first: map<string, string>, other: map<string, string>,
                              again: map<string, string>, t1: int, t2: int, t3: int,
                              id: nat, status: Status, notes: string)
    returns (r1: CreateResponse, r3: CreateResponse)
    requires s.Valid()
    requires Lower(Trim(Sent(first, Title))) == Lower(Sent(again, Title))
    requires Lower(Trim(Sent(first, Company))) == Lower(Sent(again, Company))
    modifies s
    ensures r1.Created? ==> !r3.Created?
  {
    r1 := s.Create(first, t1);
    var r2 := s.Create(other, t2);
    var found := s.Annotate(id, status, notes);
    s.ForgetMarker(SubmissionKey(first));
    if r1.Created? {
      r3 := CreateStored(s, again, t3);
    } else {
      r3 := s.Create(again, t3);
    }
  }

  /**
   * Stored titles carry no surrounding whitespace, and the store lookup
   * compares the title as sent: a title with surrounding whitespace never
   * matches a stored record.
   */
  lemma PaddedTitleNeverStored(records: seq<Record>, title: string, company: string)
    requires forall i :: 0 <= i < |records| ==> Trimmed(records[i].title)
    requires !Trimmed(title)
    ensures !AlreadyStored(records, title, company)
  {
    forall i | 0 <= i < |records| ensures !SameJob(records[i], title, company) {
      var x := records[i].title;
      if |x| == |title| {
        LowerKeepsSpace(x[0]);
        LowerKeepsSpace(title[0]);
        LowerKeepsSpace(x[|x| - 1]);
        LowerKeepsSpace(title[|x| - 1]);
        assert Lower(x)[0] == LowerChar(x[0]) && Lower(title)[0] == LowerChar(title[0]);
        assert Lower(x)[|x| - 1] == LowerChar(x[|x| - 1]);
        assert Lower(title)[|x| - 1] == LowerChar(title[|x| - 1]);
      }
    }
  }

  /**
   * So a submission whose title has surrounding whitespace is created again
   * once its marker is gone: the stored title is the stripped one, and the
   * repeat's raw title matches no stored record.
   */
  method PaddedRepeatCreated(s: SubmissionService, data: map<string, string>, t1: int, t2: int)
    returns (r1: CreateResponse, r2: CreateResponse)
    requires s.Valid()
    requires !Trimmed(Sent(data, Title))
    modifies s
    ensures r1.Created? ==> r2.Created?
  {
    r1 := s.Create(data, t1);
    s.ForgetMarker(SubmissionKey(data));
    PaddedTitleNeverStored(s.records, Sent(data, Title), Sent(data, Company));
    r2 := s.Create(data, t2);
  }
}
