/**
 * The two serializers of the job-submission API: the create serializer,
 * which reads and validates exactly five client fields, and the public
 * serializer, which publishes eight fields of a stored record and never
 * its notes.
 */
module Serializers {
  import opened Wrappers
  import opened Text
  import opened Models

  /** A JSON value in a response body: a number or a string. */
  datatype Value = Num(n: int) | Str(s: string)

  /** The fields of the public serializer, in its order. */
  const PublicFields: seq<Field> :=
    [Id, Title, Company, Url, Description, SubmittedBy, SubmittedAt, Field.Status]

  /** The public serializer's read-only fields: published, never taken from input. */
  const ReadOnlyFields: seq<Field> := [Id, SubmittedAt, Field.Status]

  /** The only fields the create serializer reads from a request. */
  const CreateFields: seq<Field> := [Title, Company, Url, Description, SubmittedBy]

  /** The public fields are all columns but notes; the create fields are the public ones that are not read-only. */
  lemma FieldListsAgree()
    ensures forall f :: f in PublicFields <==> f != Notes
    ensures forall f :: f in CreateFields <==> f in PublicFields && f !in ReadOnlyFields
  {
  }

  /**
   * URL and e-mail syntax checks of the framework's URL and e-mail fields,
   * which are not part of this model and are passed in as parameters.
   */
  datatype Validators = Validators(isUrl: string -> bool, isEmail: string -> bool)

  /** Why a field was refused. */
  datatype FieldError = Required | Blank | TooLong(limit: nat) | NullCharacter | InvalidUrl | InvalidEmail

  /** The validated payload of a create request. */
  datatype CreateInput = CreateInput(
    title: string,
    company: string,
    url: string,
    description: string,
    submittedBy: string)

  datatype Validation = Validated(input: CreateInput) | FieldErrors(errors: map<Field, FieldError>)

  /** The value sent for `name`, if the request has that field. */
  function Lookup(data: map<string, string>, name: string): Option<string> {
    if name in data then Some(data[name]) else None
  }

  /** Every character field refuses values holding a NUL character. */
  predicate HasNul(s: string) {
    '\0' in s
  }

  /**
   * The request as the character fields read it: every value stripped of
   * surrounding whitespace. The checks below see only stripped values, so a
   * value that is blank once stripped counts as blank, and the length, NUL
   * and syntax rules apply to the stripped value.
   */
  function Stripped(data: map<string, string>): (r: map<string, string>)
    ensures forall k :: k in r <==> k in data
    ensures forall k :: k in r ==> r[k] == Trim(data[k])
  {
    map k | k in data :: Trim(data[k])
  }

  /** A required character field with a length limit. */
  function CheckText(v: Option<string>, limit: nat): Option<FieldError> {
    match v
    case None => Some(Required)
    case Some(s) =>
      if s == "" then Some(Blank)
      else if |s| > limit then Some(TooLong(limit))
      else if HasNul(s) then Some(NullCharacter)
      else None
  }

  /** An optional character field that may be blank. */
  function CheckOptionalText(v: Option<string>): Option<FieldError> {
    match v
    case None => None
    case Some(s) => if HasNul(s) then Some(NullCharacter) else None
  }

  /** A required field whose syntax is decided by `ok`, reported as `bad` when it fails. */
  function CheckSyntax(v: Option<string>, ok: string -> bool, bad: FieldError): Option<FieldError> {
    match v
    case None => Some(Required)
    case Some(s) =>
      if s == "" then Some(Blank)
      else if HasNul(s) then Some(NullCharacter)
      else if !ok(s) then Some(bad)
      else None
  }

  /** The error of each create field, if it has one; description is optional and may be blank. */
  function FieldCheck(data: map<string, string>, vs: Validators, f: Field): Option<FieldError> {
    match f
    case Title => CheckText(Lookup(data, FieldName(Title)), MaxTitleLength)
    case Company => CheckText(Lookup(data, FieldName(Company)), MaxCompanyLength)
    case Url => CheckSyntax(Lookup(data, FieldName(Url)), vs.isUrl, InvalidUrl)
    case SubmittedBy => CheckSyntax(Lookup(data, FieldName(SubmittedBy)), vs.isEmail, InvalidEmail)
    case Description => CheckOptionalText(Lookup(data, FieldName(Description)))
    case _ => None
  }

  /** Every failing create field with its error. */
  function ErrorsOf(data: map<string, string>, vs: Validators): map<Field, FieldError> {
    map f | f in CreateFields && FieldCheck(data, vs, f).Some? :: FieldCheck(data, vs, f).value
  }

  /** The five create fields as read, a missing one as the empty string. */
  function PayloadOf(data: map<string, string>): CreateInput {
    CreateInput(
      Lookup(data, FieldName(Title)).GetOr(""),
      Lookup(data, FieldName(Company)).GetOr(""),
      Lookup(data, FieldName(Url)).GetOr(""),
      Lookup(data, FieldName(Description)).GetOr(""),
      Lookup(data, FieldName(SubmittedBy)).GetOr(""))
  }

  /** Whether a value meets the rules of a required, non-blank, length-limited field. */
  predicate GoodText(data: map<string, string>, name: string, limit: nat) {
    name in data && 0 < |data[name]| <= limit && !HasNul(data[name])
  }

  /** Whether an optional value, if sent, is free of NUL characters. */
  predicate GoodOptionalText(data: map<string, string>, name: string) {
    name in data ==> !HasNul(data[name])
  }

  /** Whether a value is present, non-blank and accepted by `ok`. */
  predicate GoodSyntax(data: map<string, string>, name: string, ok: string -> bool) {
    name in data && data[name] != "" && !HasNul(data[name]) && ok(data[name])
  }

  /**
   * The create serializer's rules on the values as its fields read them.
   * The request is accepted exactly when title and company are present,
   * non-blank and at most 200 characters, url and submitted_by are present,
   * non-blank and syntactically valid, and no value of the five holds a
   * NUL character; the accepted payload is the five values, description
   * defaulting to the empty string. Otherwise the result maps each failing
   * field, and only those, to its error.
   */
  function ValidateFields(data: map<string, string>, vs: Validators): (r: Validation)
    ensures r.Validated? <==>
      && GoodText(data, "title", MaxTitleLength)
      && GoodText(data, "company", MaxCompanyLength)
      && GoodSyntax(data, "url", vs.isUrl)
      && GoodSyntax(data, "submitted_by", vs.isEmail)
      && GoodOptionalText(data, "description")
    ensures r.Validated? ==>
      && r.input.title == data["title"]
      && r.input.company == data["company"]
      && r.input.url == data["url"]
      && r.input.submittedBy == data["submitted_by"]
      && r.input.description == Lookup(data, "description").GetOr("")
    ensures r.FieldErrors? ==> r.errors != map[]
    ensures r.FieldErrors? ==> forall f :: f in r.errors <==> f in CreateFields && FieldCheck(data, vs, f).Some?
    ensures r.FieldErrors? ==> forall f :: f in r.errors ==> r.errors[f] == FieldCheck(data, vs, f).value
  {
    var errors := ErrorsOf(data, vs);
    if errors == map[] then
      assert Title !in errors && Company !in errors && Url !in errors && SubmittedBy !in errors;
      assert Description !in errors;
      Validated(PayloadOf(data))
    else
      FieldErrors(errors)
  }

  /**
   * Validation of a create request: every value is first stripped of
   * surrounding whitespace, then the field rules apply. The accepted
   * payload holds the stripped values, so a stored title or company never
   * has whitespace at either end, and a value of whitespace only is blank.
   */
  function ValidateCreate(data: map<string, string>, vs: Validators): (r: Validation)
    ensures r.Validated? ==>
      && "title" in data && 0 < |Trim(data["title"])| <= MaxTitleLength
      && "company" in data && 0 < |Trim(data["company"])| <= MaxCompanyLength
      && "url" in data && vs.isUrl(Trim(data["url"]))
      && "submitted_by" in data && vs.isEmail(Trim(data["submitted_by"]))
    ensures r.Validated? ==>
      && r.input.title == Trim(data["title"])
      && r.input.company == Trim(data["company"])
      && r.input.url == Trim(data["url"])
      && r.input.submittedBy == Trim(data["submitted_by"])
    ensures r.Validated? ==> Trimmed(r.input.title) && Trimmed(r.input.company)
    ensures "title" in data && Trim(data["title"]) == "" ==> r.FieldErrors? && Title in r.errors && r.errors[Title] == Blank
  {
    var sd := Stripped(data);
    assert "title" in data ==> Lookup(sd, FieldName(Title)) == Some(Trim(data["title"]));
    ValidateFields(sd, vs)
  }

  /** Under the field rules, keys outside the five create fields have no effect. */
  lemma FieldRulesIgnoreOtherFields(d1: map<string, string>, d2: map<string, string>, vs: Validators)
    requires forall f :: f in CreateFields ==> Lookup(d1, FieldName(f)) == Lookup(d2, FieldName(f))
    ensures ValidateFields(d1, vs) == ValidateFields(d2, vs)
  {
    assert Lookup(d1, FieldName(Title)) == Lookup(d2, FieldName(Title));
    assert Lookup(d1, FieldName(Company)) == Lookup(d2, FieldName(Company));
    assert Lookup(d1, FieldName(Url)) == Lookup(d2, FieldName(Url));
    assert Lookup(d1, FieldName(SubmittedBy)) == Lookup(d2, FieldName(SubmittedBy));
    assert Lookup(d1, FieldName(Description)) == Lookup(d2, FieldName(Description));
    assert forall f :: FieldCheck(d1, vs, f) == FieldCheck(d2, vs, f);
    assert ErrorsOf(d1, vs) == ErrorsOf(d2, vs);
    assert PayloadOf(d1) == PayloadOf(d2);
  }

  /** Keys outside the five create fields (id, status, notes, submitted_at, ...) have no effect on validation. */
  lemma ValidationIgnoresOtherFields(d1: map<string, string>, d2: map<string, string>, vs: Validators)
    requires forall f :: f in CreateFields ==> Lookup(d1, FieldName(f)) == Lookup(d2, FieldName(f))
    ensures ValidateCreate(d1, vs) == ValidateCreate(d2, vs)
  {
    var s1, s2 := Stripped(d1), Stripped(d2);
    forall f | f in CreateFields ensures Lookup(s1, FieldName(f)) == Lookup(s2, FieldName(f)) {
      assert Lookup(d1, FieldName(f)) == Lookup(d2, FieldName(f));
    }
    FieldRulesIgnoreOtherFields(s1, s2, vs);
  }

  /** The record the create serializer saves: id and time from the server, default status, empty notes. */
  function NewRecord(id: nat, input: CreateInput, now: int): (r: Record)
    ensures r.id == id && r.submittedAt == now
    ensures StatusName(r.status) == "pending" && r.notes == ""
    ensures r.title == input.title && r.company == input.company && r.url == input.url
    ensures r.description == input.description && r.submittedBy == input.submittedBy
  {
    Record(id, input.title, input.company, input.url, input.description, input.submittedBy,
           now, DefaultStatus, "")
  }

  /** The value a record holds in a column, as the serializers publish it (status by its stored name). */
  function FieldValue(r: Record, f: Field): Value {
    match f
    case Id => Num(r.id)
    case Title => Str(r.title)
    case Company => Str(r.company)
    case Url => Str(r.url)
    case Description => Str(r.description)
    case SubmittedBy => Str(r.submittedBy)
    case SubmittedAt => Num(r.submittedAt)
    case Status => Str(StatusName(r.status))
    case Notes => Str(r.notes)
  }

  /** A serializer's output for a record: the listed fields, each with the record's value. */
  function Project(r: Record, fields: seq<Field>): (d: map<Field, Value>)
    ensures forall f :: f in d <==> f in fields
    ensures forall f :: f in d ==> d[f] == FieldValue(r, f)
  {
    map f | f in fields :: FieldValue(r, f)
  }

  /**
   * The public view of a record: every column but notes, each holding
   * the record's value.
   */
  function PublicData(r: Record): (d: map<Field, Value>)
    ensures forall f :: f in d <==> f != Notes
    ensures forall f :: f in d ==> d[f] == FieldValue(r, f)
  {
    FieldListsAgree();
    Project(r, PublicFields)
  }

  /** Two records have the same public view exactly when they differ at most in their notes. */
  lemma PublicDataHidesOnlyNotes(a: Record, b: Record)
    ensures PublicData(a) == PublicData(b) <==> a.(notes := b.notes) == b
  {
    if PublicData(a) == PublicData(b) {
      var da, db := PublicData(a), PublicData(b);
      assert da[Id] == db[Id] && da[SubmittedAt] == db[SubmittedAt];
      assert da[Title] == db[Title] && da[Company] == db[Company];
      assert da[Url] == db[Url] && da[Description] == db[Description];
      assert da[SubmittedBy] == db[SubmittedBy] && da[Field.Status] == db[Field.Status];
      assert ParseStatus(StatusName(a.status)) == Some(a.status) by { StatusNameFits(a.status); }
      assert ParseStatus(StatusName(b.status)) == Some(b.status) by { StatusNameFits(b.status); }
    }
  }

  /**
   * What the create serializer publishes after saving: its own five
   * fields as stored (id, status, submitted_at and notes are not among them).
   */
  function CreatedData(r: Record): (d: map<Field, Value>)
    ensures forall f :: f in d <==> f in CreateFields
    ensures forall f :: f in d ==> d[f] == FieldValue(r, f)
  {
    Project(r, CreateFields)
  }
}
