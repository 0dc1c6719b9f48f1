/**
 * The JobSubmission table: its record shape, the status choices, the
 * field limits and defaults, the default newest-first ordering and the
 * display string.
 */
module Models {
  import opened Wrappers

  /** The five status choices; a record's status is always one of them. */
  datatype Status = Pending | Applied | Interviewing | Rejected | Accepted

  /** A record created without an explicit status gets this one. */
  const DefaultStatus: Status := Pending

  const MaxTitleLength: nat := 200
  const MaxCompanyLength: nat := 200
  const MaxStatusLength: nat := 20

  /** The stored value of a status (the first component of each choice). */
  function StatusName(s: Status): string {
    match s
    case Pending => "pending"
    case Applied => "applied"
    case Interviewing => "interviewing"
    case Rejected => "rejected"
    case Accepted => "accepted"
  }

  /** The status whose stored value is exactly `name`, if there is one. */
  function ParseStatus(name: string): (r: Option<Status>)
    ensures r.Some? ==> StatusName(r.value) == name
    ensures r.None? <==> forall s: Status :: StatusName(s) != name
  {
    if name == "pending" then Some(Pending)
    else if name == "applied" then Some(Applied)
    else if name == "interviewing" then Some(Interviewing)
    else if name == "rejected" then Some(Rejected)
    else if name == "accepted" then Some(Accepted)
    else None
  }

  /** Every status value fits the 20-character status column and reads back as itself. */
  lemma StatusNameFits(s: Status)
    ensures 0 < |StatusName(s)| <= MaxStatusLength
    ensures ParseStatus(StatusName(s)) == Some(s)
  {
  }

  /**
   * One row of the table. `submittedAt` is an integer clock reading;
   * `notes` is the internal, never-published field.
   */
  datatype Record = Record(
    id: nat,
    title: string,
    company: string,
    url: string,
    description: string,
    submittedBy: string,
    submittedAt: int,
    status: Status,
    notes: string)

  /** The table's columns; `Field.Status` is the status column, `Status` the type of its values. */
  datatype Field = Id | Title | Company | Url | Description | SubmittedBy | SubmittedAt | Status | Notes

  /** The column's name, which is also its key in request and response bodies. */
  function FieldName(f: Field): string {
    match f
    case Id => "id"
    case Title => "title"
    case Company => "company"
    case Url => "url"
    case Description => "description"
    case SubmittedBy => "submitted_by"
    case SubmittedAt => "submitted_at"
    case Status => "status"
    case Notes => "notes"
  }

  /**
   * The column constraints that do not depend on URL or e-mail syntax:
   * title and company are non-blank and at most 200 characters, url and
   * submitted_by are non-blank; description and notes may be blank.
   */
  predicate FitsSchema(r: Record) {
    && 0 < |r.title| <= MaxTitleLength
    && 0 < |r.company| <= MaxCompanyLength
    && r.url != ""
    && r.submittedBy != ""
  }

  /** The record's display string: its title, " at ", its company. */
  function Display(r: Record): (s: string)
    ensures |s| == |r.title| + 4 + |r.company|
    ensures s[..|r.title|] == r.title
    ensures s[|r.title|..|r.title| + 4] == " at "
    ensures s[|r.title| + 4..] == r.company
  {
    r.title + " at " + r.company
  }

  /** Two records with titles of the same length display alike exactly when title and company agree. */
  lemma DisplayDetermines(a: Record, b: Record)
    requires |a.title| == |b.title|
    ensures Display(a) == Display(b) <==> a.title == b.title && a.company == b.company
  {
  }

  /** The default ordering: submitted_at never increases along the sequence. */
  ghost predicate NewestFirst(rs: seq<Record>) {
    forall i, j :: 0 <= i < j < |rs| ==> rs[i].submittedAt >= rs[j].submittedAt
  }

  /** A record at least as new as the head of a newest-first sequence may go in front of it. */
  lemma PrependNewest(y: Record, t: seq<Record>)
    requires NewestFirst(t)
    requires t != [] ==> y.submittedAt >= t[0].submittedAt
    ensures NewestFirst([y] + t)
  {
  }

  /** Places `x` in a sequence just before the first record that is not newer than it. */
  function InsertNewest(x: Record, rs: seq<Record>): seq<Record> {
    if rs == [] then [x]
    else if x.submittedAt >= rs[0].submittedAt then [x] + rs
    else [rs[0]] + InsertNewest(x, rs[1..])
  }

  /** Inserting adds exactly `x` and puts either `x` or the old head first. */
  lemma {:induction false} InsertNewestContents(x: Record, rs: seq<Record>)
    ensures multiset(InsertNewest(x, rs)) == multiset(rs) + multiset{x}
    ensures InsertNewest(x, rs)[0] == x || (rs != [] && InsertNewest(x, rs)[0] == rs[0])
  {
    if rs != [] && x.submittedAt < rs[0].submittedAt {
      InsertNewestContents(x, rs[1..]);
      assert rs == [rs[0]] + rs[1..];
    }
  }

  /** Inserting into a newest-first sequence keeps it newest first. */
  lemma {:induction false} InsertNewestOrdered(x: Record, rs: seq<Record>)
    requires NewestFirst(rs)
    ensures NewestFirst(InsertNewest(x, rs))
  {
    if rs == [] {
    } else if x.submittedAt >= rs[0].submittedAt {
      PrependNewest(x, rs);
    } else {
      var t := InsertNewest(x, rs[1..]);
      InsertNewestOrdered(x, rs[1..]);
      InsertNewestContents(x, rs[1..]);
      PrependNewest(rs[0], t);
    }
  }

  /** The records in the default order: newest first, the same records with the same multiplicity. */
  function SortNewestFirst(rs: seq<Record>): (r: seq<Record>)
    ensures NewestFirst(r)
    ensures multiset(r) == multiset(rs)
  {
    if rs == [] then []
    else
      var t := SortNewestFirst(rs[1..]);
      InsertNewestOrdered(rs[0], t);
      InsertNewestContents(rs[0], t);
      assert rs == [rs[0]] + rs[1..];
      InsertNewest(rs[0], t)
  }
}
