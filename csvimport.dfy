/**
 * `import_contributions_from_csv`: a validation pass over the CSV rows that
 * either yields one normalised record per row or the first error, followed
 * (only when every row passed) by a creation pass that makes one
 * contribution per record and links a speaker when the row gave an email.
 *
 * The foreign calls are parameters or recorded calls: `parseDate` is
 * `event.tzinfo.localize(dateutil.parser.parse(s))` with `None` standing for
 * its `ValueError`; `validEmail` is `validate_email`; friendly-id allocation,
 * `create_contribution` and `get_event_person` are recorded, in order, as
 * `OrmCall`s.
 */
module CsvImport {

  import opened Wrappers
  import opened PyStrings

  /** One CSV line as `csv.reader` splits it. */
  type Row = seq<string>

  /** A timezone-aware datetime, as a point on a linear time line. */
  type Instant = int

  /** start_dt, duration, title, first_name, last_name, affiliation, email */
  const ColumnCount: nat := 7

  /** The duration given to a row whose duration is empty or zero. */
  const DefaultDurationMinutes: int := 20

  /** The range of `timedelta(minutes=m)`: from -999999999 days up to
      999999999 days, 23 hours and 59 minutes. Outside it `timedelta`
      raises `OverflowError`. */
  const MinDurationMinutes: int := -999999999 * 1440
  const MaxDurationMinutes: int := 999999999 * 1440 + 1439

  predicate InTimedeltaRange(minutes: int) {
    MinDurationMinutes <= minutes <= MaxDurationMinutes
  }

  datatype SpeakerData = SpeakerData(firstName: string, lastName: string, affiliation: string, email: string)

  /** The fields `create_contribution` receives. */
  datatype ContributionFields = ContributionFields(startDt: Option<Instant>, durationMinutes: int, title: string)

  /** One entry of `contrib_data`. */
  datatype Record = Record(fields: ContributionFields, speaker: SpeakerData)

  /** Why the validation pass stops, with the value each message quotes: the
      `UserValueError`s of the source, and `DurationOverflow` for the
      `OverflowError` of an integer duration outside `timedelta`'s range,
      which the `except ValueError` does not catch and which therefore
      leaves the function. */
  datatype ErrorKind =
    | MalformedRow
    | BadDate(date: string)
    | BadDuration(duration: string)
    | DurationOverflow(duration: string)
    | MissingTitle
    | BadEmail(email: string)
  {
    /** The check that reports this error. */
    function Check(): Check {
      match this
      case MalformedRow => ColumnsCheck
      case BadDate(_) => DateCheck
      case BadDuration(_) => DurationCheck
      case DurationOverflow(_) => DurationCheck
      case MissingTitle => TitleCheck
      case BadEmail(_) => EmailCheck
    }
  }

  /** The checks a row goes through, in the order the source applies them. */
  datatype Check = ColumnsCheck | DateCheck | DurationCheck | TitleCheck | EmailCheck {
    function Position(): nat {
      match this
      case ColumnsCheck => 0
      case DateCheck => 1
      case DurationCheck => 2
      case TitleCheck => 3
      case EmailCheck => 4
    }
  }

  datatype RowOutcome = Valid(record: Record) | Invalid(kind: ErrorKind)

  /** The outcome of the validation pass: all records, or the first failing
      row (numbered from 1) and what was wrong with it. */
  datatype Validation = Ok(records: seq<Record>) | Err(row: nat, kind: ErrorKind)

  /** The seven columns of a row after `strip()`, the email also lower-cased. */
  datatype CsvFields = CsvFields(startDt: string, duration: string, title: string,
                                 firstName: string, lastName: string, affiliation: string, email: string)

  /** The list comprehension and unpacking that open the loop body. */
  function Normalise(row: Row): CsvFields
    requires |row| == ColumnCount
  {
    CsvFields(Strip(row[0]), Strip(row[1]), Strip(row[2]), Strip(row[3]), Strip(row[4]), Strip(row[5]),
              Lower(Strip(row[6])))
  }

  /** Normalisation leaves no whitespace at the ends of any field and no
      upper-case letter in the email, and a field is empty exactly when its
      column is blank. */
  lemma NormaliseTrims(row: Row)
    requires |row| == ColumnCount
    ensures var f := Normalise(row);
            && Trimmed(f.startDt) && Trimmed(f.duration) && Trimmed(f.title)
            && Trimmed(f.firstName) && Trimmed(f.lastName) && Trimmed(f.affiliation) && Trimmed(f.email)
            && (forall i :: 0 <= i < |f.email| ==> !IsUpper(f.email[i]))
            && (f.startDt == "" <==> AllSpace(row[0]))
            && (f.duration == "" <==> AllSpace(row[1]))
            && (f.title == "" <==> AllSpace(row[2]))
            && (f.firstName == "" <==> AllSpace(row[3]))
            && (f.lastName == "" <==> AllSpace(row[4]))
            && (f.affiliation == "" <==> AllSpace(row[5]))
            && (f.email == "" <==> AllSpace(row[6]))
  {
    StripSpec(row[0]); StripSpec(row[1]); StripSpec(row[2]);
    StripSpec(row[3]); StripSpec(row[4]); StripSpec(row[5]); StripSpec(row[6]);
    var e := Strip(row[6]);
    LowerSpec(e);
    if e != [] {
      LowerKeepsSpace(e[0]);
      LowerKeepsSpace(e[|e| - 1]);
    }
  }

  /** Whether the normalised fields pass one of the checks after the column count. */
  predicate Passes(f: CsvFields, check: Check, parseDate: string -> Option<Instant>, validEmail: string -> bool) {
    match check
    case ColumnsCheck => true
    case DateCheck => f.startDt == "" || parseDate(f.startDt).Some?
    case DurationCheck =>
      f.duration == "" || (ParseInt(f.duration).Some? && InTimedeltaRange(ParseInt(f.duration).value))
    case TitleCheck => f.title != ""
    case EmailCheck => f.email == "" || validEmail(f.email)
  }

  /** The checks of the loop body on the normalised fields, and the record
      it appends when they all pass. */
  function CheckFields(f: CsvFields, parseDate: string -> Option<Instant>, validEmail: string -> bool): RowOutcome {
    var parsedStart := if f.startDt != "" then parseDate(f.startDt) else None;
    var parsedDuration := if f.duration != "" then ParseInt(f.duration) else None;
    if f.startDt != "" && parsedStart.None? then
      Invalid(BadDate(f.startDt))
    else if f.duration != "" && parsedDuration.None? then
      Invalid(BadDuration(f.duration))
    else if f.duration != "" && !InTimedeltaRange(parsedDuration.value) then
      Invalid(DurationOverflow(f.duration))
    else if f.title == "" then
      Invalid(MissingTitle)
    else if f.email != "" && !validEmail(f.email) then
      Invalid(BadEmail(f.email))
    else
      // `parsed_duration or timedelta(minutes=20)`: a zero timedelta is falsy
      var minutes := if parsedDuration.None? || parsedDuration.value == 0 then DefaultDurationMinutes
                     else parsedDuration.value;
      Valid(Record(ContributionFields(parsedStart, minutes, f.title),
                   SpeakerData(f.firstName, f.lastName, f.affiliation, f.email)))
  }

  /** One iteration of the validation loop. */
  function ValidateRow(row: Row, parseDate: string -> Option<Instant>, validEmail: string -> bool): RowOutcome {
    if |row| != ColumnCount then Invalid(MalformedRow) else CheckFields(Normalise(row), parseDate, validEmail)
  }

  /** The column count is checked first: a row is malformed exactly when it
      does not have seven columns, and otherwise the field checks decide. */
  lemma ColumnsCheckedFirst(row: Row, parseDate: string -> Option<Instant>, validEmail: string -> bool)
    ensures ValidateRow(row, parseDate, validEmail) == Invalid(MalformedRow) <==> |row| != ColumnCount
    ensures |row| == ColumnCount ==>
              ValidateRow(row, parseDate, validEmail) == CheckFields(Normalise(row), parseDate, validEmail)
  {
  }

  /** Check order: fields are rejected for the first check they fail, every
      check before that one having passed, and accepted exactly when they
      pass them all. */
  lemma CheckOrder(f: CsvFields, parseDate: string -> Option<Instant>, validEmail: string -> bool)
    ensures var r := CheckFields(f, parseDate, validEmail);
            && (r.Valid? <==> forall c: Check :: Passes(f, c, parseDate, validEmail))
            && (r.Invalid? ==>
                  && r.kind != MalformedRow
                  && !Passes(f, r.kind.Check(), parseDate, validEmail)
                  && forall c: Check :: c.Position() < r.kind.Check().Position() ==> Passes(f, c, parseDate, validEmail))
  {
    var r := CheckFields(f, parseDate, validEmail);
    ParseIntSpec(f.duration);
    if r.Invalid? {
      assert !Passes(f, r.kind.Check(), parseDate, validEmail);
      forall c: Check | c.Position() < r.kind.Check().Position()
        ensures Passes(f, c, parseDate, validEmail)
      {
        match c
        case ColumnsCheck =>
        case DateCheck =>
        case DurationCheck =>
        case TitleCheck =>
        case EmailCheck =>
      }
    } else {
      forall c: Check ensures Passes(f, c, parseDate, validEmail) {
        match c
        case ColumnsCheck =>
        case DateCheck =>
        case DurationCheck =>
        case TitleCheck =>
        case EmailCheck =>
      }
    }
  }

  /** What an error message quotes, and what a valid row becomes: an empty
      start date gives no start time, an empty or zero duration the default,
      and everything else the parsed values. */
  lemma CheckFieldsRecord(f: CsvFields, parseDate: string -> Option<Instant>, validEmail: string -> bool)
    ensures var r := CheckFields(f, parseDate, validEmail);
            && (r == Invalid(BadDate(f.startDt)) <==> f.startDt != "" && parseDate(f.startDt).None?)
            && (r.Invalid? && r.kind.BadDuration? ==> r.kind == BadDuration(f.duration) && !IsIntLiteral(f.duration))
            && (r.Invalid? && r.kind.DurationOverflow? ==>
                  && r.kind == DurationOverflow(f.duration)
                  && IsIntLiteral(f.duration) && !InTimedeltaRange(ParseInt(f.duration).value))
            && (r.Invalid? && r.kind.BadEmail? ==> r.kind == BadEmail(f.email))
    ensures var r := CheckFields(f, parseDate, validEmail);
            r.Valid? ==>
              var c := r.record.fields;
              && (f.startDt == "" ==> c.startDt == None)
              && (f.startDt != "" ==> c.startDt == parseDate(f.startDt))
              && ((f.duration == "" || IsZeroLiteral(f.duration)) ==> c.durationMinutes == DefaultDurationMinutes)
              && (f.duration != "" && !IsZeroLiteral(f.duration) ==>
                    c.durationMinutes == ParseInt(f.duration).value != 0)
              && InTimedeltaRange(c.durationMinutes)
              && c.title == f.title != ""
              && r.record.speaker == SpeakerData(f.firstName, f.lastName, f.affiliation, f.email)
  {
    ParseIntSpec(f.duration);
  }

  /** Durations at the limits of `timedelta`: a row whose duration is the
      spelling of `n` (and that is otherwise valid) is accepted exactly when
      `n` lies in `timedelta`'s range, with `n` minutes (or the default for
      zero), and otherwise stops the import with an overflow. */
  lemma DurationLimits(n: int, parseDate: string -> Option<Instant>, validEmail: string -> bool)
    ensures var f := CsvFields("", FormatInt(n), "T", "", "", "", "");
            var r := CheckFields(f, parseDate, validEmail);
            && (r.Valid? <==> InTimedeltaRange(n))
            && (r.Valid? ==> r.record.fields.durationMinutes == if n == 0 then DefaultDurationMinutes else n)
            && (!InTimedeltaRange(n) ==> r == Invalid(DurationOverflow(FormatInt(n))))
  {
    ParseIntFormat(n);
  }

  /** The first-failure rule over the rows' outcomes, which the loop applies
      by raising at the first invalid row. */
  function FirstFailure(outcomes: seq<RowOutcome>): (v: Validation)
    ensures v.Ok? <==> forall j :: 0 <= j < |outcomes| ==> outcomes[j].Valid?
    ensures v.Ok? ==>
              && |v.records| == |outcomes|
              && forall j :: 0 <= j < |outcomes| ==> v.records[j] == outcomes[j].record
    ensures v.Err? ==>
              && 1 <= v.row <= |outcomes|
              && outcomes[v.row - 1] == Invalid(v.kind)
              && forall j :: 0 <= j < v.row - 1 ==> outcomes[j].Valid?
  {
    if outcomes == [] then
      Ok([])
    else
      var n := |outcomes|;
      match FirstFailure(outcomes[..n - 1])
      case Err(row, kind) => Err(row, kind)
      case Ok(records) =>
        match outcomes[n - 1]
        case Invalid(kind) => Err(n, kind)
        case Valid(record) => Ok(records + [record])
  }

  /** A failure among the first `n` outcomes is the failure of them all. */
  lemma {:induction false} FirstFailurePrefix(outcomes: seq<RowOutcome>, n: nat)
    requires n <= |outcomes|
    requires FirstFailure(outcomes[..n]).Err?
    ensures FirstFailure(outcomes) == FirstFailure(outcomes[..n])
  {
    if n < |outcomes| {
      var m := |outcomes| - 1;
      assert outcomes[..m][..n] == outcomes[..n];
      FirstFailurePrefix(outcomes[..m], n);
    } else {
      assert outcomes[..n] == outcomes;
    }
  }

  /** The outcome of every row, in row order. */
  function RowOutcomes(rows: seq<Row>, parseDate: string -> Option<Instant>, validEmail: string -> bool): (os: seq<RowOutcome>)
    ensures |os| == |rows|
  {
    if rows == [] then []
    else [ValidateRow(rows[0], parseDate, validEmail)] + RowOutcomes(rows[1..], parseDate, validEmail)
  }

  /** The outcome of row `j + 1` is the validation of that row. */
  lemma {:induction false} RowOutcomeAt(rows: seq<Row>, j: nat, parseDate: string -> Option<Instant>, validEmail: string -> bool)
    requires j < |rows|
    ensures RowOutcomes(rows, parseDate, validEmail)[j] == ValidateRow(rows[j], parseDate, validEmail)
  {
    if j > 0 {
      RowOutcomeAt(rows[1..], j - 1, parseDate, validEmail);
    }
  }

  /** The validation pass over all rows. */
  function Validate(rows: seq<Row>, parseDate: string -> Option<Instant>, validEmail: string -> bool): Validation {
    FirstFailure(RowOutcomes(rows, parseDate, validEmail))
  }

  /** First failure wins: the reported row is the first invalid one, and it
      is reported with its own error. */
  lemma FirstInvalidRowReported(rows: seq<Row>, k: nat, parseDate: string -> Option<Instant>, validEmail: string -> bool)
    requires k < |rows| && ValidateRow(rows[k], parseDate, validEmail).Invalid?
    requires forall j :: 0 <= j < k ==> ValidateRow(rows[j], parseDate, validEmail).Valid?
    ensures Validate(rows, parseDate, validEmail) == Err(k + 1, ValidateRow(rows[k], parseDate, validEmail).kind)
  {
    var os := RowOutcomes(rows, parseDate, validEmail);
    forall j | 0 <= j <= k ensures os[j] == ValidateRow(rows[j], parseDate, validEmail) {
      RowOutcomeAt(rows, j, parseDate, validEmail);
    }
    FirstFailureAt(os, k);
  }

  lemma FirstFailureAt(outcomes: seq<RowOutcome>, k: nat)
    requires k < |outcomes| && outcomes[k].Invalid?
    requires forall j :: 0 <= j < k ==> outcomes[j].Valid?
    ensures FirstFailure(outcomes) == Err(k + 1, outcomes[k].kind)
  {
  }

  /** Column count: a row that does not have exactly seven columns, after
      rows that all passed, fails as malformed under its own row number. */
  lemma MalformedRowReported(rows: seq<Row>, k: nat, parseDate: string -> Option<Instant>, validEmail: string -> bool)
    requires k < |rows| && |rows[k]| != ColumnCount
    requires forall j :: 0 <= j < k ==> ValidateRow(rows[j], parseDate, validEmail).Valid?
    ensures Validate(rows, parseDate, validEmail) == Err(k + 1, MalformedRow)
  {
    FirstInvalidRowReported(rows, k, parseDate, validEmail);
  }

  /** The person link attached to a new contribution for its speaker. */
  datatype PersonLink = PersonLink(person: SpeakerData, isSpeaker: bool)

  /** A created contribution: the fields it was created with and its person links. */
  datatype Contribution = Contribution(fields: ContributionFields, personLinks: seq<PersonLink>)

  /** The calls into the ORM the import makes, in the order it makes them. */
  datatype OrmCall =
    | AllocateFriendlyIds(count: nat)
    | CreateContribution(fields: ContributionFields)
    | GetEventPerson(person: SpeakerData)

  /** What the import ends with: the created contributions, or the exception
      that stopped it at the given row (a `UserValueError`, or for
      `DurationOverflow` the uncaught `OverflowError`). */
  datatype ImportOutcome = Imported(contributions: seq<Contribution>) | Rejected(row: nat, kind: ErrorKind)

  /** The contribution the creation pass makes from one record. */
  function Created(rec: Record): Contribution {
    Contribution(rec.fields, if rec.speaker.email == "" then [] else [PersonLink(rec.speaker, true)])
  }

  /** The ORM calls the creation pass makes for one record. */
  function CallsFor(rec: Record): seq<OrmCall> {
    [CreateContribution(rec.fields)] + if rec.speaker.email == "" then [] else [GetEventPerson(rec.speaker)]
  }

  /** The contributions the creation pass returns. */
  function CreateAll(recs: seq<Record>): (cs: seq<Contribution>)
    ensures |cs| == |recs|
    ensures forall i :: 0 <= i < |recs| ==> cs[i] == Created(recs[i])
  {
    if recs == [] then [] else CreateAll(recs[..|recs| - 1]) + [Created(recs[|recs| - 1])]
  }

  /** All ORM calls of the creation pass. */
  function CreationCalls(recs: seq<Record>): seq<OrmCall> {
    if recs == [] then [] else CreationCalls(recs[..|recs| - 1]) + CallsFor(recs[|recs| - 1])
  }

  /** One more valid outcome extends the records of a valid prefix. */
  lemma FirstFailureAccept(outcomes: seq<RowOutcome>, n: nat, recs: seq<Record>, rec: Record)
    requires n < |outcomes| && FirstFailure(outcomes[..n]) == Ok(recs) && outcomes[n] == Valid(rec)
    ensures FirstFailure(outcomes[..n + 1]) == Ok(recs + [rec])
  {
    assert outcomes[..n + 1][..n] == outcomes[..n];
  }

  /** An invalid outcome after a valid prefix is the failure of them all. */
  lemma FirstFailureReject(outcomes: seq<RowOutcome>, n: nat, kind: ErrorKind)
    requires n < |outcomes| && FirstFailure(outcomes[..n]).Ok? && outcomes[n] == Invalid(kind)
    ensures FirstFailure(outcomes) == Err(n + 1, kind)
  {
    assert outcomes[..n + 1][..n] == outcomes[..n];
    FirstFailurePrefix(outcomes, n + 1);
  }

  /** One pass of the validation loop's body, written as the source writes
      it: the checks of `CheckFields` in turn, leaving at the first one that
      fails, as the source leaves by raising. */
  method CheckRow(row: Row, parseDate: string -> Option<Instant>, validEmail: string -> bool)
    returns (outcome: RowOutcome)
    ensures outcome == ValidateRow(row, parseDate, validEmail)
  {
    if |row| != ColumnCount {
      return Invalid(MalformedRow);
    }
    var f := Normalise(row);
    var parsedStart: Option<Instant> := None;
    if f.startDt != "" {
      parsedStart := parseDate(f.startDt);
      if parsedStart.None? {
        return Invalid(BadDate(f.startDt));
      }
    }
    var parsedDuration: Option<int> := None;
    if f.duration != "" {
      parsedDuration := ParseInt(f.duration);
      if parsedDuration.None? {
        return Invalid(BadDuration(f.duration));
      }
      if !InTimedeltaRange(parsedDuration.value) {
        return Invalid(DurationOverflow(f.duration));
      }
    }
    if f.title == "" {
      return Invalid(MissingTitle);
    }
    if f.email != "" && !validEmail(f.email) {
      return Invalid(BadEmail(f.email));
    }
    var minutes := if parsedDuration.None? || parsedDuration.value == 0 then DefaultDurationMinutes
                   else parsedDuration.value;
    outcome := Valid(Record(ContributionFields(parsedStart, minutes, f.title),
                            SpeakerData(f.firstName, f.lastName, f.affiliation, f.email)));
  }

  /** The first loop of `import_contributions_from_csv`: it builds
      `contrib_data` row by row and raises at the first invalid row. */
  method ValidateRows(rows: seq<Row>, parseDate: string -> Option<Instant>, validEmail: string -> bool)
    returns (v: Validation)
    ensures v == Validate(rows, parseDate, validEmail)
  {
    ghost var outcomes := RowOutcomes(rows, parseDate, validEmail);
    var contribData: seq<Record> := [];
    var numRow := 1;
    while numRow <= |rows|
      invariant 1 <= numRow <= |rows| + 1
      invariant FirstFailure(outcomes[..numRow - 1]) == Ok(contribData)
    {
      var outcome := CheckRow(rows[numRow - 1], parseDate, validEmail);
      RowOutcomeAt(rows, numRow - 1, parseDate, validEmail);
      if outcome.Invalid? {
        FirstFailureReject(outcomes, numRow - 1, outcome.kind);
        return Err(numRow, outcome.kind);
      }
      FirstFailureAccept(outcomes, numRow - 1, contribData, outcome.record);
      contribData := contribData + [outcome.record];
      numRow := numRow + 1;
    }
    assert outcomes[..numRow - 1] == outcomes;
    v := Ok(contribData);
  }

  /** The second loop of `import_contributions_from_csv`: one contribution
      per record, in order, each followed by its speaker link when the
      record has an email. */
  method CreateContributions(contribData: seq<Record>) returns (contributions: seq<Contribution>, calls: seq<OrmCall>)
    ensures contributions == CreateAll(contribData)
    ensures calls == CreationCalls(contribData)
  {
    calls := [];
    contributions := [];
    var i := 0;
    while i < |contribData|
      invariant 0 <= i <= |contribData|
      invariant contributions == CreateAll(contribData[..i])
      invariant calls == CreationCalls(contribData[..i])
    {
      var fields, speaker := contribData[i].fields, contribData[i].speaker;
      calls := calls + [CreateContribution(fields)];
      var personLinks: seq<PersonLink> := [];
      if speaker.email != "" {
        calls := calls + [GetEventPerson(speaker)];
        personLinks := personLinks + [PersonLink(speaker, true)];
      }
      assert Created(contribData[i]) == Contribution(fields, personLinks);
      contributions := contributions + [Contribution(fields, personLinks)];
      assert contribData[..i + 1][..i] == contribData[..i];
      i := i + 1;
    }
    assert contribData[..i] == contribData;
  }

  /** `import_contributions_from_csv`: validate every row, and only then
      pre-allocate the friendly ids and create the contributions. */
  method ImportContributionsFromCsv(rows: seq<Row>, parseDate: string -> Option<Instant>, validEmail: string -> bool)
    returns (outcome: ImportOutcome, calls: seq<OrmCall>)
    ensures var v := Validate(rows, parseDate, validEmail);
            v.Err? ==> outcome == Rejected(v.row, v.kind) && calls == []
    ensures var v := Validate(rows, parseDate, validEmail);
            v.Ok? ==> && outcome == Imported(CreateAll(v.records))
                      && calls == [AllocateFriendlyIds(|v.records|)] + CreationCalls(v.records)
  {
    var v := ValidateRows(rows, parseDate, validEmail);
    if v.Err? {
      return Rejected(v.row, v.kind), [];
    }
    // the data is known to be good: pre-allocate the friendly ids, then create
    var contributions, creationCalls := CreateContributions(v.records);
    outcome := Imported(contributions);
    calls := [AllocateFriendlyIds(|v.records|)] + creationCalls;
  }

  /** The number of `CreateContribution` calls in a call sequence. */
  function CreateCount(calls: seq<OrmCall>): nat {
    if calls == [] then 0
    else CreateCount(calls[..|calls| - 1]) + if calls[|calls| - 1].CreateContribution? then 1 else 0
  }

  lemma {:induction false} CreateCountAppend(a: seq<OrmCall>, b: seq<OrmCall>)
    ensures CreateCount(a + b) == CreateCount(a) + CreateCount(b)
  {
    if b != [] {
      var n := |b| - 1;
      assert (a + b)[..|a + b| - 1] == a + b[..n];
      CreateCountAppend(a, b[..n]);
    } else {
      assert a + b == a;
    }
  }

  /** The creation pass creates exactly one contribution per record and
      allocates no friendly ids of its own. */
  lemma {:induction false} CreationCallsShape(recs: seq<Record>)
    ensures CreateCount(CreationCalls(recs)) == |recs|
    ensures forall k :: 0 <= k < |CreationCalls(recs)| ==> !CreationCalls(recs)[k].AllocateFriendlyIds?
  {
    if recs != [] {
      var p := recs[..|recs| - 1];
      var last := recs[|recs| - 1];
      CreationCallsShape(p);
      CreateCountAppend(CreationCalls(p), CallsFor(last));
      assert CreateCount(CallsFor(last)) == 1 by {
        var create := [CreateContribution(last.fields)];
        assert create[..0] == [];
        assert CreateCount(create) == 1;
        if last.speaker.email == "" {
          assert CallsFor(last) == create;
        } else {
          var c := create + [GetEventPerson(last.speaker)];
          assert CallsFor(last) == c;
          assert c[..|c| - 1] == create;
        }
      }
    }
  }

  /** Validate, then create: an accepted import first allocates exactly as
      many friendly ids as there are records, then creates exactly one
      contribution per record and allocates no more; the rejected case, which
      makes no ORM call at all, is stated by the method itself. */
  lemma ImportCalls(recs: seq<Record>)
    ensures var calls := [AllocateFriendlyIds(|recs|)] + CreationCalls(recs);
            && calls[0] == AllocateFriendlyIds(|recs|)
            && (forall k :: 1 <= k < |calls| ==> !calls[k].AllocateFriendlyIds?)
            && CreateCount(calls) == |recs| == |CreateAll(recs)|
  {
    var calls := [AllocateFriendlyIds(|recs|)] + CreationCalls(recs);
    CreationCallsShape(recs);
    CreateCountAppend([AllocateFriendlyIds(|recs|)], CreationCalls(recs));
    assert CreateCount([AllocateFriendlyIds(|recs|)]) == 0 by {
      assert [AllocateFriendlyIds(|recs|)][..0] == [];
    }
    forall k | 1 <= k < |calls| ensures !calls[k].AllocateFriendlyIds? {
      assert calls[k] == CreationCalls(recs)[k - 1];
    }
  }

  /** Creation output: contribution `j` comes from row `j + 1`, and it has a
      speaker link (with that row's person data) exactly when the row's email
      column is not blank; otherwise it has no person link at all. */
  lemma ImportedSpeakers(rows: seq<Row>, parseDate: string -> Option<Instant>, validEmail: string -> bool, j: nat)
    requires Validate(rows, parseDate, validEmail).Ok?
    requires j < |rows|
    ensures |rows[j]| == ColumnCount
    ensures var c := CreateAll(Validate(rows, parseDate, validEmail).records)[j];
            var f := Normalise(rows[j]);
            && c.fields.title == f.title != ""
            && (AllSpace(rows[j][6]) ==> c.personLinks == [])
            && (!AllSpace(rows[j][6]) ==>
                  c.personLinks == [PersonLink(SpeakerData(f.firstName, f.lastName, f.affiliation, f.email), true)])
  {
    var os := RowOutcomes(rows, parseDate, validEmail);
    RowOutcomeAt(rows, j, parseDate, validEmail);
    assert os[j].Valid?;
    NormaliseTrims(rows[j]);
    CheckFieldsRecord(Normalise(rows[j]), parseDate, validEmail);
  }
}
