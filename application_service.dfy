/** The application service: the checks and clean-up applied to the
    application and event forms before they are stored, the ghosting
    figures added to every application read back, and the dispatch between
    searching and listing. The store itself is not modelled: what it
    returns is passed in, and what it is asked to write is returned. */
module ApplicationService {
  import opened Common
  import opened CommaList

  // ---------------------------------------------------------------------
  // Ghosting
  // ---------------------------------------------------------------------

  /** An application row as the store returns it. */
  datatype ApplicationRow = ApplicationRow(
    id: string,
    role: string,
    companyId: string,
    statusId: Option<int>,
    lastUpdated: string)

  /** `populateGhostData`: the row, unchanged, with the two ghosting fields. */
  datatype GhostedApplication = GhostedApplication(
    row: ApplicationRow,
    percentGhosted: real,
    ghosted: bool)

  /** `populateGhostData` for an application last updated `daysAgo` whole
      days ago, with a ghost period of `ghostPeriod` days: ghosted once the
      period has passed, and the share of the period passed, capped at 100. */
  function PopulateGhostData(row: ApplicationRow, daysAgo: int, ghostPeriod: int)
    : (r: GhostedApplication)
    requires ghostPeriod > 0
    ensures r.row == row
    ensures r.ghosted <==> daysAgo >= ghostPeriod
    ensures r.percentGhosted <= 100.0
    ensures r.ghosted <==> r.percentGhosted == 100.0
    ensures !r.ghosted ==> r.percentGhosted * ghostPeriod as real == daysAgo as real * 100.0
  {
    var share := daysAgo as real / ghostPeriod as real * 100.0;
    GhostedApplication(row, if share < 100.0 then share else 100.0, daysAgo >= ghostPeriod)
  }

  /** The ghost bar only grows as days pass, and a ghosted application stays
      ghosted. */
  lemma GhostingMonotone(row: ApplicationRow, d1: int, d2: int, ghostPeriod: int)
    requires ghostPeriod > 0 && d1 <= d2
    ensures PopulateGhostData(row, d1, ghostPeriod).percentGhosted
            <= PopulateGhostData(row, d2, ghostPeriod).percentGhosted
    ensures PopulateGhostData(row, d1, ghostPeriod).ghosted
            ==> PopulateGhostData(row, d2, ghostPeriod).ghosted
  {
    var g := ghostPeriod as real;
    assert d1 as real / g <= d2 as real / g by {
      assert d1 as real / g * g == d1 as real;
      assert d2 as real / g * g == d2 as real;
    }
  }

  /** Ten days into a twenty-day period is half way; ten days into a ten-day
      period is ghosted. */
  lemma GhostingExamples(row: ApplicationRow)
    ensures PopulateGhostData(row, 10, 20).percentGhosted == 50.0
    ensures !PopulateGhostData(row, 10, 20).ghosted
    ensures PopulateGhostData(row, 10, 10).percentGhosted == 100.0
    ensures PopulateGhostData(row, 10, 10).ghosted
  {
  }

  // ---------------------------------------------------------------------
  // Dates
  // ---------------------------------------------------------------------

  predicate IsAsciiDigit(c: char) {
    '0' <= c <= '9'
  }

  predicate AllAsciiDigits(s: string) {
    forall i :: 0 <= i < |s| ==> IsAsciiDigit(s[i])
  }

  /** `/^\d{4}-\d{2}-\d{2}$/`: ten characters, dashes at 4 and 7, digits
      elsewhere. */
  predicate ValidDateFormat(s: string) {
    |s| == 10 && s[4] == '-' && s[7] == '-'
    && forall i :: 0 <= i < 10 && i != 4 && i != 7 ==> IsAsciiDigit(s[i])
  }

  /** The pattern read as its parts: four digits, a dash, two digits, a dash
      and two digits make a date of the format ... */
  lemma ValidDateFormatJoin(y: string, m: string, d: string)
    requires |y| == 4 && |m| == 2 && |d| == 2
    requires AllAsciiDigits(y) && AllAsciiDigits(m) && AllAsciiDigits(d)
    ensures ValidDateFormat(y + "-" + m + "-" + d)
  {
    var s := y + "-" + m + "-" + d;
    assert forall i :: 0 <= i < 4 ==> s[i] == y[i];
    assert forall i :: 5 <= i < 7 ==> s[i] == m[i - 5];
    assert forall i :: 8 <= i < 10 ==> s[i] == d[i - 8];
  }

  /** ... and every date of that format is made of those parts. */
  lemma ValidDateFormatSplit(s: string)
    requires ValidDateFormat(s)
    ensures AllAsciiDigits(s[..4]) && AllAsciiDigits(s[5..7]) && AllAsciiDigits(s[8..])
    ensures s == s[..4] + "-" + s[5..7] + "-" + s[8..]
  {
    assert forall i :: 0 <= i < 2 ==> s[5..7][i] == s[5 + i];
    assert forall i :: 0 <= i < 2 ==> s[8..][i] == s[8 + i];
  }

  /** A five-digit year fails. */
  lemma FiveDigitYearRejected()
    ensures !ValidDateFormat(Trim("20255-02-20"))
  {
    var s := "20255-02-20";
    assert !IsWhitespace(s[0]) && !IsWhitespace(s[|s| - 1]);
    TrimPadded("", s, "");
    assert "" + s + "" == s;
  }

  /** Surrounding blanks are trimmed before validation. */
  lemma PaddedDateAccepted()
    ensures ValidDateFormat(Trim("  2025-02-20 "))
  {
    var core := "2025-02-20";
    assert core == "2025" + "-" + "02" + "-" + "20";
    ValidDateFormatJoin("2025", "02", "20");
    assert !IsWhitespace(core[0]) && !IsWhitespace(core[9]);
    assert AllWhitespace("  ") && AllWhitespace(" ");
    assert "  2025-02-20 " == "  " + core + " ";
    TrimPadded("  ", core, " ");
  }

  // ---------------------------------------------------------------------
  // The salary range
  // ---------------------------------------------------------------------

  datatype SalaryRange = SalaryRange(high: Option<string>, low: Option<string>)

  /** The create sanitizer's swap as the code has it: the two are exchanged
      when the low one is less than the high one as strings. */
  function SwapSalariesAsWritten(range: SalaryRange): (r: SalaryRange)
    ensures Present(r.low) && Present(r.high) ==> !StringLess(r.low.value, r.high.value)
    ensures multiset{r.high, r.low} == multiset{range.high, range.low}
    ensures !(Present(range.low) && Present(range.high)) ==> r == range
    ensures (Present(range.low) && Present(range.high)
             && !StringLess(range.low.value, range.high.value)) ==> r == range
  {
    if Present(range.low) && Present(range.high)
       && StringLess(range.low.value, range.high.value)
    then
      StringLessAsymmetric(range.low.value, range.high.value);
      SalaryRange(range.low, range.high)
    else range
  }

  /** A range already in order, 50 to 60, comes out reversed. */
  lemma SwapSalariesAsWrittenReverses()
    ensures SwapSalariesAsWritten(SalaryRange(Some("60"), Some("50")))
            == SalaryRange(Some("50"), Some("60"))
  {
    assert StringLess("50", "60");
  }

  /** The amount a salary string stands for, when it is a plain run of
      digits. */
  function SalaryAmount(s: Option<string>): Option<nat> {
    if s.Some? && IsDigits(s.value) then Some(DigitsValue(s.value)) else None
  }

  /** The swap as intended: a low amount above the high amount is
      exchanged, so the range runs from low to high. */
  function OrderSalaries(range: SalaryRange): (r: SalaryRange)
    ensures SalaryAmount(r.low).Some? && SalaryAmount(r.high).Some? ==>
            SalaryAmount(r.low).value <= SalaryAmount(r.high).value
    ensures multiset{r.high, r.low} == multiset{range.high, range.low}
    ensures SalaryAmount(range.low).None? || SalaryAmount(range.high).None? ==> r == range
  {
    var low := SalaryAmount(range.low);
    var high := SalaryAmount(range.high);
    if low.Some? && high.Some? && low.value > high.value then SalaryRange(range.low, range.high)
    else range
  }

  /** Ordering an ordered range changes nothing. */
  lemma OrderSalariesIdempotent(range: SalaryRange)
    ensures OrderSalaries(OrderSalaries(range)) == OrderSalaries(range)
  {
  }

  /** The service's first example, 50 000 to 100 000, is left alone by
      both swaps. */
  lemma SalaryExampleKept()
    ensures SwapSalariesAsWritten(SalaryRange(Some("100000"), Some("50000")))
            == OrderSalaries(SalaryRange(Some("100000"), Some("50000")))
            == SalaryRange(Some("100000"), Some("50000"))
  {
    assert !StringLess("50000", "100000");
    ExampleAmounts();
  }

  /** Its second, low 100 and high 50, is turned round by both. */
  lemma SalaryExampleTurned()
    ensures SwapSalariesAsWritten(SalaryRange(Some("50"), Some("100")))
            == OrderSalaries(SalaryRange(Some("50"), Some("100")))
            == SalaryRange(Some("100"), Some("50"))
  {
    assert StringLess("100", "50");
    ExampleAmounts();
  }

  /** The amounts of the digit strings the salary examples use. */
  lemma ExampleAmounts()
    ensures IsDigits("50") && DigitsValue("50") == 50
    ensures IsDigits("60") && DigitsValue("60") == 60
    ensures IsDigits("100") && DigitsValue("100") == 100
    ensures IsDigits("50000") && DigitsValue("50000") == 50000
    ensures IsDigits("100000") && DigitsValue("100000") == 100000
  {
    assert "50"[..1] == "5" && "60"[..1] == "6" && "5"[..0] == "" && "6"[..0] == "";
    assert "100"[..2] == "10" && "10"[..1] == "1" && "1"[..0] == "";
    assert "50000"[..4] == "5000" && "5000"[..3] == "500" && "500"[..2] == "50";
    assert "100000"[..5] == "10000" && "10000"[..4] == "1000" && "1000"[..3] == "100";
  }

  /** On 50 to 60 they part: the code reverses an ordered range, the
      intended swap leaves it alone. */
  lemma SalarySwapDiscrepancy()
    ensures SwapSalariesAsWritten(SalaryRange(Some("60"), Some("50")))
            != OrderSalaries(SalaryRange(Some("60"), Some("50")))
  {
    SwapSalariesAsWrittenReverses();
    ExampleAmounts();
  }

  // ---------------------------------------------------------------------
  // Application forms
  // ---------------------------------------------------------------------

  /** The application form: a missing field is `None`. Salaries arrive as
      the strings `toString` gives. */
  datatype ApplicationInput = ApplicationInput(
    role: Option<string>,
    companyId: Option<string>,
    postUrl: Option<string>,
    salaryRangeHigh: Option<string>,
    salaryRangeLow: Option<string>,
    dateApplied: Option<string>,
    notes: Option<string>,
    initialEventId: Option<int>)

  /** The create form after sanitizing. */
  datatype NewApplication = NewApplication(
    role: string,
    companyId: string,
    postUrl: Option<string>,
    salaryRangeHigh: Option<string>,
    salaryRangeLow: Option<string>,
    dateApplied: string,
    notes: Option<string>,
    initialEventId: int)

  /** The fields an application update writes. */
  datatype ApplicationChanges = ApplicationChanges(
    role: string,
    companyId: string,
    postUrl: Option<string>,
    salaryRangeHigh: Option<string>,
    salaryRangeLow: Option<string>)

  /** `validateAndSanitizeCreateApplicationInput`: the first missing field in
      the order role, company, date, initial event decides the error, then
      the trimmed date must have the date format. The clean-up trims the
      required fields, turns blank optional ones into null, and swaps the
      salary range on string `<` as the code does. */
  function ValidateAndSanitizeCreate(input: ApplicationInput): (r: Result<NewApplication>)
    ensures r == Err(Thrown("Role is required")) <==> !Present(input.role)
    ensures r == Err(Thrown("Company is required")) <==>
      Present(input.role) && !Present(input.companyId)
    ensures r == Err(Thrown("Date is required")) <==>
      Present(input.role) && Present(input.companyId) && !Present(input.dateApplied)
    ensures r == Err(Thrown("Initial event id is required")) <==>
      Present(input.role) && Present(input.companyId) && Present(input.dateApplied)
      && !TruthyId(input.initialEventId)
    ensures r == Err(Thrown("Invalid date format")) <==>
      Present(input.role) && Present(input.companyId) && Present(input.dateApplied)
      && TruthyId(input.initialEventId) && !ValidDateFormat(Trim(input.dateApplied.value))
    ensures r.Ok? ==>
      input.role.Some? && r.value.role == Trim(input.role.value)
      && input.companyId.Some? && r.value.companyId == Trim(input.companyId.value)
      && input.dateApplied.Some? && r.value.dateApplied == Trim(input.dateApplied.value)
      && ValidDateFormat(r.value.dateApplied)
      && TruthyId(Some(r.value.initialEventId)) && input.initialEventId == Some(r.value.initialEventId)
      && r.value.postUrl == TrimOrNull(input.postUrl)
      && r.value.notes == TrimOrNull(input.notes)
      && SalaryRange(r.value.salaryRangeHigh, r.value.salaryRangeLow)
         == SwapSalariesAsWritten(SalaryRange(TrimOrNull(input.salaryRangeHigh),
                                              TrimOrNull(input.salaryRangeLow)))
  {
    if !Present(input.role) then Err(Thrown("Role is required"))
    else if !Present(input.companyId) then Err(Thrown("Company is required"))
    else if !Present(input.dateApplied) then Err(Thrown("Date is required"))
    else if !TruthyId(input.initialEventId) then Err(Thrown("Initial event id is required"))
    else if !ValidDateFormat(Trim(input.dateApplied.value)) then Err(Thrown("Invalid date format"))
    else
      var range := SwapSalariesAsWritten(SalaryRange(TrimOrNull(input.salaryRangeHigh),
                                                     TrimOrNull(input.salaryRangeLow)));
      Ok(NewApplication(Trim(input.role.value), Trim(input.companyId.value),
                        TrimOrNull(input.postUrl), range.high, range.low,
                        Trim(input.dateApplied.value), TrimOrNull(input.notes),
                        input.initialEventId.value))
  }

  /** The form a sanitized application would be submitted as. */
  function AsInput(a: NewApplication): ApplicationInput {
    ApplicationInput(Some(a.role), Some(a.companyId), a.postUrl, a.salaryRangeHigh,
                     a.salaryRangeLow, Some(a.dateApplied), a.notes, Some(a.initialEventId))
  }

  /** Values that are already trimmed or null stay so when the range is
      swapped. */
  lemma SwapKeepsTrimmed(range: SalaryRange)
    requires TrimOrNull(range.high) == range.high && TrimOrNull(range.low) == range.low
    ensures TrimOrNull(SwapSalariesAsWritten(range).high) == SwapSalariesAsWritten(range).high
    ensures TrimOrNull(SwapSalariesAsWritten(range).low) == SwapSalariesAsWritten(range).low
  {
  }

  /** A swapped range is not swapped again. */
  lemma SwapSalariesAsWrittenIdempotent(range: SalaryRange)
    ensures SwapSalariesAsWritten(SwapSalariesAsWritten(range)) == SwapSalariesAsWritten(range)
  {
  }

  /** An input that passes every check is cleaned up field by field. */
  lemma CreateAccepts(x: ApplicationInput)
    requires Present(x.role) && Present(x.companyId) && Present(x.dateApplied)
    requires TruthyId(x.initialEventId) && ValidDateFormat(Trim(x.dateApplied.value))
    ensures var range := SwapSalariesAsWritten(SalaryRange(TrimOrNull(x.salaryRangeHigh),
                                                           TrimOrNull(x.salaryRangeLow)));
      ValidateAndSanitizeCreate(x)
      == Ok(NewApplication(Trim(x.role.value), Trim(x.companyId.value), TrimOrNull(x.postUrl),
                           range.high, range.low, Trim(x.dateApplied.value),
                           TrimOrNull(x.notes), x.initialEventId.value))
  {
  }

  /** Sanitizing is idempotent: a sanitized application with a non-blank
      role and company passes again unchanged. */
  lemma SanitizeCreateIdempotent(input: ApplicationInput)
    requires ValidateAndSanitizeCreate(input).Ok?
    requires var a := ValidateAndSanitizeCreate(input).value; a.role != "" && a.companyId != ""
    ensures var a := ValidateAndSanitizeCreate(input).value;
      ValidateAndSanitizeCreate(AsInput(a)) == Ok(a)
  {
    var a := ValidateAndSanitizeCreate(input).value;
    TrimIdempotent(input.role.value);
    TrimIdempotent(input.companyId.value);
    TrimIdempotent(input.dateApplied.value);
    TrimOrNullIdempotent(input.postUrl);
    TrimOrNullIdempotent(input.notes);
    TrimOrNullIdempotent(input.salaryRangeHigh);
    TrimOrNullIdempotent(input.salaryRangeLow);
    var raw := SalaryRange(TrimOrNull(input.salaryRangeHigh), TrimOrNull(input.salaryRangeLow));
    var range := SalaryRange(a.salaryRangeHigh, a.salaryRangeLow);
    assert range == SwapSalariesAsWritten(raw);
    SwapKeepsTrimmed(raw);
    SwapSalariesAsWrittenIdempotent(raw);
    var again := SalaryRange(TrimOrNull(a.salaryRangeHigh), TrimOrNull(a.salaryRangeLow));
    assert again == range;
    assert SwapSalariesAsWritten(again) == range;
    assert a.dateApplied != "" by {
      assert ValidDateFormat(a.dateApplied);
    }
    var x := AsInput(a);
    assert Trim(x.role.value) == a.role && Trim(x.companyId.value) == a.companyId;
    assert Trim(x.dateApplied.value) == a.dateApplied;
    assert TrimOrNull(x.postUrl) == a.postUrl && TrimOrNull(x.notes) == a.notes;
    CreateAccepts(x);
  }

  /** The create sanitizer as intended: the same checks and clean-up, with
      the salary range ordered by amount. It fails exactly when the code
      does, and otherwise differs from it in the salary pair alone, which
      holds the same two values, low first when both are amounts. */
  function ValidateAndSanitizeCreateIntended(input: ApplicationInput): (r: Result<NewApplication>)
    ensures r.Err? <==> ValidateAndSanitizeCreate(input).Err?
    ensures r.Err? ==> r == ValidateAndSanitizeCreate(input)
    ensures r.Ok? ==>
      var a := ValidateAndSanitizeCreate(input).value;
      var range := SalaryRange(r.value.salaryRangeHigh, r.value.salaryRangeLow);
      r.value == a.(salaryRangeHigh := range.high, salaryRangeLow := range.low)
      && multiset{range.high, range.low} == multiset{a.salaryRangeHigh, a.salaryRangeLow}
      && (SalaryAmount(range.low).Some? && SalaryAmount(range.high).Some? ==>
            SalaryAmount(range.low).value <= SalaryAmount(range.high).value)
  {
    var v := ValidateAndSanitizeCreate(input);
    if v.Err? then v
    else
      var range := OrderSalaries(SalaryRange(TrimOrNull(input.salaryRangeHigh),
                                             TrimOrNull(input.salaryRangeLow)));
      Ok(v.value.(salaryRangeHigh := range.high, salaryRangeLow := range.low))
  }

  /** `validateAndSanitizeUpdateApplicationInput`: only role and company are
      required; the same trimming, and no salary swap. */
  function ValidateAndSanitizeUpdate(input: ApplicationInput): (r: Result<ApplicationChanges>)
    ensures r == Err(Thrown("Role is required")) <==> !Present(input.role)
    ensures r == Err(Thrown("Company is required")) <==>
      Present(input.role) && !Present(input.companyId)
    ensures r.Ok? <==> Present(input.role) && Present(input.companyId)
    ensures r.Ok? ==>
      r.value.role == Trim(input.role.value) && r.value.companyId == Trim(input.companyId.value)
      && r.value.postUrl == TrimOrNull(input.postUrl)
      && r.value.salaryRangeHigh == TrimOrNull(input.salaryRangeHigh)
      && r.value.salaryRangeLow == TrimOrNull(input.salaryRangeLow)
  {
    if !Present(input.role) then Err(Thrown("Role is required"))
    else if !Present(input.companyId) then Err(Thrown("Company is required"))
    else
      Ok(ApplicationChanges(Trim(input.role.value), Trim(input.companyId.value),
                            TrimOrNull(input.postUrl), TrimOrNull(input.salaryRangeHigh),
                            TrimOrNull(input.salaryRangeLow)))
  }

  /** The row `insertApplication` is given, and the first event. */
  datatype ApplicationInsert = ApplicationInsert(
    companyId: string,
    role: string,
    postUrl: Option<string>,
    salaryRangeHigh: Option<string>,
    salaryRangeLow: Option<string>)

  datatype EventInsert = EventInsert(
    applicationId: string,
    date: string,
    notes: Option<string>,
    applicationStateId: Option<int>)

  /** `createNewApplication` up to the two inserts: the application row, and
      its first event under the id the store gave the row. */
  function CreateNewApplication(input: ApplicationInput, newId: string)
    : (r: Result<(ApplicationInsert, EventInsert)>)
    ensures r.Err? <==> ValidateAndSanitizeCreate(input).Err?
    ensures r.Err? ==> r.failure == ValidateAndSanitizeCreate(input).failure
    ensures r.Ok? ==>
      var a := ValidateAndSanitizeCreate(input).value;
      r.value.0 == ApplicationInsert(a.companyId, a.role, a.postUrl,
                                     a.salaryRangeHigh, a.salaryRangeLow)
      && r.value.1 == EventInsert(newId, a.dateApplied, a.notes, Some(a.initialEventId))
  {
    var v := ValidateAndSanitizeCreate(input);
    if v.Err? then Err(v.failure)
    else
      var a := v.value;
      Ok((ApplicationInsert(a.companyId, a.role, a.postUrl, a.salaryRangeHigh, a.salaryRangeLow),
          EventInsert(newId, a.dateApplied, a.notes, Some(a.initialEventId))))
  }

  /** `updateApplication`: a falsy id fails before the form is looked at. */
  function UpdateApplication(id: Option<string>, input: ApplicationInput)
    : (r: Result<(string, ApplicationChanges)>)
    ensures r == Err(Thrown("Application Id is required")) <==> !Present(id)
    ensures Present(id) ==>
      (r.Ok? <==> ValidateAndSanitizeUpdate(input).Ok?)
      && (r.Ok? ==> r.value == (id.value, ValidateAndSanitizeUpdate(input).value))
      && (r.Err? ==> r.failure == ValidateAndSanitizeUpdate(input).failure)
  {
    if !Present(id) then Err(Thrown("Application Id is required"))
    else
      var v := ValidateAndSanitizeUpdate(input);
      if v.Err? then Err(v.failure) else Ok((id.value, v.value))
  }

  // ---------------------------------------------------------------------
  // Event forms
  // ---------------------------------------------------------------------

  datatype EventInput = EventInput(
    applicationId: Option<string>,
    date: Option<string>,
    notes: Option<string>,
    applicationStateId: Option<int>)

  /** The fields an event update writes. */
  datatype EventChanges = EventChanges(date: string, notes: Option<string>)

  /** `validateAndSanitizeNewEventInput`: application id, then date, then
      format; the date trimmed, blank notes null. */
  function ValidateAndSanitizeNewEvent(input: EventInput): (r: Result<EventInsert>)
    ensures r == Err(Thrown("Application Id is required")) <==> !Present(input.applicationId)
    ensures r == Err(Thrown("Date is required")) <==>
      Present(input.applicationId) && !Present(input.date)
    ensures r == Err(Thrown("Invalid date format")) <==>
      Present(input.applicationId) && Present(input.date) && !ValidDateFormat(Trim(input.date.value))
    ensures r.Ok? <==>
      Present(input.applicationId) && Present(input.date) && ValidDateFormat(Trim(input.date.value))
    ensures r.Ok? ==>
      input.applicationId == Some(r.value.applicationId) && input.date.Some?
      && r.value.date == Trim(input.date.value) && ValidDateFormat(r.value.date)
      && r.value.notes == TrimOrNull(input.notes)
      && r.value.applicationStateId == input.applicationStateId
  {
    if !Present(input.applicationId) then Err(Thrown("Application Id is required"))
    else if !Present(input.date) then Err(Thrown("Date is required"))
    else if !ValidDateFormat(Trim(input.date.value)) then Err(Thrown("Invalid date format"))
    else
      Ok(EventInsert(input.applicationId.value, Trim(input.date.value), TrimOrNull(input.notes),
                     input.applicationStateId))
  }

  /** `validateAndSanitizeUpdateEventInput`: date, then format. */
  function ValidateAndSanitizeUpdateEvent(input: EventInput): (r: Result<EventChanges>)
    ensures r == Err(Thrown("Date is required")) <==> !Present(input.date)
    ensures r == Err(Thrown("Invalid date format")) <==>
      Present(input.date) && !ValidDateFormat(Trim(input.date.value))
    ensures r.Ok? <==> Present(input.date) && ValidDateFormat(Trim(input.date.value))
    ensures r.Ok? ==>
      r.value.date == Trim(input.date.value) && r.value.notes == TrimOrNull(input.notes)
  {
    if !Present(input.date) then Err(Thrown("Date is required"))
    else if !ValidDateFormat(Trim(input.date.value)) then Err(Thrown("Invalid date format"))
    else Ok(EventChanges(Trim(input.date.value), TrimOrNull(input.notes)))
  }

  /** `updateEvent`: a falsy event id fails before the form is looked at. */
  function UpdateEvent(eventId: Option<int>, input: EventInput): (r: Result<(int, EventChanges)>)
    ensures r == Err(Thrown("eventId is required")) <==> !TruthyId(eventId)
    ensures TruthyId(eventId) ==>
      (r.Ok? <==> ValidateAndSanitizeUpdateEvent(input).Ok?)
      && (r.Ok? ==> r.value == (eventId.value, ValidateAndSanitizeUpdateEvent(input).value))
      && (r.Err? ==> r.failure == ValidateAndSanitizeUpdateEvent(input).failure)
  {
    if !TruthyId(eventId) then Err(Thrown("eventId is required"))
    else
      var v := ValidateAndSanitizeUpdateEvent(input);
      if v.Err? then Err(v.failure) else Ok((eventId.value, v.value))
  }

  /** An event date is stored only in the checked, trimmed form, whether it
      comes with a new event or with an update. */
  lemma StoredDatesAreValid(input: EventInput, eventId: Option<int>)
    ensures ValidateAndSanitizeNewEvent(input).Ok? ==>
      ValidDateFormat(ValidateAndSanitizeNewEvent(input).value.date)
    ensures UpdateEvent(eventId, input).Ok? ==>
      ValidDateFormat(UpdateEvent(eventId, input).value.1.date)
    ensures ValidateAndSanitizeNewEvent(input).Ok? ==>
      ValidateAndSanitizeUpdateEvent(input).Ok?
      && ValidateAndSanitizeUpdateEvent(input).value.date
         == ValidateAndSanitizeNewEvent(input).value.date
  {
  }

  // ---------------------------------------------------------------------
  // Reading applications
  // ---------------------------------------------------------------------

  /** An event row as the store returns it. */
  datatype EventRow = EventRow(id: int, date: string, notes: Option<string>,
                               applicationStateId: Option<int>)

  datatype ApplicationDetails = ApplicationDetails(application: GhostedApplication,
                                                   events: seq<EventRow>)

  /** `getApplicationById` over what the store returned for the id: nothing
      fails with 'Application not found'; a row comes back with its ghosting
      figures and its events. */
  function GetApplicationById(found: Option<ApplicationRow>, daysAgo: int, ghostPeriod: int,
                              events: seq<EventRow>): (r: Result<ApplicationDetails>)
    requires ghostPeriod > 0
    ensures r.Err? <==> found.None?
    ensures r.Err? ==> r.failure == Thrown("Application not found")
    ensures r.Ok? ==> r.value.application.row == found.value && r.value.events == events
                      && (r.value.application.ghosted <==> daysAgo >= ghostPeriod)
                      && r.value.application == PopulateGhostData(found.value, daysAgo, ghostPeriod)
  {
    if found.None? then Err(Thrown("Application not found"))
    else Ok(ApplicationDetails(PopulateGhostData(found.value, daysAgo, ghostPeriod), events))
  }

  /** Which query `getApplications` runs. */
  datatype ApplicationQuery = SearchApplications(text: string) | ActiveApplications

  /** `getApplications`: a non-empty search text searches, anything else
      lists the active applications; either way each row gets its ghosting
      figures. `daysAgo` gives each row's age in whole days. */
  function GetApplications(searchText: Option<string>, searched: seq<ApplicationRow>,
                           active: seq<ApplicationRow>, daysAgo: ApplicationRow -> int,
                           ghostPeriod: int)
    : (r: (ApplicationQuery, seq<GhostedApplication>))
    requires ghostPeriod > 0
    ensures r.0 == ActiveApplications <==> !Present(searchText)
    ensures r.0.SearchApplications? ==> r.0.text == searchText.value
    ensures var rows := if Present(searchText) then searched else active;
      |r.1| == |rows|
      && forall i :: 0 <= i < |rows| ==>
           r.1[i].row == rows[i] && (r.1[i].ghosted <==> daysAgo(rows[i]) >= ghostPeriod)
           && r.1[i] == PopulateGhostData(rows[i], daysAgo(rows[i]), ghostPeriod)
  {
    var query := if Present(searchText) then SearchApplications(searchText.value)
                 else ActiveApplications;
    var rows := if Present(searchText) then searched else active;
    (query, seq(|rows|, i requires 0 <= i < |rows| =>
                          PopulateGhostData(rows[i], daysAgo(rows[i]), ghostPeriod)))
  }
}
