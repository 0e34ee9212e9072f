/** The field-by-field comparison of a rental agreement with the values the
    user entered (`pushResult`, `compareRentalFields`), the narrative built
    from it (`generateAnalysis`), and the checks of the verification request
    before the comparison runs. */
module Verification {
  import opened JsStrings
  import opened Patterns
  import opened Helpers
  import opened Extraction
  import opened Layout

  // ------------------------------------------------------------ one field

  /** The outcome for one field. */
  datatype Status = NotFound | Match | Mismatch | Found

  /** The label the report shows for a status. */
  function StatusText(s: Status): string {
    match s
    case NotFound => "\U{274C} Not Found"
    case Match => "\U{2705} Match"
    case Mismatch => "\U{274C} Mismatch"
    case Found => "\U{2139}\U{FE0F} Found"
  }

  /** One row of the report. */
  datatype Detail = Detail(field: string, userData: string, dataFromDocument: string, status: Status)

  /** The value shown for the document: the extracted value tidied, or `-`
      when nothing was extracted. */
  function DocumentValue(docValue: Option<string>): (d: string)
    ensures !Truthy(docValue) ==> d == "-"
    ensures Truthy(docValue) ==> Trimmed(d) && NoSpaceRuns(d)
    ensures Truthy(docValue) ==> NonSpace(d) == NonSpace(docValue.value)
  {
    if Truthy(docValue) then
      TidyKeepsText(docValue.value);
      Tidy(docValue.value)
    else "-"
  }

  /** The status of a field. Values are compared after normalisation, and a
      similarity above 0.7 counts as a match. */
  function Score(userData: Option<string>, dataFromDocument: string, sim: Similarity): Status {
    if dataFromDocument == "-" then NotFound
    else if !Truthy(userData) then Found
    else if sim(NormalizeForComparison(userData), NormalizeForComparison(Some(dataFromDocument))) > 0.7 then Match
    else Mismatch
  }

  /** The row `pushResult` appends. */
  function Entry(field: string, userData: Option<string>, docValue: Option<string>, sim: Similarity): (e: Detail)
    ensures e.field == field && e.dataFromDocument == DocumentValue(docValue)
    ensures e.userData == (if Truthy(userData) then userData.value else "-")
    ensures e.status == Score(userData, e.dataFromDocument, sim)
  {
    var d := DocumentValue(docValue);
    Detail(field, if Truthy(userData) then userData.value else "-", d, Score(userData, d, sim))
  }

  /** A field passes when the document confirms the user's value, or when
      the user gave no value to check. */
  predicate Passes(userData: Option<string>, status: Status) {
    status == Match || !Truthy(userData)
  }

  /** What each status means. */
  lemma ScoreMeaning(userData: Option<string>, docValue: Option<string>, sim: Similarity)
    ensures var d := DocumentValue(docValue);
      && (!Truthy(docValue) ==> Score(userData, d, sim) == NotFound)
      && (Score(userData, d, sim) == NotFound <==> d == "-")
      && (Score(userData, d, sim) == Found <==> d != "-" && !Truthy(userData))
      && (Score(userData, d, sim) == Match <==>
            d != "-" && Truthy(userData)
            && sim(NormalizeForComparison(userData), NormalizeForComparison(Some(d))) > 0.7)
      && (Score(userData, d, sim) == Mismatch <==>
            d != "-" && Truthy(userData)
            && sim(NormalizeForComparison(userData), NormalizeForComparison(Some(d))) <= 0.7)
  {
  }

  /** A field fails exactly when the user gave a value and the document
      does not confirm it: either nothing was found or it is too different. */
  lemma FailureMeaning(userData: Option<string>, docValue: Option<string>, sim: Similarity)
    ensures var e := Entry("", userData, docValue, sim);
      !Passes(userData, e.status) <==> Truthy(userData) && (e.status == NotFound || e.status == Mismatch)
  {
  }

  /** The four labels differ, so the label a row shows tells its status. */
  lemma StatusTextInjective(a: Status, b: Status)
    requires StatusText(a) == StatusText(b)
    ensures a == b
  {
    assert StatusText(NotFound)[2] != StatusText(Mismatch)[2];
  }

  /** A field fails exactly when the user gave a value and its row is
      labelled with the cross mark. */
  lemma FailedRowLabel(userData: Option<string>, docValue: Option<string>, sim: Similarity)
    ensures var e := Entry("", userData, docValue, sim);
      !Passes(userData, e.status) <==> Truthy(userData) && StatusText(e.status)[0] == '\U{274C}'
  {
  }

  /** The comparison does not see case, whitespace or punctuation in the
      user's value: two values with the same normal form get the same status. */
  lemma ScoreIgnoresFormatting(u1: Option<string>, u2: Option<string>, d: string, sim: Similarity)
    requires Truthy(u1) == Truthy(u2)
    requires NormalizeForComparison(u1) == NormalizeForComparison(u2)
    ensures Score(u1, d, sim) == Score(u2, d, sim)
  {
  }

  /** The report under construction: `details` is the array `pushResult`
      appends to. */
  class Report {
    var details: seq<Detail>

    constructor()
      ensures details == []
    {
      details := [];
    }

    /** `pushResult`: appends the row for one field and tells whether the
        field passes. */
    method PushResult(field: string, userData: Option<string>, docValue: Option<string>, sim: Similarity)
      returns (ok: bool)
      modifies this
      ensures details == old(details) + [Entry(field, userData, docValue, sim)]
      ensures ok == Passes(userData, Entry(field, userData, docValue, sim).status)
    {
      var dataFromDocument := if Truthy(docValue) then Tidy(docValue.value) else "-";
      var status := NotFound;
      var isMatch := false;
      if dataFromDocument != "-" {
        if Truthy(userData) {
          var userNorm := NormalizeForComparison(userData);
          var docNorm := NormalizeForComparison(Some(dataFromDocument));
          var similarity := sim(userNorm, docNorm);
          if similarity > 0.7 {
            status := Match;
            isMatch := true;
          } else {
            status := Mismatch;
          }
        } else {
          status := Found;
        }
      }
      details := details + [Detail(field, if Truthy(userData) then userData.value else "-", dataFromDocument, status)];
      ok := isMatch || !Truthy(userData);
    }
  }

  // ------------------------------------------------------------ six fields

  /** The six fields of a rental agreement: the values the user entered
      (the request body), or the values read from the document. */
  datatype RentalFields = RentalFields(
    rentAmount: Option<string>,
    startDate: Option<string>,
    endDate: Option<string>,
    tenantName: Option<string>,
    landlordName: Option<string>,
    propertyLocation: Option<string>)

  const RentField := "Rent Amount"
  const StartField := "Start Date"
  const EndField := "End Date"
  const TenantField := "Tenant Name"
  const LandlordField := "Landlord Name"
  const LocationField := "Property Location"

  /** The value extracted from the document for each field: rent and dates
      from the text with whitespace runs collapsed, each date from its first
      pattern or else its labelled one, the names and the location from the
      full text. */
  function DocumentValues(fullText: string, inputs: RentalFields, sim: Similarity): RentalFields {
    var oneLine := CollapseSpaces(fullText);
    RentalFields(
      ExtractValue(oneLine, RentPattern),
      Or(ExtractValue(oneLine, StartPattern), ExtractValue(oneLine, StartLabelPattern)),
      Or(ExtractValue(oneLine, EndPattern), ExtractValue(oneLine, EndLabelPattern)),
      ExtractName(fullText, Tenant, inputs.tenantName, sim),
      ExtractName(fullText, Landlord, inputs.landlordName, sim),
      Location(fullText))
  }

  /** The rows of the report, one per field in this order. */
  function Rows(user: RentalFields, doc: RentalFields, sim: Similarity): (rows: seq<Detail>)
    ensures |rows| == 6
  {
    [Entry(RentField, user.rentAmount, doc.rentAmount, sim),
     Entry(StartField, user.startDate, doc.startDate, sim),
     Entry(EndField, user.endDate, doc.endDate, sim),
     Entry(TenantField, user.tenantName, doc.tenantName, sim),
     Entry(LandlordField, user.landlordName, doc.landlordName, sim),
     Entry(LocationField, user.propertyLocation, doc.propertyLocation, sim)]
  }

  datatype Verdict = Original | Fake

  datatype Comparison = Comparison(status: Verdict, details: seq<Detail>)

  /** Every field passes. */
  predicate AllPass(user: RentalFields, rows: seq<Detail>)
    requires |rows| == 6
  {
    && Passes(user.rentAmount, rows[0].status)
    && Passes(user.startDate, rows[1].status)
    && Passes(user.endDate, rows[2].status)
    && Passes(user.tenantName, rows[3].status)
    && Passes(user.landlordName, rows[4].status)
    && Passes(user.propertyLocation, rows[5].status)
  }

  /** The comparison as a whole: one row per field, and the document is
      original exactly when every field passes. */
  ghost predicate ComparesAs(c: Comparison, fullText: string, inputs: RentalFields, sim: Similarity) {
    && c.details == Rows(inputs, DocumentValues(fullText, inputs, sim), sim)
    && (c.status == Original <==> AllPass(inputs, c.details))
  }

  /** `compareRentalFields`: the six fields are extracted and pushed one
      after the other, and any field that does not pass makes the document
      fake. */
  method CompareRentalFields(fullText: string, inputs: RentalFields, sim: Similarity) returns (result: Comparison)
    ensures ComparesAs(result, fullText, inputs, sim)
  {
    var report := new Report();
    var allMatch := true;
    var oneLine := CollapseSpaces(fullText);

    var rentMatch := ExtractValue(oneLine, RentPattern);
    var ok0 := report.PushResult(RentField, inputs.rentAmount, rentMatch, sim);
    if !ok0 { allMatch := false; }
    ghost var e0 := Entry(RentField, inputs.rentAmount, rentMatch, sim);

    var startDateMatch := Or(ExtractValue(oneLine, StartPattern), ExtractValue(oneLine, StartLabelPattern));
    var ok1 := report.PushResult(StartField, inputs.startDate, startDateMatch, sim);
    if !ok1 { allMatch := false; }
    ghost var e1 := Entry(StartField, inputs.startDate, startDateMatch, sim);

    var endDateMatch := Or(ExtractValue(oneLine, EndPattern), ExtractValue(oneLine, EndLabelPattern));
    var ok2 := report.PushResult(EndField, inputs.endDate, endDateMatch, sim);
    if !ok2 { allMatch := false; }
    ghost var e2 := Entry(EndField, inputs.endDate, endDateMatch, sim);

    var tenantMatch := ExtractName(fullText, Tenant, inputs.tenantName, sim);
    var ok3 := report.PushResult(TenantField, inputs.tenantName, tenantMatch, sim);
    if !ok3 { allMatch := false; }
    ghost var e3 := Entry(TenantField, inputs.tenantName, tenantMatch, sim);

    var landlordMatch := ExtractName(fullText, Landlord, inputs.landlordName, sim);
    var ok4 := report.PushResult(LandlordField, inputs.landlordName, landlordMatch, sim);
    if !ok4 { allMatch := false; }
    ghost var e4 := Entry(LandlordField, inputs.landlordName, landlordMatch, sim);

    var locationMatch := ExtractLocation(fullText);
    var ok5 := report.PushResult(LocationField, inputs.propertyLocation, locationMatch, sim);
    if !ok5 { allMatch := false; }
    ghost var e5 := Entry(LocationField, inputs.propertyLocation, locationMatch, sim);

    result := Comparison(if allMatch then Original else Fake, report.details);
    SixPushes(e0, e1, e2, e3, e4, e5);
    ghost var doc := RentalFields(rentMatch, startDateMatch, endDateMatch, tenantMatch, landlordMatch, locationMatch);
    assert DocumentValues(fullText, inputs, sim) == doc;
    RowsPass(inputs, doc, sim);
  }

  /** The field and the document value of each row. */
  lemma RowsShow(user: RentalFields, doc: RentalFields, sim: Similarity)
    ensures var rows := Rows(user, doc, sim);
      && rows[0].field == RentField && rows[0].dataFromDocument == DocumentValue(doc.rentAmount)
      && rows[1].field == StartField && rows[1].dataFromDocument == DocumentValue(doc.startDate)
      && rows[2].field == EndField && rows[2].dataFromDocument == DocumentValue(doc.endDate)
      && rows[3].field == TenantField && rows[3].dataFromDocument == DocumentValue(doc.tenantName)
      && rows[4].field == LandlordField && rows[4].dataFromDocument == DocumentValue(doc.landlordName)
      && rows[5].field == LocationField && rows[5].dataFromDocument == DocumentValue(doc.propertyLocation)
  {
    RowsAt(user, doc, sim);
  }

  /** The rows one by one. */
  lemma RowsAt(user: RentalFields, doc: RentalFields, sim: Similarity)
    ensures var rows := Rows(user, doc, sim);
      && rows[0] == Entry(RentField, user.rentAmount, doc.rentAmount, sim)
      && rows[1] == Entry(StartField, user.startDate, doc.startDate, sim)
      && rows[2] == Entry(EndField, user.endDate, doc.endDate, sim)
      && rows[3] == Entry(TenantField, user.tenantName, doc.tenantName, sim)
      && rows[4] == Entry(LandlordField, user.landlordName, doc.landlordName, sim)
      && rows[5] == Entry(LocationField, user.propertyLocation, doc.propertyLocation, sim)
  {
    SixAt(Entry(RentField, user.rentAmount, doc.rentAmount, sim),
          Entry(StartField, user.startDate, doc.startDate, sim),
          Entry(EndField, user.endDate, doc.endDate, sim),
          Entry(TenantField, user.tenantName, doc.tenantName, sim),
          Entry(LandlordField, user.landlordName, doc.landlordName, sim),
          Entry(LocationField, user.propertyLocation, doc.propertyLocation, sim));
  }

  /** Six rows read back one by one. */
  lemma SixAt(e0: Detail, e1: Detail, e2: Detail, e3: Detail, e4: Detail, e5: Detail)
    ensures var s := [e0, e1, e2, e3, e4, e5];
      s[0] == e0 && s[1] == e1 && s[2] == e2 && s[3] == e3 && s[4] == e4 && s[5] == e5
  {
  }

  /** Six rows pushed one by one onto an empty report. */
  lemma SixPushes(e0: Detail, e1: Detail, e2: Detail, e3: Detail, e4: Detail, e5: Detail)
    ensures [] + [e0] + [e1] + [e2] + [e3] + [e4] + [e5] == [e0, e1, e2, e3, e4, e5]
  {
  }

  /** Whether the rows pass, field by field. */
  lemma RowsPass(user: RentalFields, doc: RentalFields, sim: Similarity)
    ensures AllPass(user, Rows(user, doc, sim)) <==>
      && Passes(user.rentAmount, Entry(RentField, user.rentAmount, doc.rentAmount, sim).status)
      && Passes(user.startDate, Entry(StartField, user.startDate, doc.startDate, sim).status)
      && Passes(user.endDate, Entry(EndField, user.endDate, doc.endDate, sim).status)
      && Passes(user.tenantName, Entry(TenantField, user.tenantName, doc.tenantName, sim).status)
      && Passes(user.landlordName, Entry(LandlordField, user.landlordName, doc.landlordName, sim).status)
      && Passes(user.propertyLocation, Entry(LocationField, user.propertyLocation, doc.propertyLocation, sim).status)
  {
    RowsAt(user, doc, sim);
  }

  /** A date never holds whitespace, so tidying leaves it alone. */
  lemma DateHasNoSpace(d: string)
    requires IsDate(d)
    ensures forall k :: 0 <= k < |d| ==> !IsSpace(d[k])
  {
    if DateForm(d, 2, 2) {
      FormHasNoSpace(d, 2, 2);
    } else if DateForm(d, 2, 1) {
      FormHasNoSpace(d, 2, 1);
    } else if DateForm(d, 1, 2) {
      FormHasNoSpace(d, 1, 2);
    } else {
      FormHasNoSpace(d, 1, 1);
    }
  }

  lemma FormHasNoSpace(d: string, a: nat, b: nat)
    requires DateForm(d, a, b)
    ensures forall k :: 0 <= k < |d| ==> !IsSpace(d[k])
  {
    forall k | 0 <= k < |d| ensures !IsSpace(d[k]) {
      if k >= a + b + 2 {
        assert d[k] == d[a + b + 2..][k - (a + b + 2)];
      }
    }
  }

  /** An extracted rent is three to seven digits. */
  lemma RentValue(oneLine: string)
    requires ExtractValue(oneLine, RentPattern).Some?
    ensures var v := ExtractValue(oneLine, RentPattern).value;
      Tidy(v) == v && 3 <= |v| <= 7 && AllDigits(v)
  {
    var c := Search(oneLine, RentPattern).value;
    assert ExtractValue(oneLine, RentPattern).value == Tidy(c);
    AmountCapture(oneLine, c);
  }

  lemma AmountCapture(oneLine: string, c: string)
    requires IsCaptureOf(oneLine, c, Amount)
    ensures Tidy(c) == c && 3 <= |c| <= 7 && AllDigits(c)
  {
    var sp :| Captured(oneLine, sp, Amount) && c == oneLine[sp.start..sp.end];
    assert 3 <= |c| <= 7 && AllDigits(c);
    assert forall k :: 0 <= k < |c| ==> !IsSpace(c[k]) by {
      forall k | 0 <= k < |c| ensures !IsSpace(c[k]) {
        assert IsDigit(c[k]);
      }
    }
    TidyWithoutSpaces(c);
  }

  /** An extracted date has the form `d{1,2}[-/]d{1,2}[-/]dddd`. */
  lemma DateValue(oneLine: string, pat: Pattern)
    requires ShapeOf(pat) == Date
    requires ExtractValue(oneLine, pat).Some?
    ensures IsDate(ExtractValue(oneLine, pat).value)
  {
    var c := Search(oneLine, pat).value;
    assert ExtractValue(oneLine, pat).value == Tidy(c);
    DateCapture(oneLine, c);
  }

  lemma DateCapture(oneLine: string, c: string)
    requires IsCaptureOf(oneLine, c, Date)
    ensures Tidy(c) == c && IsDate(c)
  {
    DateHasNoSpace(c);
    TidyWithoutSpaces(c);
  }

  /** A rent as the report shows it: `-`, or three to seven digits. */
  predicate RentShown(v: string) {
    v == "-" || (3 <= |v| <= 7 && AllDigits(v))
  }

  /** A date as the report shows it: `-`, or `d{1,2}[-/]d{1,2}[-/]dddd`. */
  predicate DateShown(v: string) {
    v == "-" || IsDate(v)
  }

  /** The document values of a report: a rent of three to seven digits and
      dates of the date form, or `-` for a value that was not found. */
  lemma ReportValues(fullText: string, inputs: RentalFields, sim: Similarity, c: Comparison)
    requires ComparesAs(c, fullText, inputs, sim)
    ensures RentShown(c.details[0].dataFromDocument)
    ensures DateShown(c.details[1].dataFromDocument)
    ensures DateShown(c.details[2].dataFromDocument)
  {
    RowsShow(inputs, DocumentValues(fullText, inputs, sim), sim);
    DocumentShown(fullText, inputs, sim);
  }

  /** The rent and the dates read from a document, as the report shows
      them. */
  lemma DocumentShown(fullText: string, inputs: RentalFields, sim: Similarity)
    ensures var d := DocumentValues(fullText, inputs, sim);
      && RentShown(DocumentValue(d.rentAmount))
      && DateShown(DocumentValue(d.startDate))
      && DateShown(DocumentValue(d.endDate))
  {
    var oneLine := CollapseSpaces(fullText);
    RentEntry(oneLine);
    DateEntry(oneLine, StartPattern, StartLabelPattern);
    DateEntry(oneLine, EndPattern, EndLabelPattern);
  }

  /** The document value of the rent field is `-` or three to seven
      digits. */
  lemma RentEntry(oneLine: string)
    ensures RentShown(DocumentValue(ExtractValue(oneLine, RentPattern)))
  {
    if Truthy(ExtractValue(oneLine, RentPattern)) {
      RentValue(oneLine);
    }
  }

  /** The document value of a date field is `-` or a date. */
  lemma DateEntry(oneLine: string, first: Pattern, second: Pattern)
    requires ShapeOf(first) == Date && ShapeOf(second) == Date
    ensures DateShown(DocumentValue(Or(ExtractValue(oneLine, first), ExtractValue(oneLine, second))))
  {
    var e := Or(ExtractValue(oneLine, first), ExtractValue(oneLine, second));
    if Truthy(e) {
      if Truthy(ExtractValue(oneLine, first)) {
        DateValue(oneLine, first);
      } else {
        DateValue(oneLine, second);
      }
      DateHasNoSpace(e.value);
      TidyWithoutSpaces(e.value);
    }
  }

  // ------------------------------------------------------------ narrative

  /** `details.find((d) => d.field === field)`. */
  function FindDetail(details: seq<Detail>, field: string): (r: Option<Detail>)
    ensures r.Some? ==> r.value in details && r.value.field == field
    ensures r.None? ==> forall k :: 0 <= k < |details| ==> details[k].field != field
    decreases |details|
  {
    if details == [] then None
    else if details[0].field == field then Some(details[0])
    else FindDetail(details[1..], field)
  }

  /** The document value of the first row for `field`, or `[not found]`
      when there is none or it is empty. */
  function GetDetail(details: seq<Detail>, field: string): string {
    match FindDetail(details, field)
    case Some(d) => if d.dataFromDocument != "" then d.dataFromDocument else "[not found]"
    case None => "[not found]"
  }

  /** What the narrative shows for a document value. */
  function Shown(v: string): string {
    if v != "" then v else "[not found]"
  }

  /** A missing value is shown as `-`, which is truthy, so the narrative
      says `[not found]` only for an extracted value that tidies to the
      empty string (or to that very text). */
  lemma NotFoundOnlyForBlank(docValue: Option<string>)
    ensures !Truthy(docValue) ==> Shown(DocumentValue(docValue)) == "-"
    ensures Shown(DocumentValue(docValue)) == "[not found]" <==>
      Truthy(docValue) && (Tidy(docValue.value) == "" || Tidy(docValue.value) == "[not found]")
  {
  }

  /** The lookup in six rows that carry the six fields in order. */
  lemma GetDetailOfSix(details: seq<Detail>)
    requires |details| == 6
    requires details[0].field == RentField && details[1].field == StartField
    requires details[2].field == EndField && details[3].field == TenantField
    requires details[4].field == LandlordField && details[5].field == LocationField
    ensures GetDetail(details, RentField) == Shown(details[0].dataFromDocument)
    ensures GetDetail(details, StartField) == Shown(details[1].dataFromDocument)
    ensures GetDetail(details, EndField) == Shown(details[2].dataFromDocument)
    ensures GetDetail(details, TenantField) == Shown(details[3].dataFromDocument)
    ensures GetDetail(details, LandlordField) == Shown(details[4].dataFromDocument)
    ensures GetDetail(details, LocationField) == Shown(details[5].dataFromDocument)
  {
    FieldNamesDiffer();
    FindFirst(details, 0);
    FindFirst(details, 1);
    FindFirst(details, 2);
    FindFirst(details, 3);
    FindFirst(details, 4);
    FindFirst(details, 5);
  }

  /** The six field names differ: their first letters do. */
  lemma FieldNamesDiffer()
    ensures RentField != StartField && RentField != EndField && RentField != TenantField
    ensures RentField != LandlordField && RentField != LocationField
    ensures StartField != EndField && StartField != TenantField && StartField != LandlordField
    ensures StartField != LocationField && EndField != TenantField && EndField != LandlordField
    ensures EndField != LocationField && TenantField != LandlordField && TenantField != LocationField
    ensures LandlordField != LocationField
  {
    assert RentField[0] == 'R' && StartField[0] == 'S' && EndField[0] == 'E';
    assert TenantField[0] == 'T' && LandlordField[0] == 'L' && LocationField[0] == 'P';
  }

  /** The search stops at the first row of a field. */
  lemma {:induction false} FindFirst(details: seq<Detail>, k: nat)
    requires k < |details|
    requires forall j :: 0 <= j < k ==> details[j].field != details[k].field
    ensures FindDetail(details, details[k].field) == Some(details[k])
    decreases k
  {
    if k > 0 {
      assert details[1..][k - 1] == details[k];
      FindFirst(details[1..], k - 1);
    }
  }

  /** The rent as the narrative writes it. */
  function RentText(rent: string): (r: string)
    ensures r == "[not specified]" <==> rent == "" || rent == "-"
    ensures r != "[not specified]" ==> |r| == |rent| + 1 && r[0] == '\U{20B9}' && r[1..] == rent
  {
    if rent != "" && rent != "-" then
      var r := "\U{20B9}" + rent;
      assert r[0] != "[not specified]"[0];
      r
    else "[not specified]"
  }

  const NotImplemented := "Analysis for this document type has not been implemented."

  /** The sentence written for a rental agreement. */
  function Narrative(landlord: string, tenant: string, startDate: string, location: string, rentText: string): string {
    "This appears to be a rental agreement between the landlord, " + landlord
    + ", and the tenant, " + tenant + ". The agreement, starting on " + startDate
    + ", is for the property located at " + location + ". The specified monthly rent is "
    + rentText
    + ". The following table breaks down the comparison between the user-provided data and the document's contents."
  }

  /** `generateAnalysis`: the narrative of a rental agreement, from the
      document values of its report; every other type gets a fixed sentence. */
  function GenerateAnalysis(docType: Option<string>, details: seq<Detail>): (r: string)
    ensures docType != Some("rental") ==> r == NotImplemented
  {
    if docType == Some("rental") then
      var landlord := GetDetail(details, LandlordField);
      var tenant := GetDetail(details, TenantField);
      var rent := GetDetail(details, RentField);
      var startDate := GetDetail(details, StartField);
      var location := GetDetail(details, LocationField);
      Narrative(landlord, tenant, startDate, location, RentText(rent))
    else NotImplemented
  }

  /** The narrative of six rows that carry the six fields in order quotes
      their document values. */
  lemma AnalysisOfSix(details: seq<Detail>)
    requires |details| == 6
    requires details[0].field == RentField && details[1].field == StartField
    requires details[2].field == EndField && details[3].field == TenantField
    requires details[4].field == LandlordField && details[5].field == LocationField
    ensures GenerateAnalysis(Some("rental"), details)
      == Narrative(Shown(details[4].dataFromDocument), Shown(details[3].dataFromDocument),
                   Shown(details[1].dataFromDocument), Shown(details[5].dataFromDocument),
                   RentText(Shown(details[0].dataFromDocument)))
  {
    GetDetailOfSix(details);
  }

  /** The narrative of a comparison names the landlord, the tenant, the
      start date, the location and the rent read from the document. */
  lemma AnalysisOfComparison(c: Comparison, fullText: string, inputs: RentalFields, sim: Similarity)
    requires ComparesAs(c, fullText, inputs, sim)
    ensures var d := DocumentValues(fullText, inputs, sim);
      GenerateAnalysis(Some("rental"), c.details)
      == Narrative(Shown(DocumentValue(d.landlordName)), Shown(DocumentValue(d.tenantName)),
                   Shown(DocumentValue(d.startDate)), Shown(DocumentValue(d.propertyLocation)),
                   RentText(Shown(DocumentValue(d.rentAmount))))
  {
    RowsShow(inputs, DocumentValues(fullText, inputs, sim), sim);
    AnalysisOfSix(c.details);
  }

  // ------------------------------------------------------------ the request

  /** The answer to a verification request. */
  datatype Response =
    | Verified(result: Comparison, analysis: string, extractedText: seq<PageText>)
    | Rejected(code: nat, error: string, details: string)

  /** Some page has text. */
  predicate HasTextLayer(pages: seq<PageText>) {
    exists k :: 0 <= k < |pages| && |pages[k].text| > 0
  }

  /** The text of all pages, in page order, one newline between pages. */
  function FullText(pages: seq<PageText>): string {
    Join(seq(|pages|, k requires 0 <= k < |pages| => pages[k].text), "\n")
  }

  /** The full text grows page by page: one more page adds a newline and
      its text. */
  lemma FullTextSnoc(pages: seq<PageText>, p: PageText)
    requires pages != []
    ensures FullText(pages + [p]) == FullText(pages) + "\n" + p.text
  {
    var texts := seq(|pages|, k requires 0 <= k < |pages| => pages[k].text);
    assert seq(|pages + [p]|, k requires 0 <= k < |pages + [p]| => (pages + [p])[k].text) == texts + [p.text];
    JoinSnoc(texts, "\n", p.text);
  }

  const NoDocument := "No document uploaded."
  const Failed := "Failed to verify document."
  const NoImages := "CRITICAL: PDF to image conversion failed. Check 'poppler' installation."
  const NoTextLayer := "CRITICAL: Direct text extraction failed. The PDF likely has no text layer."

  /** The checks of the verification request and the comparison it runs.
      Rasterising and reading the PDF are not modelled: their results are
      the parameters `imageCount` (`None` when the conversion gave no array)
      and `pageTexts` (`None` when text extraction failed). */
  method VerifyDocument(hasFile: bool, docType: Option<string>, inputs: RentalFields,
                        imageCount: Option<nat>, pageTexts: Option<seq<PageText>>, sim: Similarity)
    returns (resp: Response)
    ensures !hasFile ==> resp == Rejected(400, NoDocument, "")
    ensures hasFile && (imageCount.None? || imageCount == Some(0)) ==> resp == Rejected(500, Failed, NoImages)
    ensures hasFile && imageCount.Some? && imageCount.value > 0 && (pageTexts.None? || !HasTextLayer(pageTexts.value)) ==>
      resp == Rejected(500, Failed, NoTextLayer)
    ensures resp.Verified? <==>
      hasFile && imageCount.Some? && imageCount.value > 0 && pageTexts.Some? && HasTextLayer(pageTexts.value)
    ensures resp.Verified? ==>
      && ComparesAs(resp.result, FullText(pageTexts.value), inputs, sim)
      && resp.analysis == GenerateAnalysis(docType, resp.result.details)
      && resp.extractedText == pageTexts.value
  {
    if !hasFile {
      return Rejected(400, NoDocument, "");
    }
    if imageCount.None? || imageCount.value == 0 {
      return Rejected(500, Failed, NoImages);
    }
    if pageTexts.None? || !HasTextLayer(pageTexts.value) {
      return Rejected(500, Failed, NoTextLayer);
    }
    var fullText := FullText(pageTexts.value);
    var result := CompareRentalFields(fullText, inputs, sim);
    var analysis := GenerateAnalysis(docType, result.details);
    return Verified(result, analysis, pageTexts.value);
  }
}
