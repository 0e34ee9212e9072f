/** The upload form of the client: the per-type form state and its updates
    (`handleChange`, `handleDateChange`), the date reformatting and the
    document-type table, and the checks and the request body of
    `handleSubmit`. */
module Uploads {
  import opened JsStrings

  // ------------------------------------------------------------ dates

  /** `^\d{4}-\d{2}-\d{2}$`: the value of a native date input. */
  predicate IsIsoDate(s: string) {
    && |s| == 10 && s[4] == '-' && s[7] == '-'
    && forall k :: 0 <= k < 10 && k != 4 && k != 7 ==> IsDigit(s[k])
  }

  /** `dd-mm-yyyy`: the form the server is sent. */
  predicate IsDayFirstDate(s: string) {
    && |s| == 10 && s[2] == '-' && s[5] == '-'
    && forall k :: 0 <= k < 10 && k != 2 && k != 5 ==> IsDigit(s[k])
  }

  /** The inverse reordering: `dd-mm-yyyy` back to `yyyy-mm-dd`. */
  function ToIso(d: string): (s: string)
    requires |d| == 10
    ensures |s| == 10
  {
    d[6..] + "-" + d[3..5] + "-" + d[..2]
  }

  /** `split('-')` on an ISO date gives its year, month and day. */
  lemma IsoSplit(s: string)
    requires IsIsoDate(s)
    ensures Split(s, '-') == [s[..4], s[5..7], s[8..]]
  {
    assert '-' !in s[..4] by {
      forall k | 0 <= k < 4 ensures s[..4][k] != '-' { assert IsDigit(s[k]); }
    }
    assert '-' !in s[5..7] by {
      forall k | 0 <= k < 2 ensures s[5..7][k] != '-' { assert IsDigit(s[5 + k]); }
    }
    assert '-' !in s[8..] by {
      forall k | 0 <= k < 2 ensures s[8..][k] != '-' { assert IsDigit(s[8 + k]); }
    }
    assert s == s[..4] + ['-'] + s[5..];
    assert s[5..] == s[5..7] + ['-'] + s[8..];
    SplitPrefix(s[..4], '-', s[5..]);
    SplitPrefix(s[5..7], '-', s[8..]);
    SplitNone(s[8..], '-');
  }

  /** `formatDateForSubmission`: an ISO date is sent day first; the empty
      string and every other value are sent as they are. */
  function FormatDateForSubmission(s: string): (r: string)
    ensures s == "" ==> r == ""
    ensures !IsIsoDate(s) ==> r == s
    ensures IsIsoDate(s) ==> IsDayFirstDate(r) && ToIso(r) == s
  {
    if s == "" then ""
    else if IsIsoDate(s) then
      IsoSplit(s);
      var parts := Split(s, '-');
      var r := parts[2] + "-" + parts[1] + "-" + parts[0];
      assert r == s[8..] + "-" + s[5..7] + "-" + s[..4];
      forall k | 0 <= k < 2 ensures IsDigit(r[k]) { assert r[k] == s[8 + k]; }
      forall k | 3 <= k < 5 ensures IsDigit(r[k]) { assert r[k] == s[k + 2]; }
      forall k | 6 <= k < 10 ensures IsDigit(r[k]) { assert r[k] == s[k - 6]; }
      ReorderBack(s);
      r
    else s
  }

  /** Putting the day first and then the year first gives the date back. */
  lemma ReorderBack(s: string)
    requires |s| == 10 && s[4] == '-' && s[7] == '-'
    ensures ToIso(s[8..] + "-" + s[5..7] + "-" + s[..4]) == s
  {
    var r := s[8..] + "-" + s[5..7] + "-" + s[..4];
    assert forall k :: 0 <= k < 10 ==> r[k] == (if k < 2 then s[8 + k] else if k == 2 then '-'
      else if k < 5 then s[k + 2] else if k == 5 then '-' else s[k - 6]);
    var t := ToIso(r);
    assert t == r[6..] + "-" + r[3..5] + "-" + r[..2];
    forall k | 0 <= k < 10 ensures t[k] == s[k] {
      if k < 4 {
        assert t[k] == r[k + 6];
      } else if 4 < k < 7 {
        assert t[k] == r[k - 2];
      } else if 7 < k {
        assert t[k] == r[k - 8];
      }
    }
  }

  /** Reading a day-first date back: the reordering undoes itself. */
  lemma FormatOfToIso(d: string)
    requires IsDayFirstDate(d)
    ensures IsIsoDate(ToIso(d)) && FormatDateForSubmission(ToIso(d)) == d
  {
    var s := ToIso(d);
    forall k | 0 <= k < 4 ensures IsDigit(s[k]) { assert s[k] == d[k + 6]; }
    forall k | 5 <= k < 7 ensures IsDigit(s[k]) { assert s[k] == d[k - 2]; }
    forall k | 8 <= k < 10 ensures IsDigit(s[k]) { assert s[k] == d[k - 8]; }
    assert IsIsoDate(s);
    ToIsoInjective(FormatDateForSubmission(s), d);
  }

  /** Two day-first dates with the same ISO form are equal. */
  lemma ToIsoInjective(a: string, b: string)
    requires IsDayFirstDate(a) && IsDayFirstDate(b) && ToIso(a) == ToIso(b)
    ensures a == b
  {
    forall k | 0 <= k < 10 ensures a[k] == b[k] {
      if k < 2 {
        assert a[k] == ToIso(a)[k + 8] && b[k] == ToIso(b)[k + 8];
      } else if 2 < k < 5 {
        assert a[k] == ToIso(a)[k + 2] && b[k] == ToIso(b)[k + 2];
      } else if 5 < k {
        assert a[k] == ToIso(a)[k - 6] && b[k] == ToIso(b)[k - 6];
      }
    }
  }

  /** Formatting twice is formatting once: a day-first date no longer looks
      like an ISO date. */
  lemma FormatIdempotent(s: string)
    ensures FormatDateForSubmission(FormatDateForSubmission(s)) == FormatDateForSubmission(s)
  {
    var r := FormatDateForSubmission(s);
    if IsIsoDate(s) {
      assert IsDigit(r[4]);
      assert !IsIsoDate(r);
    }
  }

  /** A value that was there is still there: only the empty string is sent
      empty. */
  lemma FormatKeepsNonEmpty(s: string)
    ensures s != "" <==> FormatDateForSubmission(s) != ""
  {
  }

  // ------------------------------------------------------------ document types

  /** `mapSelectedTypeToKey`: the four labels of the type menu and their
      keys; anything else has no key. */
  function MapSelectedTypeToKey(selected: string): (r: Option<string>)
    ensures r.Some? <==> selected in TypeLabels
    ensures r.Some? ==> r.value in TypeKeys
  {
    match selected
    case "Sales Document" => Some("sales")
    case "Gift Giving Document" => Some("gift")
    case "Rental Document" => Some("rental")
    case "Power of Authority" => Some("authority")
    case _ => None
  }

  const TypeLabels: set<string> := {"Sales Document", "Gift Giving Document", "Rental Document", "Power of Authority"}
  const TypeKeys: set<string> := {"sales", "gift", "rental", "authority"}

  /** The label the menu shows for a key. */
  function LabelOf(key: string): (l: Option<string>)
    ensures l.Some? <==> key in TypeKeys
  {
    match key
    case "sales" => Some("Sales Document")
    case "gift" => Some("Gift Giving Document")
    case "rental" => Some("Rental Document")
    case "authority" => Some("Power of Authority")
    case _ => None
  }

  /** The table is one to one: each key comes from exactly one label, and
      the label of a key maps back to it. */
  lemma MapSelectedTypeToKeyInverse(selected: string, key: string)
    ensures MapSelectedTypeToKey(selected) == Some(key) <==> LabelOf(key) == Some(selected)
  {
  }

  /** Two labels with the same key are the same label. */
  lemma MapSelectedTypeToKeyInjective(a: string, b: string)
    requires MapSelectedTypeToKey(a).Some?
    requires MapSelectedTypeToKey(a) == MapSelectedTypeToKey(b)
    ensures a == b
  {
    MapSelectedTypeToKeyInverse(a, MapSelectedTypeToKey(a).value);
    MapSelectedTypeToKeyInverse(b, MapSelectedTypeToKey(a).value);
  }

  // ------------------------------------------------------------ form state

  /** The fields of one document type, in the order the object holds them. */
  type Fields = seq<(string, string)>

  /** The form state: the fields of each document type. */
  type Form = map<string, Fields>

  function Keys(fs: Fields): (ks: seq<string>)
    ensures |ks| == |fs|
  {
    seq(|fs|, i requires 0 <= i < |fs| => fs[i].0)
  }

  /** An object has each key once. */
  predicate DistinctKeys(fs: Fields) {
    forall i, j :: 0 <= i < j < |fs| ==> fs[i].0 != fs[j].0
  }

  predicate WellFormed(form: Form) {
    forall d :: d in form ==> DistinctKeys(form[d])
  }

  /** The position of `key`, or `|fs|` when it is absent. */
  function Find(fs: Fields, key: string): (i: nat)
    ensures i <= |fs|
    ensures i < |fs| ==> fs[i].0 == key
    ensures forall j :: 0 <= j < i ==> fs[j].0 != key
    decreases |fs|
  {
    if fs == [] then 0
    else if fs[0].0 == key then 0
    else 1 + Find(fs[1..], key)
  }

  /** The search stops at the first position holding the key. */
  lemma FindIs(fs: Fields, key: string, j: nat)
    requires j <= |fs| && (j < |fs| ==> fs[j].0 == key)
    requires forall m :: 0 <= m < j ==> fs[m].0 != key
    ensures Find(fs, key) == j
  {
  }

  /** `obj[key]`, `None` for a missing key. */
  function Get(fs: Fields, key: string): Option<string> {
    var i := Find(fs, key);
    if i < |fs| then Some(fs[i].1) else None
  }

  /** `{ ...obj, [key]: value }`: an existing key keeps its place, a new
      key goes last. */
  function Put(fs: Fields, key: string, value: string): (r: Fields) {
    var i := Find(fs, key);
    if i < |fs| then fs[i := (key, value)] else fs + [(key, value)]
  }

  /** After `Put`, the key holds the new value and every other key its
      old one; the keys keep their order, a new key coming last. */
  lemma PutSpec(fs: Fields, key: string, value: string)
    ensures Get(Put(fs, key, value), key) == Some(value)
    ensures forall other :: other != key ==> Get(Put(fs, key, value), other) == Get(fs, other)
    ensures Keys(Put(fs, key, value)) == if key in Keys(fs) then Keys(fs) else Keys(fs) + [key]
    ensures DistinctKeys(fs) ==> DistinctKeys(Put(fs, key, value))
  {
    FindIs(Put(fs, key, value), key, Find(fs, key));
    forall other | other != key
      ensures Get(Put(fs, key, value), other) == Get(fs, other)
    {
      PutOther(fs, key, value, other);
    }
    PutKeys(fs, key, value);
    if DistinctKeys(fs) {
      PutDistinct(fs, key, value);
    }
  }

  lemma PutOther(fs: Fields, key: string, value: string, other: string)
    requires other != key
    ensures Get(Put(fs, key, value), other) == Get(fs, other)
  {
    var r := Put(fs, key, value);
    var i := Find(fs, key);
    var o := Find(fs, other);
    if o < |fs| {
      assert r[o] == fs[o];
      FindIs(r, other, o);
    } else if i < |fs| {
      FindIs(r, other, |r|);
    } else {
      assert r[|fs|].0 != other;
      FindIs(r, other, |r|);
    }
  }

  lemma PutKeys(fs: Fields, key: string, value: string)
    ensures Keys(Put(fs, key, value)) == if key in Keys(fs) then Keys(fs) else Keys(fs) + [key]
  {
    var r := Put(fs, key, value);
    var i := Find(fs, key);
    if i < |fs| {
      assert Keys(fs)[i] == key;
      assert Keys(r) == Keys(fs);
    } else {
      assert key !in Keys(fs);
      assert Keys(r) == Keys(fs) + [key];
    }
  }

  lemma PutDistinct(fs: Fields, key: string, value: string)
    requires DistinctKeys(fs)
    ensures DistinctKeys(Put(fs, key, value))
  {
    var r := Put(fs, key, value);
    var i := Find(fs, key);
    if i < |fs| {
      assert forall m :: 0 <= m < |r| ==> r[m].0 == fs[m].0;
    } else {
      assert forall m :: 0 <= m < |fs| ==> r[m] == fs[m];
      assert r[|fs|].0 == key;
    }
  }

  /** The fields of a document type; an absent type spreads as `{}`. */
  function Doc(form: Form, docType: string): Fields {
    if docType in form then form[docType] else []
  }

  /** `handleChange(docType, field, value)`, and `handleDateChange`, which
      takes the value from the input event: one field of one document type
      is set. */
  function HandleChange(form: Form, docType: string, field: string, value: string): (r: Form)
    ensures r.Keys == form.Keys + {docType}
  {
    form[docType := Put(Doc(form, docType), field, value)]
  }

  /** Only `formData[docType][field]` changes; every other field of that
      type and every other type keep their values, and the state stays an
      object of objects. */
  lemma HandleChangeFrame(form: Form, docType: string, field: string, value: string, d: string, f: string)
    ensures var r := HandleChange(form, docType, field, value);
      Get(Doc(r, d), f) == if d == docType && f == field then Some(value) else Get(Doc(form, d), f)
    ensures WellFormed(form) ==> WellFormed(HandleChange(form, docType, field, value))
    ensures d != docType ==> Doc(HandleChange(form, docType, field, value), d) == Doc(form, d)
  {
    PutSpec(Doc(form, docType), field, value);
  }

  /** The form as the page starts it: every field of every type empty. */
  const InitialForm: Form := map[
    "sales" := [("cost", ""), ("saleDate", ""), ("ownerName", ""), ("salespersonName", ""), ("location", "")],
    "gift" := [("cost", ""), ("giftDate", ""), ("giverName", ""), ("receiverName", ""), ("location", ""), ("giftType", "")],
    "rental" := [("rentAmount", ""), ("startDate", ""), ("endDate", ""), ("tenantName", ""), ("landlordName", ""), ("propertyLocation", "")],
    "authority" := [("grantorName", ""), ("granteeName", ""), ("authorityType", ""), ("validity", ""), ("location", "")]]

  /** The page starts with one object per document type of the menu, each
      holding its keys once. */
  lemma InitialFormWellFormed()
    ensures InitialForm.Keys == TypeKeys
    ensures WellFormed(InitialForm)
  {
    SalesDistinct();
    GiftDistinct();
    RentalDistinct();
    AuthorityDistinct();
  }

  lemma SalesDistinct()
    ensures DistinctKeys(InitialForm["sales"])
  {
    assert "saleDate"[0] != "location"[0];
  }

  lemma GiftDistinct()
    ensures DistinctKeys(InitialForm["gift"])
  {
    assert "giftDate"[4] != "giftType"[4];
  }

  lemma RentalDistinct()
    ensures DistinctKeys(InitialForm["rental"])
  {
    assert "rentAmount"[0] != "tenantName"[0];
  }

  lemma AuthorityDistinct()
    ensures DistinctKeys(InitialForm["authority"])
  {
    assert "grantorName"[5] != "granteeName"[5];
  }

  // ------------------------------------------------------------ submit

  /** The fields whose truthy values are reformatted before sending. */
  const DateFields: set<string> := {"startDate", "endDate", "saleDate", "giftDate", "validity"}

  function Reformat(e: (string, string), names: set<string>): (string, string) {
    if e.0 in names && e.1 != "" then (e.0, FormatDateForSubmission(e.1)) else e
  }

  /** The fields with the truthy values of `names` reformatted and all else
      copied. */
  function FormattedFor(fs: Fields, names: set<string>): (r: Fields)
    ensures |r| == |fs| && Keys(r) == Keys(fs)
  {
    seq(|fs|, i requires 0 <= i < |fs| => Reformat(fs[i], names))
  }

  /** The fields as sent: the truthy date fields reformatted. */
  function Formatted(fs: Fields): Fields {
    FormattedFor(fs, DateFields)
  }

  /** One statement `if (x.name) x.name = formatDateForSubmission(x.name)`
      adds `name` to the reformatted fields. */
  lemma FormatStep(fs: Fields, names: set<string>, name: string)
    requires DistinctKeys(fs) && name !in names
    ensures var r := FormattedFor(fs, names);
      (if Truthy(Get(r, name)) then Put(r, name, FormatDateForSubmission(Get(r, name).value)) else r)
      == FormattedFor(fs, names + {name})
  {
    var r := FormattedFor(fs, names);
    var t := FormattedFor(fs, names + {name});
    var i := Find(fs, name);
    assert DistinctKeys(r) by {
      assert forall k :: 0 <= k < |r| ==> r[k].0 == fs[k].0;
    }
    assert Find(r, name) == i by {
      assert forall k :: 0 <= k < |r| ==> r[k].0 == fs[k].0;
    }
    forall k | 0 <= k < |fs| && k != i
      ensures t[k] == r[k]
    {
      assert fs[k].0 != name;
    }
    if i < |fs| && fs[i].1 != "" {
      assert r[i] == fs[i];
      assert r[i := (name, FormatDateForSubmission(fs[i].1))] == t;
    } else {
      assert t == r;
    }
  }

  /** Reformatting is done once: sending the formatted fields again sends
      the same values. */
  lemma FormattedIdempotent(fs: Fields)
    ensures Formatted(Formatted(fs)) == Formatted(fs)
  {
    forall k | 0 <= k < |fs|
      ensures Formatted(Formatted(fs))[k] == Formatted(fs)[k]
    {
      FormatIdempotent(fs[k].1);
      FormatKeepsNonEmpty(fs[k].1);
    }
  }

  /** A part of the request body. */
  datatype Part = File | Text(text: string)

  /** What `handleSubmit` does: sets an error and sends nothing, or sends
      the request body. */
  datatype Submission = Refused(error: string) | Sent(body: seq<(string, Part)>)

  const MissingInput := "Please upload a document and select its type."
  const InvalidType := "Invalid document type selected."

  /** The request body: the document, its type key, then every field in
      order. */
  function Body(key: string, fs: Fields): (b: seq<(string, Part)>)
    ensures |b| == |fs| + 2
  {
    [("document", File), ("docType", Text(key))]
      + seq(|fs|, i requires 0 <= i < |fs| => (fs[i].0, Text(fs[i].1)))
  }

  /** The five date fields, added one at a time, are new each time and make
      up all the date fields. */
  lemma DateFieldsOneByOne()
    ensures "startDate" !in {}
    ensures "endDate" !in {} + {"startDate"}
    ensures "saleDate" !in {} + {"startDate"} + {"endDate"}
    ensures "giftDate" !in {} + {"startDate"} + {"endDate"} + {"saleDate"}
    ensures "validity" !in {} + {"startDate"} + {"endDate"} + {"saleDate"} + {"giftDate"}
    ensures {} + {"startDate"} + {"endDate"} + {"saleDate"} + {"giftDate"} + {"validity"} == DateFields
  {
    assert "saleDate"[0] != "giftDate"[0];
  }

  /** The copy of the selected type's fields with each truthy date field
      reformatted, one statement per date field. */
  method FormatDates(fields: Fields) returns (formattedData: Fields)
    requires DistinctKeys(fields)
    ensures formattedData == Formatted(fields)
  {
    formattedData := fields;
    DateFieldsOneByOne();
    ghost var done: set<string> := {};
    assert formattedData == FormattedFor(fields, done);
    FormatStep(fields, done, "startDate");
    if Truthy(Get(formattedData, "startDate")) {
      formattedData := Put(formattedData, "startDate", FormatDateForSubmission(Get(formattedData, "startDate").value));
    }
    done := done + {"startDate"};
    FormatStep(fields, done, "endDate");
    if Truthy(Get(formattedData, "endDate")) {
      formattedData := Put(formattedData, "endDate", FormatDateForSubmission(Get(formattedData, "endDate").value));
    }
    done := done + {"endDate"};
    FormatStep(fields, done, "saleDate");
    if Truthy(Get(formattedData, "saleDate")) {
      formattedData := Put(formattedData, "saleDate", FormatDateForSubmission(Get(formattedData, "saleDate").value));
    }
    done := done + {"saleDate"};
    FormatStep(fields, done, "giftDate");
    if Truthy(Get(formattedData, "giftDate")) {
      formattedData := Put(formattedData, "giftDate", FormatDateForSubmission(Get(formattedData, "giftDate").value));
    }
    done := done + {"giftDate"};
    FormatStep(fields, done, "validity");
    if Truthy(Get(formattedData, "validity")) {
      formattedData := Put(formattedData, "validity", FormatDateForSubmission(Get(formattedData, "validity").value));
    }
    done := done + {"validity"};
  }

  /** `handleSubmit`, up to the request: the checks, the copy of the
      selected type's fields with its dates reformatted, and the body built
      field by field. Sending it is not modelled. */
  method HandleSubmit(hasFile: bool, selectedType: Option<string>, form: Form) returns (outcome: Submission)
    requires WellFormed(form)
    ensures !hasFile || !Truthy(selectedType) ==> outcome == Refused(MissingInput)
    ensures hasFile && Truthy(selectedType) && MapSelectedTypeToKey(selectedType.value).None? ==>
      outcome == Refused(InvalidType)
    ensures outcome.Sent? <==> hasFile && Truthy(selectedType) && MapSelectedTypeToKey(selectedType.value).Some?
    ensures outcome.Sent? ==>
      var key := MapSelectedTypeToKey(selectedType.value).value;
      outcome.body == Body(key, Formatted(Doc(form, key)))
  {
    if !hasFile || !Truthy(selectedType) {
      return Refused(MissingInput);
    }
    var docTypeKey := MapSelectedTypeToKey(selectedType.value);
    if docTypeKey.None? {
      return Refused(InvalidType);
    }
    var key := docTypeKey.value;

    var formattedData := FormatDates(Doc(form, key));

    var data := [("document", File), ("docType", Text(key))];
    for i := 0 to |formattedData|
      invariant data == Body(key, formattedData[..i])
    {
      data := data + [(formattedData[i].0, Text(formattedData[i].1))];
    }
    assert formattedData[..|formattedData|] == formattedData;
    return Sent(data);
  }
}
