/** How the verification engine finds a party's name and the property
    address in the text of a document (`extractName`, `extractLocation`). */
module Extraction {
  import opened JsStrings
  import opened Patterns
  import opened Helpers

  // ------------------------------------------------------------ best match

  /** The index `findBestMatch` of the string-similarity library reports:
      the first target with the highest rating against `main`. */
  function BestIndex(main: string, targets: seq<string>, sim: Similarity): (b: nat)
    requires targets != []
    ensures b < |targets|
    decreases |targets|
  {
    if |targets| == 1 then 0
    else
      var b := BestIndex(main, targets[..|targets| - 1], sim);
      if sim(main, targets[|targets| - 1]) > sim(main, targets[b]) then |targets| - 1 else b
  }

  /** The best index rates at least as high as every target and strictly
      higher than every target before it. */
  lemma {:induction false} BestIndexIsFirstMaximum(main: string, targets: seq<string>, sim: Similarity)
    requires targets != []
    ensures forall k :: 0 <= k < |targets| ==> sim(main, targets[k]) <= sim(main, targets[BestIndex(main, targets, sim)])
    ensures forall k :: 0 <= k < BestIndex(main, targets, sim) ==> sim(main, targets[k]) < sim(main, targets[BestIndex(main, targets, sim)])
    decreases |targets|
  {
    if |targets| > 1 {
      var init := targets[..|targets| - 1];
      BestIndexIsFirstMaximum(main, init, sim);
      assert forall k :: 0 <= k < |init| ==> init[k] == targets[k];
    }
  }

  // ------------------------------------------------------------ names

  /** A value found after a label: at most 40 letters, dots and single
      spaces, with no space at either end. */
  predicate IsLabelName(v: string) {
    1 <= |v| && Trimmed(v) && NoSpaceRuns(v) && NameRun(v)
  }

  /** At most 40 letters, dots and spaces. */
  predicate NameRun(v: string) {
    |v| <= 40 && forall k :: 0 <= k < |v| ==> IsLetter(v[k]) || v[k] == '.' || v[k] == ' '
  }

  /** Strategy 1: the value after `tenant`/`lessee` or `landlord`/`lessor`
      (optionally followed by `name` and `:` or `-`), in the text with all
      whitespace runs made single spaces. */
  function LabelStrategy(fullText: string, role: Role): (r: Option<string>)
    ensures Truthy(r) ==> IsLabelName(r.value)
  {
    var oneLine := CollapseSpaces(fullText);
    var r := ExtractValue(oneLine, LabelPattern(role));
    if r.Some? then
      LabelValueChars(oneLine, LabelPattern(role));
      r
    else r
  }

  lemma LabelValueChars(oneLine: string, pat: Pattern)
    requires ShapeOf(pat) == Name
    requires forall k :: 0 <= k < |oneLine| && IsSpace(oneLine[k]) ==> oneLine[k] == ' '
    requires ExtractValue(oneLine, pat).Some?
    ensures NameRun(ExtractValue(oneLine, pat).value)
  {
    var c := Search(oneLine, pat).value;
    NameCapture(oneLine, c);
    TidyOfNameChars(c);
    ExtractValueOfMatch(oneLine, pat);
  }

  /** Tidying a short run of letters, dots and spaces leaves one. */
  lemma TidyOfNameChars(c: string)
    requires |c| <= 40 && forall x :: x in c ==> IsLetter(x) || x == '.' || x == ' '
    ensures NameRun(Tidy(c))
  {
    TidyKeeps(c);
    forall k | 0 <= k < |Tidy(c)| ensures IsLetter(Tidy(c)[k]) || Tidy(c)[k] == '.' || Tidy(c)[k] == ' ' {
      assert Tidy(c)[k] in Tidy(c);
    }
  }

  /** A name captured from text whose only whitespace is the plain space. */
  lemma NameCapture(oneLine: string, c: string)
    requires forall k :: 0 <= k < |oneLine| && IsSpace(oneLine[k]) ==> oneLine[k] == ' '
    requires IsCaptureOf(oneLine, c, Name)
    ensures |c| <= 40 && forall x :: x in c ==> IsLetter(x) || x == '.' || x == ' '
  {
    var sp :| Captured(oneLine, sp, Name) && c == oneLine[sp.start..sp.end];
    forall x | x in c ensures IsLetter(x) || x == '.' || x == ' ' {
      var j :| 0 <= j < |c| && c[j] == x;
      assert x == oneLine[sp.start + j];
    }
  }

  /** Strategy 2: the first (landlord) or second (tenant) item of
      `between … and …`, trimmed. The quantifier `{4,40?}` of that pattern
      is not a quantifier but literal text, so whatever this strategy
      returns ends with `{4,40}` or `{4,4}`. */
  predicate IsBetweenName(v: string) {
    v == "{4,40}" || v == "{4,4}" || (IsBraced(v) && !IsSpace(v[0]))
  }

  function BetweenStrategy(fullText: string, role: Role): (r: Option<string>)
    ensures r.None? <==> MatchesNowhere(CollapseSpaces(fullText), BetweenPattern(role))
    ensures r.Some? ==> IsBetweenName(r.value)
  {
    match Search(CollapseSpaces(fullText), BetweenPattern(role))
    case Some(c) =>
      BracedTrim(CollapseSpaces(fullText), c);
      Some(Trim(c))
    case None => None
  }

  lemma BracedTrim(oneLine: string, c: string)
    requires IsCaptureOf(oneLine, c, Braced)
    ensures IsBetweenName(Trim(c))
  {
    var sp :| Captured(oneLine, sp, Braced) && c == oneLine[sp.start..sp.end];
    BracedTrimmed(c);
  }

  /** A braced capture loses at most its first character to `trim()`. */
  lemma BracedTrimmed(c: string)
    requires IsBraced(c)
    ensures IsBetweenName(Trim(c))
  {
    var tail := c[1..];
    assert tail[0] == '{' && tail[|tail| - 1] == '}';
    TrimTrimmed(tail);
    if IsSpace(c[0]) {
      assert SpaceRun(c, 0) == 1 by {
        assert c[1] == tail[0];
      }
      assert TrimStart(c) == tail;
      assert Trim(c) == Trim(tail);
    } else {
      assert c[|c| - 1] == tail[|tail| - 1];
      TrimTrimmed(c);
    }
  }

  /** Strategy 3: the candidate name (two or more capitalised words) in the
      text most similar to the user's hint, when it is more than half
      similar. */
  function HintStrategy(fullText: string, hint: Option<string>, sim: Similarity): (r: Option<string>)
  {
    if Truthy(hint) then
      var names := NameCandidates(fullText);
      if |names| > 0 then
        var b := BestIndex(hint.value, names, sim);
        if sim(hint.value, names[b]) > 0.5 then Some(names[b]) else None
      else None
    else None
  }

  /** The hint strategy reports a candidate exactly when some candidate is
      more than half similar to the hint, and then the best one. */
  lemma HintStrategySpec(fullText: string, hint: Option<string>, sim: Similarity)
    ensures var r := HintStrategy(fullText, hint, sim);
      (match r
       case Some(v) =>
         && Truthy(hint) && v in NameCandidates(fullText) && IsCandidate(v)
         && sim(hint.value, v) > 0.5
         && (forall c :: c in NameCandidates(fullText) ==> sim(hint.value, c) <= sim(hint.value, v))
       case None =>
         !Truthy(hint) || forall c :: c in NameCandidates(fullText) ==> sim(hint.value, c) <= 0.5)
  {
    if Truthy(hint) {
      var names := NameCandidates(fullText);
      if |names| > 0 {
        BestIndexIsFirstMaximum(hint.value, names, sim);
        CandidatesShape(fullText, 0);
      }
    }
  }

  /** `extractName`: the strategies are tried in order, and the first one
      that yields a value decides. */
  function ExtractName(fullText: string, role: Role, hint: Option<string>, sim: Similarity): (r: Option<string>)
    ensures Truthy(LabelStrategy(fullText, role)) ==> r == LabelStrategy(fullText, role)
    ensures !Truthy(LabelStrategy(fullText, role)) && BetweenStrategy(fullText, role).Some? ==>
      r == BetweenStrategy(fullText, role)
    ensures !Truthy(LabelStrategy(fullText, role)) && BetweenStrategy(fullText, role).None? ==>
      r == HintStrategy(fullText, hint, sim)
    ensures r.Some? ==> r.value != ""
    ensures r.None? <==>
      && !Truthy(LabelStrategy(fullText, role))
      && BetweenStrategy(fullText, role).None?
      && HintStrategy(fullText, hint, sim).None?
  {
    var labelled := LabelStrategy(fullText, role);
    if Truthy(labelled) then labelled
    else
      var between := BetweenStrategy(fullText, role);
      if between.Some? then between
      else
        HintStrategySpec(fullText, hint, sim);
        HintStrategy(fullText, hint, sim)
  }

  /** What a name found by each strategy looks like. */
  lemma ExtractNameShape(fullText: string, role: Role, hint: Option<string>, sim: Similarity)
    requires ExtractName(fullText, role, hint, sim).Some?
    ensures var v := ExtractName(fullText, role, hint, sim).value;
      || IsLabelName(v)
      || IsBetweenName(v)
      || (v in NameCandidates(fullText) && IsCandidate(v) && Truthy(hint) && sim(hint.value, v) > 0.5)
  {
    HintStrategySpec(fullText, hint, sim);
  }

  // ------------------------------------------------------------ location

  /** `s.map(f)`. */
  function Map<A, B>(f: A -> B, s: seq<A>): (r: seq<B>)
    ensures |r| == |s|
    ensures forall k :: 0 <= k < |r| ==> r[k] == f(s[k])
  {
    seq(|s|, k requires 0 <= k < |s| => f(s[k]))
  }

  lemma MapAppend<A, B>(f: A -> B, a: seq<A>, b: seq<A>)
    ensures Map(f, a + b) == Map(f, a) + Map(f, b)
  {
    assert forall k :: 0 <= k < |a + b| ==> Map(f, a + b)[k] == (Map(f, a) + Map(f, b))[k];
  }

  /** `l.trim()` of every line. */
  function TrimAll(parts: seq<string>): (r: seq<string>)
    ensures |r| == |parts|
    ensures forall k :: 0 <= k < |r| ==> r[k] == Trim(parts[k])
  {
    Map(Trim, parts)
  }

  lemma TrimAllAppend(a: seq<string>, b: seq<string>)
    ensures TrimAll(a + b) == TrimAll(a) + TrimAll(b)
  {
    MapAppend(Trim, a, b);
  }

  /** `.filter(Boolean)`: the non-empty lines, in order. */
  function NonEmpty(parts: seq<string>): (r: seq<string>)
    ensures |r| <= |parts|
    ensures forall k :: 0 <= k < |r| ==> r[k] != "" && r[k] in parts
    decreases |parts|
  {
    if parts == [] then []
    else if parts[0] == "" then NonEmpty(parts[1..])
    else [parts[0]] + NonEmpty(parts[1..])
  }

  /** Filtering a concatenation filters each side. */
  lemma {:induction false} NonEmptyAppend(a: seq<string>, b: seq<string>)
    ensures NonEmpty(a + b) == NonEmpty(a) + NonEmpty(b)
    decreases |a|
  {
    if a == [] {
      assert a + b == b;
    } else {
      assert (a + b)[0] == a[0];
      assert (a + b)[1..] == a[1..] + b;
      NonEmptyAppend(a[1..], b);
    }
  }

  /** Filtering keeps a list without empty strings as it is. */
  lemma {:induction false} NonEmptyOfFull(parts: seq<string>)
    requires forall k :: 0 <= k < |parts| ==> parts[k] != ""
    ensures NonEmpty(parts) == parts
    decreases |parts|
  {
    if parts != [] {
      NonEmptyOfFull(parts[1..]);
      assert [parts[0]] + parts[1..] == parts;
    }
  }

  /** Empty strings trim to empty strings, so dropping them first changes
      nothing. */
  lemma {:induction false} NonEmptyTrimAll(parts: seq<string>)
    ensures NonEmpty(TrimAll(parts)) == NonEmpty(TrimAll(NonEmpty(parts)))
    decreases |parts|
  {
    if parts != [] {
      var x := parts[0];
      var rest := parts[1..];
      assert parts == [x] + rest;
      NonEmptyTrimAll(rest);
      TrimAllAppend([x], rest);
      NonEmptyAppend(TrimAll([x]), TrimAll(rest));
      if x == "" {
        assert NonEmpty(parts) == NonEmpty(rest);
        assert NonEmpty(TrimAll([x])) == [];
      } else {
        assert NonEmpty(parts) == [x] + NonEmpty(rest);
        TrimAllAppend([x], NonEmpty(rest));
        NonEmptyAppend(TrimAll([x]), TrimAll(NonEmpty(rest)));
      }
    }
  }

  /** A run of `c` at the front only adds empty parts to `split(c)`. */
  lemma {:induction false} SplitDropSeps(t: string, c: char, m: nat)
    requires m <= |t| && forall k :: 0 <= k < m ==> t[k] == c
    ensures NonEmpty(Split(t, c)) == NonEmpty(Split(t[m..], c))
    decreases m
  {
    if m == 0 {
      assert t[m..] == t;
    } else {
      var x := Split(t[1..], c);
      assert Split(t, c) == [""] + x;
      assert ([""] + x)[1..] == x;
      SplitDropSeps(t[1..], c, m - 1);
      assert t[1..][m - 1..] == t[m..];
    }
  }

  /** `split(/c+/)` and `split(c)` agree on the first part and, once empty
      parts are dropped, on the rest. */
  lemma {:induction false} SplitRunsVsSplit(s: string, c: char)
    ensures SplitRuns(s, c)[0] == Split(s, c)[0]
    ensures NonEmpty(SplitRuns(s, c)[1..]) == NonEmpty(Split(s, c)[1..])
    decreases |s|
  {
    if s != [] {
      if s[0] == c {
        var n := CharRun(s, 0, c);
        var a := SplitRuns(s[n..], c);
        var b := Split(s[n..], c);
        SplitRunsVsSplit(s[n..], c);
        assert SplitRuns(s, c) == [""] + a;
        assert Split(s, c) == [""] + Split(s[1..], c);
        assert a == [a[0]] + a[1..] && b == [b[0]] + b[1..];
        NonEmptyAppend([a[0]], a[1..]);
        NonEmptyAppend([b[0]], b[1..]);
        SplitDropSeps(s[1..], c, n - 1);
        assert s[1..][n - 1..] == s[n..];
        assert ([""] + a)[1..] == a;
        assert ([""] + Split(s[1..], c))[1..] == Split(s[1..], c);
      } else {
        var q := SplitRuns(s[1..], c);
        var r := Split(s[1..], c);
        SplitRunsVsSplit(s[1..], c);
        assert SplitRuns(s, c) == [[s[0]] + q[0]] + q[1..];
        assert Split(s, c) == [[s[0]] + r[0]] + r[1..];
      }
    }
  }

  /** The non-empty trimmed lines of the text. */
  function Lines(text: string): (ls: seq<string>)
    ensures forall k :: 0 <= k < |ls| ==> ls[k] != "" && Trimmed(ls[k])
  {
    NonEmpty(TrimAll(SplitRuns(text, '\n')))
  }

  /** The lines are the parts of `split("\n")`, trimmed, with the empty
      ones dropped. */
  lemma LinesOfSplit(text: string)
    ensures Lines(text) == NonEmpty(TrimAll(Split(text, '\n')))
  {
    var a := SplitRuns(text, '\n');
    var b := Split(text, '\n');
    SplitRunsVsSplit(text, '\n');
    assert a == [a[0]] + a[1..] && b == [b[0]] + b[1..];
    TrimAllAppend([a[0]], a[1..]);
    TrimAllAppend([b[0]], b[1..]);
    NonEmptyAppend(TrimAll([a[0]]), TrimAll(a[1..]));
    NonEmptyAppend(TrimAll([b[0]]), TrimAll(b[1..]));
    NonEmptyTrimAll(a[1..]);
    NonEmptyTrimAll(b[1..]);
  }

  /** Trimming trimmed lines changes nothing. */
  lemma TrimAllOfTrimmed(ls: seq<string>)
    requires forall k :: 0 <= k < |ls| ==> Trimmed(ls[k])
    ensures TrimAll(ls) == ls
  {
    forall k | 0 <= k < |ls| ensures TrimAll(ls)[k] == ls[k] {
      TrimTrimmed(ls[k]);
    }
  }

  /** Lines that are non-empty, trimmed and free of newlines come back from
      the text they are joined into. */
  lemma LinesOfJoin(ls: seq<string>)
    requires forall k :: 0 <= k < |ls| ==> ls[k] != "" && Trimmed(ls[k]) && '\n' !in ls[k]
    ensures Lines(Join(ls, "\n")) == ls
  {
    if ls == [] {
      assert Join(ls, "\n") == "";
      LinesOfEmptyText();
    } else {
      var text := Join(ls, "\n");
      LinesOfSplit(text);
      assert "\n" == ['\n'];
      SplitJoin(ls, '\n');
      TrimAllOfTrimmed(ls);
      NonEmptyOfFull(ls);
    }
  }

  /** An empty text has no lines. */
  lemma LinesOfEmptyText()
    ensures Lines("") == []
  {
    assert SplitRuns("", '\n') == [""];
    assert TrimAll([""]) == [""];
  }

  /** The line starts with one of the markers of a house number. */
  const Markers: seq<string> := ["flat", "plot", "door", "apt", "apartment", "house", "villa", "no", "d.no"]

  /** The line holds one of the phrases that announce an address. */
  const Phrases: seq<string> := ["located at", "situated at", "property located at", "address"]

  /** `/^(flat|plot|door|apt|apartment|house|villa|no\.?|d\.no\.?)/i` or
      `/(located at|situated at|property located at|address)/i` matches. */
  predicate IsAddressLine(l: string) {
    || (exists k :: 0 <= k < |Markers| && StartsWithCI(l, 0, Markers[k]))
    || (exists k :: 0 <= k < |Phrases| && ContainsCI(l, Phrases[k], 0))
  }

  /** `/,[:]*\s*$/`: a comma at `p`, colons up to `m`, whitespace to the end. */
  predicate CommaTailAt(l: string, p: nat, m: nat) {
    && p < m <= |l| && l[p] == ','
    && (forall k :: p < k < m ==> l[k] == ':')
    && AllSpace(l[m..])
  }

  ghost predicate EndsWithComma(l: string) {
    exists p: nat, m: nat :: CommaTailAt(l, p, m)
  }

  /** The text without its trailing colons. */
  function DropColons(s: string): (r: string)
    ensures |r| <= |s| && r == s[..|r|]
    ensures r == [] || r[|r| - 1] != ':'
    ensures forall k :: |r| <= k < |s| ==> s[k] == ':'
    decreases |s|
  {
    if s != [] && s[|s| - 1] == ':' then DropColons(s[..|s| - 1]) else s
  }

  /** The regular expression decided from the end of the line: drop the
      trailing whitespace, then the trailing colons, and look for a comma. */
  function CommaTest(l: string): bool {
    var u := DropColons(TrimEnd(l));
    u != [] && u[|u| - 1] == ','
  }

  lemma CommaTestIsRegex(l: string)
    ensures CommaTest(l) <==> EndsWithComma(l)
  {
    var t := TrimEnd(l);
    var u := DropColons(t);
    if CommaTest(l) {
      assert CommaTailAt(l, |u| - 1, |t|) by {
        assert forall k :: |u| - 1 < k < |t| ==> l[k] == t[k];
      }
    }
    if EndsWithComma(l) {
      var p: nat, m: nat :| CommaTailAt(l, p, m);
      assert !IsSpace(l[m - 1]) by {
        assert m - 1 == p || l[m - 1] == ':';
      }
      TrimEndLength(l, m);
      DropColonsLength(t, p);
      assert u[|u| - 1] == l[p];
    }
  }

  /** `trimEnd` stops at the last character that is not whitespace. */
  lemma {:induction false} TrimEndLength(l: string, m: nat)
    requires 0 < m <= |l| && !IsSpace(l[m - 1]) && AllSpace(l[m..])
    ensures |TrimEnd(l)| == m
    decreases |l|
  {
    if |l| > m {
      var init := l[..|l| - 1];
      assert IsSpace(l[m..][|l| - 1 - m]);
      assert init[m..] == l[m..|l| - 1];
      TrimEndLength(init, m);
    }
  }

  /** Dropping the trailing colons stops at the last other character. */
  lemma {:induction false} DropColonsLength(t: string, p: nat)
    requires p < |t| && t[p] != ':' && forall k :: p < k < |t| ==> t[k] == ':'
    ensures |DropColons(t)| == p + 1
    decreases |t|
  {
    if |t| > p + 1 {
      DropColonsLength(t[..|t| - 1], p);
    }
  }

  /** The address at line `i`: followed by the next line when it ends with
      a comma and there is a next line. */
  function WithNextLine(lines: seq<string>, i: nat): string
    requires i < |lines|
  {
    if CommaTest(lines[i]) && i + 1 < |lines| && lines[i + 1] != "" then lines[i] + " " + lines[i + 1]
    else lines[i]
  }

  /** The first address line at or after `i`. */
  function AddressFrom(lines: seq<string>, i: nat): Option<string>
    requires i <= |lines|
    decreases |lines| - i
  {
    if i == |lines| then None
    else if IsAddressLine(lines[i]) then Some(WithNextLine(lines, i))
    else AddressFrom(lines, i + 1)
  }

  /** Line `j` is the first address line at or after `i`, and `v` is the
      address it gives: the line, followed by the next line when it ends
      with a comma. */
  ghost predicate FirstAddress(lines: seq<string>, i: nat, j: nat, v: string) {
    && i <= j < |lines| && IsAddressLine(lines[j])
    && (forall k :: i <= k < j ==> !IsAddressLine(lines[k]))
    && v == (if EndsWithComma(lines[j]) && j + 1 < |lines| then lines[j] + " " + lines[j + 1] else lines[j])
  }

  lemma AddressHere(lines: seq<string>, i: nat)
    requires i < |lines| && IsAddressLine(lines[i])
    requires i + 1 < |lines| ==> lines[i + 1] != ""
    ensures FirstAddress(lines, i, i, WithNextLine(lines, i))
  {
    CommaTestIsRegex(lines[i]);
  }

  /** An address comes from the first address line, completed by the line
      after it when it ends with a comma; there is none when no line looks
      like an address. */
  lemma {:induction false} AddressFromFirst(lines: seq<string>, i: nat)
    requires i <= |lines|
    requires forall k :: 0 <= k < |lines| ==> lines[k] != ""
    ensures match AddressFrom(lines, i)
      case Some(v) => exists j :: FirstAddress(lines, i, j, v)
      case None => forall k :: i <= k < |lines| ==> !IsAddressLine(lines[k])
    decreases |lines| - i
  {
    if i < |lines| {
      if IsAddressLine(lines[i]) {
        AddressHere(lines, i);
        assert AddressFrom(lines, i) == Some(WithNextLine(lines, i));
      } else {
        AddressFromFirst(lines, i + 1);
        assert AddressFrom(lines, i) == AddressFrom(lines, i + 1);
        match AddressFrom(lines, i + 1)
        case Some(v) =>
          var j :| FirstAddress(lines, i + 1, j, v);
          assert FirstAddress(lines, i, j, v);
          assert AddressFrom(lines, i) == Some(v);
          assert exists j' :: FirstAddress(lines, i, j', AddressFrom(lines, i).value);
        case None =>
      }
    }
  }

  /** The value of the Flat fallback: `Flat`, one whitespace character and
      a character that is not whitespace, with nothing trimmable at the end. */
  predicate IsFlatValue(v: string) {
    |v| >= 6 && StartsWithCI(v, 0, "flat") && IsSpace(v[4]) && !IsSpace(v[5]) && Trimmed(v)
  }

  /** The fallback: `Flat …` up to a city, a six-digit PIN code or the end,
      in the text with newline runs made single spaces. */
  function FlatStrategy(text: string): (r: Option<string>)
    ensures r.None? <==> MatchesNowhere(CollapseNewlines(text), FlatPattern)
    ensures r.Some? ==> IsFlatValue(r.value)
  {
    match Search(CollapseNewlines(text), FlatPattern)
    case Some(c) =>
      FlatTrim(CollapseNewlines(text), c);
      Some(Trim(c))
    case None => None
  }

  lemma FlatTrim(oneLine: string, c: string)
    requires IsCaptureOf(oneLine, c, Flat)
    ensures IsFlatValue(Trim(c))
  {
    var sp :| Captured(oneLine, sp, Flat) && c == oneLine[sp.start..sp.end];
    assert IsFlat(c);
    assert !IsSpace(c[0]) by {
      assert Fold(c[0 + 0]) == "flat"[0];
    }
    assert TrimStart(c) == c;
    var r := TrimEnd(c);
    assert |r| >= 6;
    assert StartsWithCI(r, 0, "flat") by {
      forall k | 0 <= k < 4 ensures Fold(r[k]) == "flat"[k] {
        assert r[k] == c[k];
      }
    }
    assert r[4] == c[4] && r[5] == c[5];
  }

  /** The address of the document: the first address line, or else the
      Flat fallback. */
  function Location(text: string): (r: Option<string>)
  {
    var a := AddressFrom(Lines(text), 0);
    if a.Some? then a else FlatStrategy(text)
  }

  /** `extractLocation`: the lines are scanned in order and the first
      address line is returned; the fallback runs only when there is none. */
  method ExtractLocation(text: string) returns (loc: Option<string>)
    ensures loc == Location(text)
  {
    var lines := Lines(text);
    for i := 0 to |lines|
      invariant AddressFrom(lines, 0) == AddressFrom(lines, i)
    {
      if IsAddressLine(lines[i]) {
        var l := lines[i];
        if CommaTest(l) && i + 1 < |lines| && lines[i + 1] != "" {
          l := l + " " + lines[i + 1];
        }
        return Some(l);
      }
    }
    var m := Search(CollapseNewlines(text), FlatPattern);
    if m.Some? {
      return Some(Trim(m.value));
    }
    return None;
  }

  /** Where the location comes from: the first address line of the text,
      or, when there is none, a `Flat …` clause. */
  lemma LocationSpec(text: string)
    ensures var lines := Lines(text);
      match Location(text)
      case Some(v) =>
        || (exists j :: FirstAddress(lines, 0, j, v))
        || ((forall k :: 0 <= k < |lines| ==> !IsAddressLine(lines[k])) && IsFlatValue(v))
      case None =>
        && (forall k :: 0 <= k < |lines| ==> !IsAddressLine(lines[k]))
        && MatchesNowhere(CollapseNewlines(text), FlatPattern)
  {
    AddressFromFirst(Lines(text), 0);
  }
}
