/** The regular expressions of the verification engine, each as a dedicated
    backtracking matcher over the text. All of them carry the `i` flag, so
    literals are compared through `Fold`; none is in unicode mode.

    A greedy quantifier first takes as many characters as its class allows and
    gives them back one at a time when the rest of the pattern fails, an
    optional item is first tried present and then absent, and alternatives are
    tried in the order written: the first success in that order is the match,
    as in the backtracking semantics of ECMA-262. `exec` tries every start
    position from 0 up to the length of the text and reports the first match. */
module Patterns {
  import opened JsStrings

  /** The positions of a capture group: `s[start..end]`. */
  datatype Span = Span(start: nat, end: nat)

  /** The item a pattern ends with, whose text is the capture. */
  datatype Shape =
    | Amount   // ([0-9]{3,7})
    | Date     // ([0-3]?\d[-/][0-1]?\d[-/]\d{4})
    | Name     // ([A-Za-z.\s]{4,40})
    | Braced   // ([A-Za-z.\s]{4,40?}), read as one class character and the text "{4,4", "0"?, "}"
    | Flat     // (Flat\s\S.+?)

  /** `[A-Za-z.\s]` under the `i` flag. */
  predicate IsNameChar(c: char) {
    IsLetter(c) || c == '.' || IsSpace(c)
  }

  /** `[-/]` */
  predicate IsDateSep(c: char) {
    c == '-' || c == '/'
  }

  /** `[:\-]` */
  predicate IsLabelSep(c: char) {
    c == ':' || c == '-'
  }

  // ----------------------------------------------------------------- dates

  /** `[0-3]?\d[-/][0-1]?\d[-/]\d{4}` with `a` day digits and `b` month digits. */
  predicate DateForm(d: string, a: nat, b: nat) {
    && (a == 1 || a == 2) && (b == 1 || b == 2)
    && |d| == a + b + 6
    && (a == 2 ==> '0' <= d[0] <= '3')
    && IsDigit(d[a - 1]) && IsDateSep(d[a])
    && (b == 2 ==> '0' <= d[a + 1] <= '1')
    && IsDigit(d[a + b]) && IsDateSep(d[a + b + 1])
    && AllDigits(d[a + b + 2..])
  }

  predicate IsDate(d: string) {
    DateForm(d, 2, 2) || DateForm(d, 2, 1) || DateForm(d, 1, 2) || DateForm(d, 1, 1)
  }

  predicate FormAt(s: string, q: nat, a: nat, b: nat) {
    q + a + b + 6 <= |s| && DateForm(s[q..q + a + b + 6], a, b)
  }

  /** A date of `n` characters starts at `q`. */
  predicate DateOfLength(s: string, q: nat, n: nat) {
    q + n <= |s| && IsDate(s[q..q + n])
  }

  /** The end of the date at `q`. The optional leading digits are tried
      present first, so the forms come in the order (2, 2), (2, 1), (1, 2),
      (1, 1); nothing follows a date in any pattern, so the first form that
      fits is the match. */
  function DateAt(s: string, q: nat): (e: Option<nat>)
    ensures e.Some? ==> q < e.value <= |s| && IsDate(s[q..e.value])
    ensures e.None? <==> forall n: nat :: !DateOfLength(s, q, n)
  {
    assert forall n: nat :: DateOfLength(s, q, n) ==>
      FormAt(s, q, 2, 2) || FormAt(s, q, 2, 1) || FormAt(s, q, 1, 2) || FormAt(s, q, 1, 1);
    if FormAt(s, q, 2, 2) then assert DateOfLength(s, q, 10); Some(q + 10)
    else if FormAt(s, q, 2, 1) then assert DateOfLength(s, q, 9); Some(q + 9)
    else if FormAt(s, q, 1, 2) then assert DateOfLength(s, q, 9); Some(q + 9)
    else if FormAt(s, q, 1, 1) then assert DateOfLength(s, q, 8); Some(q + 8)
    else None
  }

  /** An eight- to ten-character date. */
  lemma DateLength(d: string)
    requires IsDate(d)
    ensures 8 <= |d| <= 10 && IsDigit(d[0]) && IsDigit(d[|d| - 1])
  {
    if DateForm(d, 2, 2) {
      FormLast(d, 2, 2);
    } else if DateForm(d, 2, 1) {
      FormLast(d, 2, 1);
    } else if DateForm(d, 1, 2) {
      FormLast(d, 1, 2);
    } else {
      FormLast(d, 1, 1);
    }
  }

  lemma FormLast(d: string, a: nat, b: nat)
    requires DateForm(d, a, b)
    ensures IsDigit(d[0]) && IsDigit(d[|d| - 1])
  {
    assert d[|d| - 1] == d[a + b + 2..][3];
  }

  // ------------------------------------------------- the captured items

  /** What each kind of capture holds. */
  predicate Captured(s: string, sp: Span, shape: Shape) {
    && sp.start <= sp.end <= |s|
    && match shape
       case Amount => 3 <= sp.end - sp.start <= 7 && AllDigits(s[sp.start..sp.end])
       case Date => IsDate(s[sp.start..sp.end])
       case Name => 4 <= sp.end - sp.start <= 40 && forall k :: sp.start <= k < sp.end ==> IsNameChar(s[k])
       case Braced => IsBraced(s[sp.start..sp.end])
       case Flat => IsFlat(s[sp.start..sp.end])
  }

  /** One class character followed by `{4,40}` or `{4,4}`. */
  predicate IsBraced(c: string) {
    (|c| == 7 && IsNameChar(c[0]) && c[1..] == "{4,40}")
    || (|c| == 6 && IsNameChar(c[0]) && c[1..] == "{4,4}")
  }

  /** `Flat\s\S.+?`: the word, one whitespace character, one other character
      and at least one more, none of them a line terminator. */
  predicate IsFlat(c: string) {
    && |c| >= 7
    && StartsWithCI(c, 0, "flat")
    && IsSpace(c[4]) && !IsSpace(c[5])
    && forall k :: 6 <= k < |c| ==> !IsLineTerminator(c[k])
  }

  // ------------------------------------------------------------ tails

  /** The last item of a date or name pattern, at `q`: a date, or
      `[A-Za-z.\s]{4,40}`, which as the last item takes as many characters
      as there are, up to 40. */
  function FinalAt(s: string, q: nat, shape: Shape): (r: Option<Span>)
    requires q <= |s| && (shape == Date || shape == Name)
    ensures r.Some? ==> r.value.start == q && Captured(s, r.value, shape)
  {
    if shape == Date then
      match DateAt(s, q)
      case Some(e) => Some(Span(q, e))
      case None => None
    else
      var n := Run(s, q, IsNameChar);
      if n >= 4 then Some(Span(q, q + Min(n, 40))) else None
  }

  /** `\s*` followed by the last item, with `w` of the spaces taken. */
  function SpacesThen(s: string, q: nat, w: nat, shape: Shape): (r: Option<Span>)
    requires q + w <= |s| && (shape == Date || shape == Name)
    ensures r.Some? ==> q <= r.value.start && Captured(s, r.value, shape)
    decreases w
  {
    var r := FinalAt(s, q + w, shape);
    if r.Some? then r
    else if w == 0 then None
    else SpacesThen(s, q, w - 1, shape)
  }

  function Spaces(s: string, q: nat, shape: Shape): (r: Option<Span>)
    requires q <= |s| && (shape == Date || shape == Name)
    ensures r.Some? ==> q <= r.value.start && Captured(s, r.value, shape)
  {
    SpacesThen(s, q, SpaceRun(s, q), shape)
  }

  /** `\s*[:\-]?\s*` followed by the last item, with `w` of the first
      spaces taken. */
  function SepThen(s: string, q: nat, w: nat, shape: Shape): (r: Option<Span>)
    requires q + w <= |s| && (shape == Date || shape == Name)
    ensures r.Some? ==> q <= r.value.start && Captured(s, r.value, shape)
    decreases w
  {
    var p := q + w;
    var taken := if p < |s| && IsLabelSep(s[p]) then Spaces(s, p + 1, shape) else None;
    var r := if taken.Some? then taken else Spaces(s, p, shape);
    if r.Some? then r
    else if w == 0 then None
    else SepThen(s, q, w - 1, shape)
  }

  function Sep(s: string, q: nat, shape: Shape): (r: Option<Span>)
    requires q <= |s| && (shape == Date || shape == Name)
    ensures r.Some? ==> q <= r.value.start && Captured(s, r.value, shape)
  {
    SepThen(s, q, SpaceRun(s, q), shape)
  }

  /** `\s*word\s*[:\-]?\s*` followed by the last item, with `w` of the first
      spaces taken. */
  function WordSepThen(s: string, q: nat, w: nat, word: string, shape: Shape): (r: Option<Span>)
    requires q + w <= |s| && (shape == Date || shape == Name)
    ensures r.Some? ==> q <= r.value.start && Captured(s, r.value, shape)
    decreases w
  {
    var p := q + w;
    var r := if StartsWithCI(s, p, word) then Sep(s, p + |word|, shape) else None;
    if r.Some? then r
    else if w == 0 then None
    else WordSepThen(s, q, w - 1, word, shape)
  }

  function WordSep(s: string, q: nat, word: string, shape: Shape): (r: Option<Span>)
    requires q <= |s| && (shape == Date || shape == Name)
    ensures r.Some? ==> q <= r.value.start && Captured(s, r.value, shape)
  {
    WordSepThen(s, q, SpaceRun(s, q), word, shape)
  }

  // ------------------------------------------------------------ keywords

  /** One alternative of a keyword group: a word, or two words with `\s*`
      between them. */
  datatype Keyword = Word(w: string) | Spaced(first: string, second: string)

  /** `\s*second\s*` and a date, with `w` of the first spaces taken. */
  function SecondThenDate(s: string, q: nat, w: nat, second: string): (r: Option<Span>)
    requires q + w <= |s|
    ensures r.Some? ==> q <= r.value.start && Captured(s, r.value, Date)
    decreases w
  {
    var p := q + w;
    var r := if StartsWithCI(s, p, second) then Spaces(s, p + |second|, Date) else None;
    if r.Some? then r
    else if w == 0 then None
    else SecondThenDate(s, q, w - 1, second)
  }

  /** One keyword alternative at `p`, then `\s*` and a date. */
  function KeywordThenDate(s: string, p: nat, kw: Keyword): (r: Option<Span>)
    requires p <= |s|
    ensures r.Some? ==> p <= r.value.start && Captured(s, r.value, Date)
  {
    match kw
    case Word(a) =>
      if StartsWithCI(s, p, a) then Spaces(s, p + |a|, Date) else None
    case Spaced(a, b) =>
      if StartsWithCI(s, p, a) then SecondThenDate(s, p + |a|, SpaceRun(s, p + |a|), b) else None
  }

  /** The alternatives of `(?:a|b|...)` in order, then `\s*` and a date. */
  function KeywordsThenDate(s: string, p: nat, kws: seq<Keyword>): (r: Option<Span>)
    requires p <= |s|
    ensures r.Some? ==> p <= r.value.start && Captured(s, r.value, Date)
  {
    if kws == [] then None
    else
      var r := KeywordThenDate(s, p, kws[0]);
      if r.Some? then r else KeywordsThenDate(s, p, kws[1..])
  }

  /** `from|start(?:ed)?|commencement`, the optional `ed` tried first. */
  const StartKeywords: seq<Keyword> :=
    [Word("from"), Word("started"), Word("start"), Word("commencement")]

  /** `to|till|till\s*date|end(?:ed)?|expiry|valid\s*till`. */
  const EndKeywords: seq<Keyword> :=
    [Word("to"), Word("till"), Spaced("till", "date"), Word("ended"), Word("end"),
     Word("expiry"), Spaced("valid", "till")]

  // ------------------------------------------------------------ the rent

  /** `[^0-9₹rs$]` under the `i` flag. */
  predicate IsRentFiller(c: char) {
    !IsDigit(c) && c != '\U{20B9}' && c != 'r' && c != 'R' && c != 's' && c != 'S' && c != '$'
  }

  /** `[₹\sRs$]` under the `i` flag. */
  predicate IsCurrency(c: char) {
    c == '\U{20B9}' || IsSpace(c) || c == 'r' || c == 'R' || c == 's' || c == 'S' || c == '$'
  }

  /** `([0-9]{3,7})` as the last item: as many digits as there are, up to 7. */
  function AmountAt(s: string, q: nat): (r: Option<Span>)
    requires q <= |s|
    ensures r.Some? ==> r.value.start == q && Captured(s, r.value, Amount)
  {
    var n := Run(s, q, IsDigit);
    if n >= 3 then Some(Span(q, q + Min(n, 7))) else None
  }

  /** `[₹\sRs$]*` with `w` characters taken, then the amount. */
  function CurrencyThen(s: string, q: nat, w: nat): (r: Option<Span>)
    requires q + w <= |s|
    ensures r.Some? ==> q <= r.value.start && Captured(s, r.value, Amount)
    decreases w
  {
    var r := AmountAt(s, q + w);
    if r.Some? then r
    else if w == 0 then None
    else CurrencyThen(s, q, w - 1)
  }

  /** `[^0-9₹rs$]*` with `w` characters taken, then the currency and the amount. */
  function FillerThen(s: string, q: nat, w: nat): (r: Option<Span>)
    requires q + w <= |s|
    ensures r.Some? ==> q <= r.value.start && Captured(s, r.value, Amount)
    decreases w
  {
    var p := q + w;
    var r := CurrencyThen(s, p, Run(s, p, IsCurrency));
    if r.Some? then r
    else if w == 0 then None
    else FillerThen(s, q, w - 1)
  }

  /** Everything after the word `rent`. */
  function RentTail(s: string, q: nat): (r: Option<Span>)
    requires q <= |s|
    ensures r.Some? ==> q <= r.value.start && Captured(s, r.value, Amount)
  {
    FillerThen(s, q, Run(s, q, IsRentFiller))
  }

  /** `\s+rent` and the rest, with `w` (at least one) of the spaces taken. */
  function MonthlySpacesThen(s: string, q: nat, w: nat): (r: Option<Span>)
    requires 1 <= w && q + w <= |s|
    ensures r.Some? ==> q <= r.value.start && Captured(s, r.value, Amount)
    decreases w
  {
    var p := q + w;
    var r := if StartsWithCI(s, p, "rent") then RentTail(s, p + 4) else None;
    if r.Some? then r
    else if w == 1 then None
    else MonthlySpacesThen(s, q, w - 1)
  }

  // --------------------------------------------------------- between

  /** `[A-Za-z.\s]` followed by `{4,4`, then `0}` when `zero` and `}`
      otherwise: the end of that text at `c`, if it is there. */
  function BracedEnd(s: string, c: nat, zero: bool): (e: Option<nat>)
    ensures e.Some? ==> c < e.value <= |s| && IsBraced(s[c..e.value])
  {
    var tail := if zero then "{4,40}" else "{4,4}";
    if c + 1 + |tail| <= |s| && IsNameChar(s[c]) && s[c + 1..c + 1 + |tail|] == tail then
      assert s[c..c + 1 + |tail|][1..] == tail;
      Some(c + 1 + |tail|)
    else None
  }

  /** `\s+` with `w` (at least one) of the spaces taken, then the last
      braced item; nothing follows it, so the optional `0` decides alone. */
  function SecondBraced(s: string, q: nat, w: nat): (r: Option<Span>)
    requires 1 <= w && q + w <= |s|
    ensures r.Some? ==> q <= r.value.start && Captured(s, r.value, Braced)
    decreases w
  {
    var c := q + w;
    var e := match BracedEnd(s, c, true) case Some(e) => Some(e) case None => BracedEnd(s, c, false);
    if e.Some? then Some(Span(c, e.value))
    else if w == 1 then None
    else SecondBraced(s, q, w - 1)
  }

  /** `(?:and|represented by)\s+` at `p` and the second braced item. */
  function ConjunctionThen(s: string, p: nat): (r: Option<Span>)
    requires p <= |s|
    ensures r.Some? ==> p <= r.value.start && Captured(s, r.value, Braced)
  {
    var r1 := if StartsWithCI(s, p, "and") && SpaceRun(s, p + 3) >= 1
      then SecondBraced(s, p + 3, SpaceRun(s, p + 3)) else None;
    if r1.Some? then r1
    else if StartsWithCI(s, p, "represented by") && SpaceRun(s, p + 14) >= 1
      then SecondBraced(s, p + 14, SpaceRun(s, p + 14))
    else None
  }

  /** `\s+` with `w` (at least one) of the spaces taken, then the
      conjunction and the second item. */
  function MiddleThen(s: string, q: nat, w: nat): (r: Option<Span>)
    requires 1 <= w && q + w <= |s|
    ensures r.Some? ==> q <= r.value.start && Captured(s, r.value, Braced)
    decreases w
  {
    var r := ConjunctionThen(s, q + w);
    if r.Some? then r
    else if w == 1 then None
    else MiddleThen(s, q, w - 1)
  }

  /** Both captures of the pattern. */
  datatype Pair = Pair(first: Span, second: Span)

  /** The first braced item at `c` (with the `0` first, then without) and
      the rest of the pattern. */
  function FirstBracedThen(s: string, c: nat): (r: Option<Pair>)
    ensures r.Some? ==> Captured(s, r.value.first, Braced) && Captured(s, r.value.second, Braced)
    ensures r.Some? ==> r.value.first.start == c && r.value.first.end <= r.value.second.start
  {
    var withZero := BracedEnd(s, c, true);
    var r1 :=
      if withZero.Some? && SpaceRun(s, withZero.value) >= 1
      then MiddleThen(s, withZero.value, SpaceRun(s, withZero.value)) else None;
    if r1.Some? then Some(Pair(Span(c, withZero.value), r1.value))
    else
      var without := BracedEnd(s, c, false);
      var r2 :=
        if without.Some? && SpaceRun(s, without.value) >= 1
        then MiddleThen(s, without.value, SpaceRun(s, without.value)) else None;
      if r2.Some? then Some(Pair(Span(c, without.value), r2.value)) else None
  }

  /** `between\s+` with `w` (at least one) of the spaces taken, then the rest. */
  function BetweenSpacesThen(s: string, q: nat, w: nat): (r: Option<Pair>)
    requires 1 <= w && q + w <= |s|
    ensures r.Some? ==> Captured(s, r.value.first, Braced) && Captured(s, r.value.second, Braced)
    ensures r.Some? ==> q < r.value.first.start && r.value.first.end <= r.value.second.start
    decreases w
  {
    var r := FirstBracedThen(s, q + w);
    if r.Some? then r
    else if w == 1 then None
    else BetweenSpacesThen(s, q, w - 1)
  }

  /** The whole between pattern at `p`. */
  function BetweenAt(s: string, p: nat): (r: Option<Pair>)
    requires p <= |s|
    ensures r.Some? ==> Captured(s, r.value.first, Braced) && Captured(s, r.value.second, Braced)
    ensures r.Some? ==> p < r.value.first.start && r.value.first.end <= r.value.second.start
  {
    if StartsWithCI(s, p, "between") && SpaceRun(s, p + 7) >= 1
    then BetweenSpacesThen(s, p + 7, SpaceRun(s, p + 7))
    else None
  }

  // ----------------------------------------------------- the Flat fallback

  /** A city of `(?:Chennai|Bengaluru|Hyderabad|Mumbai|Delhi)` at `p`. */
  predicate CityAt(s: string, p: nat) {
    StartsWithCI(s, p, "chennai") || StartsWithCI(s, p, "bengaluru") || StartsWithCI(s, p, "hyderabad")
    || StartsWithCI(s, p, "mumbai") || StartsWithCI(s, p, "delhi")
  }

  /** `\s*` with `w` of the spaces taken, then a city; `[^,]*` after the
      city always matches. */
  predicate SpacesCity(s: string, q: nat, w: nat)
    requires q + w <= |s|
    decreases w
  {
    CityAt(s, q + w) || (w > 0 && SpacesCity(s, q, w - 1))
  }

  /** `\b` at `p` (word characters are ASCII only). */
  predicate Boundary(s: string, p: nat)
    requires p <= |s|
  {
    (p > 0 && IsWordChar(s[p - 1])) != (p < |s| && IsWordChar(s[p]))
  }

  /** `\b\d{6}\b` at `p`. */
  predicate PinAt(s: string, p: nat)
    requires p <= |s|
  {
    Boundary(s, p) && p + 6 <= |s| && AllDigits(s[p..p + 6]) && Boundary(s, p + 6)
  }

  /** `\s*\b\d{6}\b` with `w` of the spaces taken. */
  predicate SpacesPin(s: string, q: nat, w: nat)
    requires q + w <= |s|
    decreases w
  {
    PinAt(s, q + w) || (w > 0 && SpacesPin(s, q, w - 1))
  }

  /** Whether the text after the lazy part can end the pattern at `e`:
      `,\s*(?:city)[^,]*` or `,?\s*\b\d{6}\b` or the end of the text. */
  predicate ClauseEnd(s: string, e: nat)
    requires e <= |s|
  {
    || (e < |s| && s[e] == ',' && SpacesCity(s, e + 1, SpaceRun(s, e + 1)))
    || (e < |s| && s[e] == ',' && SpacesPin(s, e + 1, SpaceRun(s, e + 1)))
    || SpacesPin(s, e, SpaceRun(s, e))
    || e == |s|
  }

  /** `.+?` followed by the clause end: the lazy part grows one character
      at a time from the shortest, and stops at a line terminator. The
      capture ends at `e`, which is past at least one character of `.+?`. */
  function LazyEnd(s: string, start: nat, e: nat): (r: Option<nat>)
    requires start + 7 <= e <= |s|
    requires forall k :: start + 6 <= k < e ==> !IsLineTerminator(s[k])
    ensures r.Some? ==> e <= r.value <= |s| && ClauseEnd(s, r.value)
    ensures r.Some? ==> forall k :: start + 6 <= k < r.value ==> !IsLineTerminator(s[k])
    decreases |s| - e
  {
    if ClauseEnd(s, e) then Some(e)
    else if e < |s| && !IsLineTerminator(s[e]) then LazyEnd(s, start, e + 1)
    else None
  }

  /** The Flat pattern at `p`. */
  function FlatAt(s: string, p: nat): (r: Option<Span>)
    requires p <= |s|
    ensures r.Some? ==> r.value.start == p && Captured(s, r.value, Flat)
  {
    if StartsWithCI(s, p, "flat") && p + 7 <= |s| && IsSpace(s[p + 4]) && !IsSpace(s[p + 5])
       && !IsLineTerminator(s[p + 6])
    then
      match LazyEnd(s, p, p + 7)
      case Some(e) =>
        var c := s[p..e];
        assert StartsWithCI(c, 0, "flat") by {
          forall k | 0 <= k < 4 ensures Fold(c[k]) == "flat"[k] {
            assert c[k] == s[p + k];
          }
        }
        assert forall k :: 6 <= k < |c| ==> c[k] == s[p + k];
        Some(Span(p, e))
      case None => None
    else None
  }

  // ------------------------------------------------------------ patterns

  datatype Role = Tenant | Landlord

  /** The word for a role, and the word used in its place in leases. */
  function RoleWord(role: Role): string {
    if role == Tenant then "tenant" else "landlord"
  }

  function AltRoleWord(role: Role): string {
    if role == Tenant then "lessee" else "lessor"
  }

  datatype Pattern =
    | RentPattern        // (?:monthly\s+)?rent[^0-9₹rs$]*[₹\sRs$]*([0-9]{3,7})
    | StartPattern       // (?:from|start(?:ed)?|commencement)\s*(date)
    | StartLabelPattern  // start\s*date\s*[:\-]?\s*(date)
    | EndPattern         // (?:to|till|till\s*date|end(?:ed)?|expiry|valid\s*till)\s*(date)
    | EndLabelPattern    // end\s*date\s*[:\-]?\s*(date)
    | LabelPattern(role: Role)    // (?:role|alt)(?:\s*name)?\s*[:\-]?\s*([A-Za-z.\s]{4,40})
    | BetweenPattern(role: Role)  // between\s+(..)\s+(?:and|represented by)\s+(..); landlord first
    | FlatPattern        // (Flat\s\S.+?)(?:,\s*(?:cities)[^,]*|,?\s*\b\d{6}\b|$)

  function ShapeOf(pat: Pattern): Shape {
    match pat
    case RentPattern => Amount
    case StartPattern => Date
    case StartLabelPattern => Date
    case EndPattern => Date
    case EndLabelPattern => Date
    case LabelPattern(_) => Name
    case BetweenPattern(_) => Braced
    case FlatPattern => Flat
  }

  /** The label alternative `word` at `p`: the optional `\s*name` is tried
      first. */
  function LabelAfter(s: string, p: nat, word: string): (r: Option<Span>)
    requires p <= |s|
    ensures r.Some? ==> Captured(s, r.value, Name)
  {
    if StartsWithCI(s, p, word) then
      var q := p + |word|;
      var r := WordSep(s, q, "name", Name);
      if r.Some? then r else Sep(s, q, Name)
    else None
  }

  /** The capture of the match of `pat` starting at `p`, if there is one. */
  function MatchAt(s: string, p: nat, pat: Pattern): Option<Span>
    requires p <= |s|
  {
    match pat
    case RentPattern =>
      var monthly :=
        if StartsWithCI(s, p, "monthly") && SpaceRun(s, p + 7) >= 1
        then MonthlySpacesThen(s, p + 7, SpaceRun(s, p + 7)) else None;
      if monthly.Some? then monthly
      else if StartsWithCI(s, p, "rent") then RentTail(s, p + 4)
      else None
    case StartPattern => KeywordsThenDate(s, p, StartKeywords)
    case StartLabelPattern => if StartsWithCI(s, p, "start") then WordSep(s, p + 5, "date", Date) else None
    case EndPattern => KeywordsThenDate(s, p, EndKeywords)
    case EndLabelPattern => if StartsWithCI(s, p, "end") then WordSep(s, p + 3, "date", Date) else None
    case LabelPattern(role) =>
      var r := LabelAfter(s, p, RoleWord(role));
      if r.Some? then r else LabelAfter(s, p, AltRoleWord(role))
    case BetweenPattern(role) =>
      (match BetweenAt(s, p)
       case Some(pair) => Some(if role == Landlord then pair.first else pair.second)
       case None => None)
    case FlatPattern => FlatAt(s, p)
  }

  /** Every match captures text of the shape its pattern ends with. */
  lemma MatchCaptures(s: string, p: nat, pat: Pattern)
    requires p <= |s|
    ensures MatchAt(s, p, pat).Some? ==> Captured(s, MatchAt(s, p, pat).value, ShapeOf(pat))
  {
  }

  /** Whether `pat` matches at `p`. */
  predicate MatchesAt(s: string, pat: Pattern, p: nat) {
    p <= |s| && MatchAt(s, p, pat).Some?
  }

  /** `pat` matches at no position of `s`. */
  ghost predicate MatchesNowhere(s: string, pat: Pattern) {
    forall q: nat :: !MatchesAt(s, pat, q)
  }

  /** The first `true` at or after `p`. */
  function FirstTrue(t: seq<bool>, p: nat): (r: Option<nat>)
    ensures match r
      case Some(at) => p <= at < |t| && t[at] && forall q :: p <= q < at ==> !t[q]
      case None => forall q :: p <= q < |t| ==> !t[q]
    decreases |t| - p
  {
    if p >= |t| then None
    else if t[p] then Some(p)
    else FirstTrue(t, p + 1)
  }

  /** Whether the pattern matches, for each start position from 0 to `|s|`. */
  function Attempts(s: string, pat: Pattern): (t: seq<bool>)
    ensures |t| == |s| + 1
  {
    seq(|s| + 1, q requires 0 <= q <= |s| => MatchesAt(s, pat, q))
  }

  /** `RegExp.prototype.exec`: the start positions are tried in order and the
      first one where the pattern matches is reported. */
  function Exec(s: string, pat: Pattern): Option<nat> {
    FirstTrue(Attempts(s, pat), 0)
  }

  /** `exec` reports the leftmost match, and nothing when the pattern
      matches nowhere. */
  lemma ExecLeftmost(s: string, pat: Pattern)
    ensures match Exec(s, pat)
      case Some(at) => MatchesAt(s, pat, at) && forall q: nat :: q < at ==> !MatchesAt(s, pat, q)
      case None => MatchesNowhere(s, pat)
  {
    var t := Attempts(s, pat);
    assert forall q: nat :: q <= |s| ==> t[q] == MatchesAt(s, pat, q);
  }

  /** `c` is text of `s` captured by an item of the given shape. */
  ghost predicate IsCaptureOf(s: string, c: string, shape: Shape) {
    exists sp :: Captured(s, sp, shape) && c == s[sp.start..sp.end]
  }

  /** The captured text of the leftmost match, or `None` when nothing matches. */
  function Search(s: string, pat: Pattern): (r: Option<string>)
    ensures r.None? <==> MatchesNowhere(s, pat)
    ensures r.Some? ==> IsCaptureOf(s, r.value, ShapeOf(pat))
  {
    ExecLeftmost(s, pat);
    match Exec(s, pat)
    case Some(at) =>
      MatchCaptures(s, at, pat);
      var sp := MatchAt(s, at, pat).value;
      Some(s[sp.start..sp.end])
    case None => None
  }

  // ------------------------------------------------------ name candidates

  /** `[a-z']`; this pattern has no `i` flag, so the case counts. */
  predicate IsNameTail(c: char) {
    IsLower(c) || c == '\''
  }

  /** The characters a candidate is made of. */
  predicate IsChainChar(c: char) {
    IsUpper(c) || IsNameTail(c) || IsSpace(c)
  }

  /** The length of the run of `[a-z']` characters at `p`. */
  function TailRun(s: string, p: nat): (n: nat)
    requires p <= |s|
    ensures p + n <= |s|
    ensures forall k :: p <= k < p + n ==> IsNameTail(s[k])
    decreases |s| - p
  {
    if p < |s| && IsNameTail(s[p]) then 1 + TailRun(s, p + 1) else 0
  }

  /** Every character of `s[i..j]` may belong to a candidate. */
  predicate ChainChars(s: string, i: nat, j: nat)
    requires i <= j <= |s|
  {
    forall k :: i <= k < j ==> IsChainChar(s[k])
  }

  lemma ChainCharsConcat(s: string, i: nat, j: nat, k: nat)
    requires i <= j <= k <= |s| && ChainChars(s, i, j) && ChainChars(s, j, k)
    ensures ChainChars(s, i, k)
  {
  }

  /** `[A-Z][a-z']+` at `p`: its end. `[a-z']+` takes the whole run, and
      giving a character back never helps, since what follows a word in the
      pattern is whitespace or nothing. */
  function CapWordAt(s: string, p: nat): (e: Option<nat>)
    requires p <= |s|
    ensures e.Some? ==> p + 2 <= e.value <= |s| && IsUpper(s[p]) && IsNameTail(s[e.value - 1])
    ensures e.Some? ==> ChainChars(s, p, e.value)
  {
    if p < |s| && IsUpper(s[p]) then
      var n := TailRun(s, p + 1);
      if n >= 1 then Some(p + 1 + n) else None
    else None
  }

  /** A run of whitespace may sit inside a candidate. */
  lemma SpacesChain(s: string, p: nat)
    requires p <= |s|
    ensures ChainChars(s, p, p + SpaceRun(s, p))
  {
  }

  /** The next word of a chain after `e`: `\s+[A-Z][a-z']+`. */
  function NextWord(s: string, e: nat): (f: Option<nat>)
    requires e <= |s|
    ensures f.Some? ==> e < f.value <= |s| && IsNameTail(s[f.value - 1])
  {
    var w := SpaceRun(s, e);
    if w >= 1 then CapWordAt(s, e + w) else None
  }

  /** `(?:\s+[A-Z][a-z']+)*` after a word that ends at `e`: every further
      word is taken, and the chain ends after the last one. */
  function ChainEnd(s: string, e: nat): (r: nat)
    requires e <= |s|
    ensures e <= r <= |s|
    ensures r == e || IsNameTail(s[r - 1])
    decreases |s| - e
  {
    var f := NextWord(s, e);
    if f.None? then e else ChainEnd(s, f.value)
  }

  /** The words of a chain and the whitespace between them. */
  lemma {:induction false} ChainEndChars(s: string, e: nat)
    requires e <= |s|
    ensures ChainChars(s, e, ChainEnd(s, e))
    decreases |s| - e
  {
    var f := NextWord(s, e);
    if f.Some? {
      ChainEndChars(s, f.value);
      SpacesChain(s, e);
      var w := SpaceRun(s, e);
      ChainCharsConcat(s, e, e + w, f.value);
      ChainCharsConcat(s, e, f.value, ChainEnd(s, e));
    }
  }

  /** `[A-Z][a-z']+(?:\s+[A-Z][a-z']+)+` at `p`: the end of the match, which
      needs a second word. */
  function CandidateAt(s: string, p: nat): (e: Option<nat>)
    requires p <= |s|
    ensures e.Some? ==> p < e.value <= |s|
  {
    var f := CapWordAt(s, p);
    if f.None? then None
    else
      var g := NextWord(s, f.value);
      if g.None? then None else Some(ChainEnd(s, g.value))
  }

  /** `s.match(re)` with the `g` flag, from `p` on: the leftmost match, then
      the matches after its end. */
  function CandidatesFrom(s: string, p: nat): seq<string>
    requires p <= |s|
    decreases |s| - p
  {
    if p == |s| then []
    else match CandidateAt(s, p)
      case Some(e) => [s[p..e]] + CandidatesFrom(s, e)
      case None => CandidatesFrom(s, p + 1)
  }

  /** The plausible names of a text: runs of two or more capitalised words. */
  function NameCandidates(s: string): seq<string> {
    CandidatesFrom(s, 0)
  }

  /** Two or more words of a capital and small letters or apostrophes,
      separated by whitespace. */
  predicate IsCandidate(c: string) {
    && |c| >= 5
    && IsUpper(c[0]) && IsNameTail(c[|c| - 1])
    && (forall k :: 0 <= k < |c| ==> IsChainChar(c[k]))
    && exists k :: 0 < k < |c| - 1 && IsSpace(c[k])
  }

  /** A slice of `s` with the shape of a candidate, stated on `s`. */
  lemma SliceCandidate(s: string, p: nat, f: nat, e: nat)
    requires p + 5 <= e <= |s| && p < f < e - 1
    requires IsUpper(s[p]) && IsNameTail(s[e - 1]) && IsSpace(s[f]) && ChainChars(s, p, e)
    ensures IsCandidate(s[p..e])
  {
    var c := s[p..e];
    assert c[f - p] == s[f];
    assert c[e - p - 1] == s[e - 1];
    assert forall k :: 0 <= k < |c| ==> c[k] == s[p + k];
  }

  /** A match is made of candidate characters: a word, whitespace, a word
      and the rest of the chain. */
  lemma CandidateChars(s: string, p: nat, f: nat, g: nat)
    requires p <= |s| && CapWordAt(s, p) == Some(f) && NextWord(s, f) == Some(g)
    ensures ChainChars(s, p, ChainEnd(s, g))
  {
    var w := SpaceRun(s, f);
    ChainEndChars(s, g);
    SpacesChain(s, f);
    ChainCharsConcat(s, p, f, f + w);
    ChainCharsConcat(s, p, f + w, g);
    ChainCharsConcat(s, p, g, ChainEnd(s, g));
  }

  /** What a match found at `p` looks like, given the ends `f` and `g` of
      its first two words. */
  lemma CandidateShape(s: string, p: nat, f: nat, g: nat)
    requires p <= |s| && CapWordAt(s, p) == Some(f) && NextWord(s, f) == Some(g)
    ensures IsCandidate(s[p..ChainEnd(s, g)])
  {
    var e := ChainEnd(s, g);
    assert IsNameTail(s[e - 1]);
    assert IsSpace(s[f]) by {
      assert SpaceRun(s, f) >= 1;
    }
    CandidateChars(s, p, f, g);
    SliceCandidate(s, p, f, e);
  }

  /** Every plausible name has that shape. */
  predicate AllCandidates(cs: seq<string>) {
    forall i :: 0 <= i < |cs| ==> IsCandidate(cs[i])
  }

  lemma AllCandidatesCons(c: string, rest: seq<string>)
    requires IsCandidate(c) && AllCandidates(rest)
    ensures AllCandidates([c] + rest)
  {
    forall i | 0 <= i < |[c] + rest|
      ensures IsCandidate(([c] + rest)[i])
    {
      if i > 0 {
        assert ([c] + rest)[i] == rest[i - 1];
      }
    }
  }

  lemma {:induction false} CandidatesShape(s: string, p: nat)
    requires p <= |s|
    ensures AllCandidates(CandidatesFrom(s, p))
    decreases |s| - p
  {
    if p < |s| {
      match CandidateAt(s, p)
      case Some(e) =>
        var f := CapWordAt(s, p).value;
        var g := NextWord(s, f).value;
        CandidateShape(s, p, f, g);
        CandidatesShape(s, e);
        AllCandidatesCons(s[p..e], CandidatesFrom(s, e));
      case None =>
        CandidatesShape(s, p + 1);
    }
  }
}
