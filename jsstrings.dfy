/** The JavaScript string built-ins the verification engine relies on.

    Strings are sequences of Unicode scalar values. JavaScript's `null` and
    `undefined` for a string-valued variable are `None`. */
module JsStrings {

  datatype Option<+T> = None | Some(value: T)

  /** A string-or-null value is truthy when it is a non-empty string. */
  predicate Truthy(v: Option<string>) {
    v.Some? && v.value != ""
  }

  /** `a || b` on string-or-null values. */
  function Or(a: Option<string>, b: Option<string>): Option<string> {
    if Truthy(a) then a else b
  }

  function Min(a: int, b: int): int {
    if a <= b then a else b
  }

  // ---------------------------------------------------------------- characters

  /** The characters matched by `\s` and removed by `String.prototype.trim`:
      WhiteSpace and LineTerminator of ECMA-262. */
  predicate IsSpace(c: char) {
    if c <= ' ' then c == ' ' || '\t' <= c <= '\r' else '\U{A0}' <= c && IsWideSpace(c)
  }

  /** The members of `\s` beyond ASCII. */
  predicate IsWideSpace(c: char) {
    c == '\U{A0}' || c == '\U{1680}' || ('\U{2000}' <= c <= '\U{200A}')
    || c == '\U{2028}' || c == '\U{2029}' || c == '\U{202F}' || c == '\U{205F}'
    || c == '\U{3000}' || c == '\U{FEFF}'
  }

  /** The characters that `.` (without the `s` flag) does not match. */
  predicate IsLineTerminator(c: char) {
    c == '\n' || c == '\r' || c == '\U{2028}' || c == '\U{2029}'
  }

  predicate IsDigit(c: char) { '0' <= c <= '9' }
  predicate IsUpper(c: char) { 'A' <= c <= 'Z' }
  predicate IsLower(c: char) { 'a' <= c <= 'z' }
  predicate IsLetter(c: char) { IsUpper(c) || IsLower(c) }

  /** `\w` outside unicode mode. */
  predicate IsWordChar(c: char) {
    IsLetter(c) || IsDigit(c) || c == '_'
  }

  /** The case folding of the `i` flag outside unicode mode, mapped to lower case:
      only ASCII letters fold, since a non-ASCII character never canonicalizes
      onto an ASCII one. */
  function Fold(c: char): (f: char)
    ensures IsLetter(c) ==> IsLower(f)
    ensures !IsLetter(c) ==> f == c
  {
    if IsUpper(c) then (c as int + 32) as char else c
  }

  /** Predicates over whole strings. */
  predicate AllSpace(s: string) {
    forall k :: 0 <= k < |s| ==> IsSpace(s[k])
  }

  predicate AllDigits(s: string) {
    forall k :: 0 <= k < |s| ==> IsDigit(s[k])
  }

  /** No two adjacent whitespace characters. */
  predicate NoSpaceRuns(s: string) {
    forall k :: 0 <= k < |s| - 1 ==> !(IsSpace(s[k]) && IsSpace(s[k + 1]))
  }

  /** Neither end is a whitespace character: the string is its own `trim()`. */
  predicate Trimmed(s: string) {
    s == [] || (!IsSpace(s[0]) && !IsSpace(s[|s| - 1]))
  }

  // ------------------------------------------------------------ scanning text

  /** The length of the run of `cls` characters starting at `p`. */
  function Run(s: string, p: nat, cls: char -> bool): (n: nat)
    requires p <= |s|
    ensures p + n <= |s|
    ensures forall k :: p <= k < p + n ==> cls(s[k])
    ensures p + n == |s| || !cls(s[p + n])
    decreases |s| - p
  {
    if p < |s| && cls(s[p]) then 1 + Run(s, p + 1, cls) else 0
  }

  /** The length of the run of whitespace starting at `p`. */
  function SpaceRun(s: string, p: nat): (n: nat)
    requires p <= |s|
    ensures p + n <= |s|
    ensures forall k :: p <= k < p + n ==> IsSpace(s[k])
    ensures p + n == |s| || !IsSpace(s[p + n])
    decreases |s| - p
  {
    if p < |s| && IsSpace(s[p]) then 1 + SpaceRun(s, p + 1) else 0
  }

  /** The length of the run of `c` characters starting at `p`. */
  function CharRun(s: string, p: nat, c: char): (n: nat)
    requires p <= |s|
    ensures p + n <= |s|
    ensures forall k :: p <= k < p + n ==> s[k] == c
    ensures p + n == |s| || s[p + n] != c
    decreases |s| - p
  {
    if p < |s| && s[p] == c then 1 + CharRun(s, p + 1, c) else 0
  }

  /** The length of the run of whitespace ending just before `q`. */
  function SpaceRunBefore(s: string, q: nat): (n: nat)
    requires q <= |s|
    ensures n <= q
    ensures forall k :: q - n <= k < q ==> IsSpace(s[k])
    ensures n == q || !IsSpace(s[q - n - 1])
    decreases q
  {
    if q > 0 && IsSpace(s[q - 1]) then 1 + SpaceRunBefore(s, q - 1) else 0
  }

  /** Whether the text at `p` is the literal `lit` (lower case) under the `i` flag. */
  predicate StartsWithCI(s: string, p: nat, lit: string) {
    p + |lit| <= |s| && forall k :: 0 <= k < |lit| ==> Fold(s[p + k]) == lit[k]
  }

  /** Whether `lit` occurs somewhere in `s` at or after `p` under the `i` flag. */
  predicate ContainsCI(s: string, lit: string, p: nat)
    decreases |s| - p
  {
    p <= |s| && (StartsWithCI(s, p, lit) || ContainsCI(s, lit, p + 1))
  }

  // ------------------------------------------------------ string.prototype.*

  function TrimStart(s: string): (r: string)
    ensures |r| <= |s| && r == s[|s| - |r|..]
    ensures r == [] || !IsSpace(r[0])
    ensures AllSpace(s[..|s| - |r|])
  {
    s[SpaceRun(s, 0)..]
  }

  function TrimEnd(s: string): (r: string)
    ensures |r| <= |s| && r == s[..|r|]
    ensures r == [] || !IsSpace(r[|r| - 1])
    ensures AllSpace(s[|r|..])
  {
    s[..|s| - SpaceRunBefore(s, |s|)]
  }

  /** `s.trim()`: the middle part of `s` between whitespace on both sides. */
  function Trim(s: string): (r: string)
    ensures Trimmed(r) && |r| <= |s|
  {
    TrimEnd(TrimStart(s))
  }

  /** `trim` removes whitespace only, from both ends. */
  lemma TrimSpec(s: string)
    ensures var a := |s| - |TrimStart(s)|;
      && a + |Trim(s)| <= |s| && Trim(s) == s[a..a + |Trim(s)|]
      && AllSpace(s[..a]) && AllSpace(s[a + |Trim(s)|..])
  {
    TrimSpecFrom(s, TrimStart(s), Trim(s));
  }

  /** The same for any suffix `t` of `s` after whitespace and any prefix `r`
      of `t` before whitespace. */
  lemma TrimSpecFrom(s: string, t: string, r: string)
    requires |t| <= |s| && t == s[|s| - |t|..] && AllSpace(s[..|s| - |t|])
    requires |r| <= |t| && r == t[..|r|] && AllSpace(t[|r|..])
    ensures var a := |s| - |t|;
      && a + |r| <= |s| && r == s[a..a + |r|]
      && AllSpace(s[..a]) && AllSpace(s[a + |r|..])
  {
    SliceOfSuffix(s, |s| - |t|, |r|);
  }

  lemma SliceOfSuffix(s: string, a: nat, m: nat)
    requires a + m <= |s|
    ensures s[a..][..m] == s[a..a + m] && s[a..][m..] == s[a + m..]
  {
  }

  /** `trim` gives the empty string exactly for all-whitespace input. */
  lemma TrimEmpty(s: string)
    ensures Trim(s) == [] <==> AllSpace(s)
  {
    var t := TrimStart(s);
    var a := |s| - |t|;
    TrimSpec(s);
    if Trim(s) == [] {
      assert s == s[..a] + s[a..];
    } else {
      assert Trim(s)[0] == s[a];
    }
  }

  /** `trim` keeps characters of its input only. */
  lemma TrimKeeps(s: string)
    ensures forall x :: x in Trim(s) ==> x in s
  {
    TrimSpec(s);
  }

  /** A string without whitespace at its ends is its own `trim()`. */
  lemma TrimTrimmed(s: string)
    requires Trimmed(s)
    ensures Trim(s) == s
  {
  }

  /** `s.replace(/\s+/g, " ")`: every run of whitespace becomes one space. */
  function CollapseSpaces(s: string): (r: string)
    ensures forall k :: 0 <= k < |r| && IsSpace(r[k]) ==> r[k] == ' '
    ensures NoSpaceRuns(r)
    ensures s != [] ==> r != [] && r[0] == (if IsSpace(s[0]) then ' ' else s[0])
    decreases |s|
  {
    if s == [] then []
    else if IsSpace(s[0]) then
      var n := SpaceRun(s, 0);
      [' '] + CollapseSpaces(s[n..])
    else [s[0]] + CollapseSpaces(s[1..])
  }

  /** `s.replace(/\n+/g, " ")`: every run of newlines becomes one space. */
  function CollapseNewlines(s: string): (r: string)
    ensures '\n' !in r
    ensures |r| <= |s|
    decreases |s|
  {
    if s == [] then []
    else if s[0] == '\n' then
      var n := CharRun(s, 0, '\n');
      [' '] + CollapseNewlines(s[n..])
    else [s[0]] + CollapseNewlines(s[1..])
  }

  /** `s.replace(/\s{2,}/g, " ")`: every run of two or more whitespace
      characters becomes one space; a single whitespace character stays. */
  function SquashRuns(s: string): (r: string)
    ensures NoSpaceRuns(r)
    ensures |r| <= |s|
    ensures forall c :: c in r ==> c in s || c == ' '
    ensures s != [] ==> r != [] && (IsSpace(s[0]) <==> IsSpace(r[0]))
    ensures s != [] && !IsSpace(s[0]) ==> r[0] == s[0]
    ensures s != [] ==> (IsSpace(s[|s| - 1]) <==> IsSpace(r[|r| - 1]))
    decreases |s|
  {
    if s == [] then []
    else if IsSpace(s[0]) then
      var n := SpaceRun(s, 0);
      var rest := SquashRuns(s[n..]);
      var h := if n >= 2 then ' ' else s[0];
      assert s[n..] != [] ==> s[n..][0] == s[n] && s[n..][|s[n..]| - 1] == s[|s| - 1];
      ConsNoRuns(h, rest);
      [h] + rest
    else
      var rest := SquashRuns(s[1..]);
      assert s[1..] != [] ==> s[1..][|s[1..]| - 1] == s[|s| - 1];
      ConsNoRuns(s[0], rest);
      [s[0]] + rest
  }

  /** Putting a character before a string without runs of whitespace makes
      none unless both are whitespace. */
  lemma ConsNoRuns(h: char, rest: string)
    requires NoSpaceRuns(rest)
    requires rest != [] && IsSpace(h) ==> !IsSpace(rest[0])
    ensures NoSpaceRuns([h] + rest)
  {
    var r := [h] + rest;
    forall k | 0 <= k < |r| - 1 ensures !(IsSpace(r[k]) && IsSpace(r[k + 1])) {
      if k > 0 {
        assert r[k] == rest[k - 1] && r[k + 1] == rest[k];
      }
    }
  }

  /** `s.split(c)` for a one-character separator. */
  function Split(s: string, c: char): (parts: seq<string>)
    ensures |parts| >= 1
    ensures forall k :: 0 <= k < |parts| ==> c !in parts[k]
    decreases |s|
  {
    if s == [] then [""]
    else if s[0] == c then [""] + Split(s[1..], c)
    else
      var r := Split(s[1..], c);
      [[s[0]] + r[0]] + r[1..]
  }

  /** `s.split(/c+/)`: every run of `c` separates two parts. */
  function SplitRuns(s: string, c: char): (parts: seq<string>)
    ensures |parts| >= 1
    ensures forall k :: 0 <= k < |parts| ==> c !in parts[k]
    decreases |s|
  {
    if s == [] then [""]
    else if s[0] == c then [""] + SplitRuns(s[CharRun(s, 0, c)..], c)
    else
      var r := SplitRuns(s[1..], c);
      [[s[0]] + r[0]] + r[1..]
  }

  /** `parts.join(sep)`. */
  function Join(parts: seq<string>, sep: string): string
    decreases |parts|
  {
    if parts == [] then ""
    else if |parts| == 1 then parts[0]
    else parts[0] + sep + Join(parts[1..], sep)
  }

  lemma TakeSnoc<T>(s: seq<T>, k: nat)
    requires k < |s|
    ensures s[..k + 1] == s[..k] + [s[k]]
  {
  }

  /** Joining one more part appends the separator and that part. */
  lemma {:induction false} JoinSnoc(parts: seq<string>, sep: string, x: string)
    requires parts != []
    ensures Join(parts + [x], sep) == Join(parts, sep) + sep + x
    decreases |parts|
  {
    if |parts| == 1 {
      assert parts + [x] == [parts[0], x];
    } else {
      assert (parts + [x])[1..] == parts[1..] + [x];
      JoinSnoc(parts[1..], sep, x);
    }
  }

  /** Splitting a part that does not hold the separator, followed by it. */
  lemma {:induction false} SplitPrefix(a: string, c: char, b: string)
    requires c !in a
    ensures Split(a + [c] + b, c) == [a] + Split(b, c)
    decreases |a|
  {
    if a == [] {
      assert a + [c] + b == [c] + b;
      assert ([c] + b)[1..] == b;
    } else {
      assert (a + [c] + b)[1..] == a[1..] + [c] + b;
      SplitPrefix(a[1..], c, b);
      assert [a[0]] + a[1..] == a;
    }
  }

  /** Splitting a string without the separator gives the string itself. */
  lemma {:induction false} SplitNone(a: string, c: char)
    requires c !in a
    ensures Split(a, c) == [a]
    decreases |a|
  {
    if a != [] {
      SplitNone(a[1..], c);
      assert [a[0]] + a[1..] == a;
    }
  }

  /** Split undoes Join when no part contains the separator. */
  lemma {:induction false} SplitJoin(parts: seq<string>, c: char)
    requires parts != []
    requires forall k :: 0 <= k < |parts| ==> c !in parts[k]
    ensures Split(Join(parts, [c]), c) == parts
    decreases |parts|
  {
    if |parts| == 1 {
      SplitNone(parts[0], c);
    } else {
      var tail := parts[1..];
      assert forall k :: 0 <= k < |tail| ==> tail[k] == parts[k + 1];
      SplitJoin(tail, c);
      assert Join(parts, [c]) == parts[0] + [c] + Join(tail, [c]);
      SplitPrefix(parts[0], c, Join(tail, [c]));
      assert [parts[0]] + tail == parts;
    }
  }

  /** How many times `c` occurs in `s`. */
  function Count(s: string, c: char): nat {
    if s == [] then 0 else (if s[0] == c then 1 else 0) + Count(s[1..], c)
  }

  /** A string splits into one more piece than it has separators. */
  lemma {:induction false} SplitCount(s: string, c: char)
    ensures |Split(s, c)| == Count(s, c) + 1
    decreases |s|
  {
    if s != [] {
      SplitCount(s[1..], c);
    }
  }

  // ------------------------------------------------------ what the rewrites keep

  /** The characters of `s` that are not whitespace, in order. */
  function NonSpace(s: string): string
    decreases |s|
  {
    if s == [] then [] else (if IsSpace(s[0]) then [] else [s[0]]) + NonSpace(s[1..])
  }

  lemma {:induction false} NonSpaceAppend(a: string, b: string)
    ensures NonSpace(a + b) == NonSpace(a) + NonSpace(b)
    decreases |a|
  {
    if a == [] {
      assert a + b == b;
    } else {
      var h: string := if IsSpace(a[0]) then [] else [a[0]];
      var s := a + b;
      assert s[0] == a[0];
      assert s[1..] == a[1..] + b;
      NonSpaceAppend(a[1..], b);
      calc {
        NonSpace(s);
        h + NonSpace(a[1..] + b);
        h + (NonSpace(a[1..]) + NonSpace(b));
        (h + NonSpace(a[1..])) + NonSpace(b);
      }
    }
  }

  lemma {:induction false} NonSpaceOfSpaces(g: string)
    requires AllSpace(g)
    ensures NonSpace(g) == []
    decreases |g|
  {
    if g != [] {
      NonSpaceOfSpaces(g[1..]);
    }
  }

  /** The whitespace run at the front of `g + t` is exactly `g`. */
  lemma SpaceRunOfGap(g: string, t: string)
    requires AllSpace(g) && (t == [] || !IsSpace(t[0]))
    ensures SpaceRun(g + t, 0) == |g|
  {
    var s := g + t;
    assert forall k :: 0 <= k < |g| ==> s[k] == g[k];
    if t != [] {
      assert s[|g|] == t[0];
    }
  }

  /** The run of `c` at the front of `g + t` is exactly `g`. */
  lemma CharRunOfGap(g: string, c: char, t: string)
    requires (forall k :: 0 <= k < |g| ==> g[k] == c) && (t == [] || t[0] != c)
    ensures CharRun(g + t, 0, c) == |g|
  {
    var s := g + t;
    assert forall k :: 0 <= k < |g| ==> s[k] == g[k];
    if t != [] {
      assert s[|g|] == t[0];
    }
  }

  /** `replace(/\s+/g, " ")` copies the characters that are not whitespace. */
  lemma {:induction false} CollapseSpacesWord(w: string, t: string)
    requires forall k :: 0 <= k < |w| ==> !IsSpace(w[k])
    ensures CollapseSpaces(w + t) == w + CollapseSpaces(t)
    decreases |w|
  {
    if w == [] {
      assert w + t == t;
    } else {
      var s := w + t;
      assert s[0] == w[0];
      assert s[1..] == w[1..] + t;
      CollapseSpacesWord(w[1..], t);
      calc {
        CollapseSpaces(s);
        [w[0]] + CollapseSpaces(w[1..] + t);
        [w[0]] + (w[1..] + CollapseSpaces(t));
        ([w[0]] + w[1..]) + CollapseSpaces(t);
      }
      assert [w[0]] + w[1..] == w;
    }
  }

  /** `replace(/\s+/g, " ")` turns a whole whitespace run into one space. */
  lemma CollapseSpacesGap(g: string, t: string)
    requires g != [] && AllSpace(g) && (t == [] || !IsSpace(t[0]))
    ensures CollapseSpaces(g + t) == " " + CollapseSpaces(t)
  {
    SpaceRunOfGap(g, t);
    assert (g + t)[0] == g[0];
    assert (g + t)[|g|..] == t;
  }

  /** `replace(/\s+/g, " ")` keeps every character that is not whitespace,
      in order. */
  lemma {:induction false} CollapseSpacesKeepsText(s: string)
    ensures NonSpace(CollapseSpaces(s)) == NonSpace(s)
    decreases |s|
  {
    if s != [] {
      if IsSpace(s[0]) {
        var n := SpaceRun(s, 0);
        CollapseSpacesKeepsText(s[n..]);
        assert s == s[..n] + s[n..];
        NonSpaceAppend(s[..n], s[n..]);
        NonSpaceOfSpaces(s[..n]);
        assert ([' '] + CollapseSpaces(s[n..]))[1..] == CollapseSpaces(s[n..]);
      } else {
        CollapseSpacesKeepsText(s[1..]);
        assert ([s[0]] + CollapseSpaces(s[1..]))[1..] == CollapseSpaces(s[1..]);
      }
    }
  }

  /** A character that is not whitespace is copied as it is. */
  lemma SquashRunsCons(s: string)
    requires s != [] && !IsSpace(s[0])
    ensures SquashRuns(s) == [s[0]] + SquashRuns(s[1..])
  {
  }

  /** `replace(/\s{2,}/g, " ")` copies the characters that are not whitespace. */
  lemma {:induction false} SquashRunsWord(w: string, t: string)
    requires forall k :: 0 <= k < |w| ==> !IsSpace(w[k])
    ensures SquashRuns(w + t) == w + SquashRuns(t)
    decreases |w|
  {
    if w == [] {
      assert w + t == t;
    } else {
      var s := w + t;
      assert s[0] == w[0] && !IsSpace(s[0]);
      assert s[1..] == w[1..] + t;
      SquashRunsWord(w[1..], t);
      SquashRunsCons(s);
      calc {
        SquashRuns(s);
        [w[0]] + SquashRuns(w[1..] + t);
        [w[0]] + (w[1..] + SquashRuns(t));
        ([w[0]] + w[1..]) + SquashRuns(t);
      }
      assert [w[0]] + w[1..] == w;
    }
  }

  /** `replace(/\s{2,}/g, " ")` turns a run of two or more whitespace
      characters into one space and keeps a single one. */
  lemma SquashRunsGap(g: string, t: string)
    requires g != [] && AllSpace(g) && (t == [] || !IsSpace(t[0]))
    ensures SquashRuns(g + t) == (if |g| >= 2 then " " else g) + SquashRuns(t)
  {
    SpaceRunOfGap(g, t);
    assert (g + t)[0] == g[0];
    assert (g + t)[|g|..] == t;
  }

  /** `replace(/\s{2,}/g, " ")` keeps every character that is not
      whitespace, in order. */
  lemma {:induction false} SquashRunsKeepsText(s: string)
    ensures NonSpace(SquashRuns(s)) == NonSpace(s)
    decreases |s|
  {
    if s != [] {
      if IsSpace(s[0]) {
        var n := SpaceRun(s, 0);
        var rest := SquashRuns(s[n..]);
        SquashRunsKeepsText(s[n..]);
        assert s == s[..n] + s[n..];
        NonSpaceAppend(s[..n], s[n..]);
        NonSpaceOfSpaces(s[..n]);
        var h := if n >= 2 then ' ' else s[0];
        assert SquashRuns(s) == [h] + rest;
        assert ([h] + rest)[1..] == rest;
      } else {
        SquashRunsKeepsText(s[1..]);
        assert ([s[0]] + SquashRuns(s[1..]))[1..] == SquashRuns(s[1..]);
      }
    }
  }

  /** `trim` keeps every character that is not whitespace, in order. */
  lemma TrimKeepsText(s: string)
    ensures NonSpace(Trim(s)) == NonSpace(s)
  {
    TrimSpec(s);
    var a := |s| - |TrimStart(s)|;
    var t := Trim(s);
    var m := |t|;
    assert s == s[..a] + t + s[a + m..];
    NonSpaceAround(s[..a], t, s[a + m..]);
  }

  /** Whitespace on either side adds nothing to the text. */
  lemma NonSpaceAround(p: string, t: string, q: string)
    requires AllSpace(p) && AllSpace(q)
    ensures NonSpace(p + t + q) == NonSpace(t)
  {
    NonSpaceAppend(p + t, q);
    NonSpaceAppend(p, t);
    NonSpaceOfSpaces(p);
    NonSpaceOfSpaces(q);
  }

  /** `replace(/\n+/g, " ")` copies the characters other than newlines. */
  lemma {:induction false} CollapseNewlinesWord(w: string, t: string)
    requires '\n' !in w
    ensures CollapseNewlines(w + t) == w + CollapseNewlines(t)
    decreases |w|
  {
    if w == [] {
      assert w + t == t;
    } else {
      var s := w + t;
      assert s[0] == w[0];
      assert s[1..] == w[1..] + t;
      CollapseNewlinesWord(w[1..], t);
      calc {
        CollapseNewlines(s);
        [w[0]] + CollapseNewlines(w[1..] + t);
        [w[0]] + (w[1..] + CollapseNewlines(t));
        ([w[0]] + w[1..]) + CollapseNewlines(t);
      }
      assert [w[0]] + w[1..] == w;
    }
  }

  /** `replace(/\n+/g, " ")` turns a whole run of newlines into one space. */
  lemma CollapseNewlinesGap(g: string, t: string)
    requires g != [] && (forall k :: 0 <= k < |g| ==> g[k] == '\n') && (t == [] || t[0] != '\n')
    ensures CollapseNewlines(g + t) == " " + CollapseNewlines(t)
  {
    CharRunOfGap(g, '\n', t);
    assert (g + t)[0] == g[0];
    assert (g + t)[|g|..] == t;
  }

  /** `split(/c+/)` puts the characters before the first `c` into the
      first part. */
  lemma {:induction false} SplitRunsWord(w: string, c: char, t: string)
    requires c !in w
    ensures var r := SplitRuns(t, c); SplitRuns(w + t, c) == [w + r[0]] + r[1..]
    decreases |w|
  {
    var r := SplitRuns(t, c);
    if w == [] {
      assert w + t == t && w + r[0] == r[0];
      assert [r[0]] + r[1..] == r;
    } else {
      assert (w + t)[0] == w[0];
      assert (w + t)[1..] == w[1..] + t;
      SplitRunsWord(w[1..], c, t);
      assert [w[0]] + (w[1..] + r[0]) == w + r[0];
    }
  }

  /** `split(/c+/)` ends a part at a whole run of `c`. */
  lemma SplitRunsGap(g: string, c: char, t: string)
    requires g != [] && (forall k :: 0 <= k < |g| ==> g[k] == c) && (t == [] || t[0] != c)
    ensures SplitRuns(g + t, c) == [""] + SplitRuns(t, c)
  {
    CharRunOfGap(g, c, t);
    assert (g + t)[0] == g[0];
    assert (g + t)[|g|..] == t;
  }

  /** A join whose first part is non-empty and free of `c` does not start
      with `c`. */
  lemma JoinHead(parts: seq<string>, c: char)
    requires parts != [] && parts[0] != [] && c !in parts[0]
    ensures var j := Join(parts, [c]); j != [] && j[0] == parts[0][0]
  {
    var j := Join(parts, [c]);
    if |parts| > 1 {
      assert j == parts[0] + ([c] + Join(parts[1..], [c]));
    } else {
      assert j == parts[0];
    }
  }

  /** `split(/c+/)` undoes `join(c)` when no part holds `c` and only the
      first and the last part may be empty. */
  lemma {:induction false} SplitRunsJoin(parts: seq<string>, c: char)
    requires parts != []
    requires forall k :: 0 <= k < |parts| ==> c !in parts[k]
    requires forall k :: 0 < k < |parts| - 1 ==> parts[k] != ""
    ensures SplitRuns(Join(parts, [c]), c) == parts
    decreases |parts|
  {
    if |parts| == 1 {
      SplitRunsWord(parts[0], c, []);
      assert parts[0] + [] == parts[0];
    } else {
      var tail := parts[1..];
      assert forall k :: 0 <= k < |tail| ==> tail[k] == parts[k + 1];
      SplitRunsJoin(tail, c);
      var j := Join(tail, [c]);
      assert Join(parts, [c]) == parts[0] + [c] + j;
      assert j == [] || j[0] != c by {
        if tail[0] != [] {
          JoinHead(tail, c);
        } else {
          assert |tail| == 1 && j == tail[0];
        }
      }
      SplitRunsGap([c], c, j);
      var r := SplitRuns([c] + j, c);
      assert r[0] == "" && r[1..] == tail;
      SplitRunsWord(parts[0], c, [c] + j);
      assert parts[0] + [c] + j == parts[0] + ([c] + j);
      assert parts[0] + r[0] == parts[0];
      assert [parts[0]] + tail == parts;
    }
  }
}
