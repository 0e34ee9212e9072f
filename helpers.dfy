/** The two string helpers of the verification engine: the normalisation
    applied before two values are compared, and the tidying of a captured
    value (`extractValue`). */
module Helpers {
  import opened JsStrings
  import opened Patterns

  // ------------------------------------------------------------ similarity

  /** A similarity score of the string-similarity library, from 0 to 1. */
  type Rating = r: real | 0.0 <= r <= 1.0

  /** `compareTwoStrings` of the string-similarity library, which the model
      takes as a parameter. */
  type Similarity = (string, string) -> Rating

  // ------------------------------------------------------------ lower case

  /** `toLowerCase` of one character. ASCII capitals become small letters;
      KELVIN SIGN and LATIN CAPITAL LETTER I WITH DOT ABOVE are the only
      other characters whose lower case holds ASCII letters. Every other
      character is kept: its lower case, if different, is not ASCII either,
      and the later steps of the normalisation remove it in both forms. */
  function LowerChar(c: char): (r: string)
    ensures forall k :: 0 <= k < |r| ==> !IsUpper(r[k])
  {
    if IsUpper(c) then [(c as int + 32) as char]
    else if c == '\U{212A}' then "k"
    else if c == '\U{0130}' then "i\U{0307}"
    else [c]
  }

  /** `s.toLowerCase()`. */
  function ToLowerCase(s: string): string
    decreases |s|
  {
    if s == [] then [] else LowerChar(s[0]) + ToLowerCase(s[1..])
  }

  /** No ASCII capital is left after lower-casing. */
  lemma {:induction false} LowerCaseHasNoCapitals(s: string)
    ensures forall k :: 0 <= k < |ToLowerCase(s)| ==> !IsUpper(ToLowerCase(s)[k])
    decreases |s|
  {
    if s != [] {
      LowerCaseHasNoCapitals(s[1..]);
      var a := LowerChar(s[0]);
      var b := ToLowerCase(s[1..]);
      assert forall k :: |a| <= k < |a + b| ==> (a + b)[k] == b[k - |a|];
    }
  }

  /** Lower-casing leaves a string of small letters, digits and `_` alone. */
  lemma {:induction false} LowerCaseOfNormal(s: string)
    requires IsNormal(s)
    ensures ToLowerCase(s) == s
    decreases |s|
  {
    if s != [] {
      LowerCaseOfNormal(s[1..]);
      assert s == [s[0]] + s[1..];
    }
  }

  // ------------------------------------------------------------ filtering

  /** `s.replace(/\s+/g, "")`. */
  function RemoveSpaces(s: string): (r: string)
    ensures |r| <= |s|
    decreases |s|
  {
    if s == [] then []
    else (if IsSpace(s[0]) then [] else [s[0]]) + RemoveSpaces(s[1..])
  }

  /** `s.replace(/[^\w]/g, "")`. */
  function KeepWordChars(s: string): (r: string)
    ensures |r| <= |s|
    decreases |s|
  {
    if s == [] then []
    else (if IsWordChar(s[0]) then [s[0]] else []) + KeepWordChars(s[1..])
  }

  /** Small ASCII letters, digits and `_`: what a normalised value is made of. */
  predicate IsNormal(s: string) {
    forall k :: 0 <= k < |s| ==> IsLower(s[k]) || IsDigit(s[k]) || s[k] == '_'
  }

  /** Keeping the word characters of a string without capitals leaves a
      normal string. */
  lemma {:induction false} KeepWordCharsNormal(s: string)
    requires forall k :: 0 <= k < |s| ==> !IsUpper(s[k])
    ensures IsNormal(KeepWordChars(s))
    decreases |s|
  {
    if s != [] {
      KeepWordCharsNormal(s[1..]);
      var a: string := if IsWordChar(s[0]) then [s[0]] else [];
      var b := KeepWordChars(s[1..]);
      assert forall k :: |a| <= k < |a + b| ==> (a + b)[k] == b[k - |a|];
    }
  }

  /** Removing whitespace keeps the characters that are not whitespace. */
  lemma {:induction false} RemoveSpacesKeeps(s: string)
    ensures forall k :: 0 <= k < |RemoveSpaces(s)| ==> RemoveSpaces(s)[k] in s
    decreases |s|
  {
    if s != [] {
      RemoveSpacesKeeps(s[1..]);
      var a: string := if IsSpace(s[0]) then [] else [s[0]];
      var b := RemoveSpaces(s[1..]);
      assert forall k :: |a| <= k < |a + b| ==> (a + b)[k] == b[k - |a|] && b[k - |a|] in s[1..];
    }
  }

  /** Whitespace is never a word character, so removing it first changes
      nothing about the word characters. */
  lemma {:induction false} WordCharsIgnoreSpaces(s: string)
    ensures KeepWordChars(RemoveSpaces(s)) == KeepWordChars(s)
    decreases |s|
  {
    if s != [] {
      WordCharsIgnoreSpaces(s[1..]);
      if IsSpace(s[0]) {
        assert RemoveSpaces(s) == RemoveSpaces(s[1..]);
        assert KeepWordChars(s) == KeepWordChars(s[1..]);
      } else {
        assert RemoveSpaces(s) == [s[0]] + RemoveSpaces(s[1..]);
        assert ([s[0]] + RemoveSpaces(s[1..]))[1..] == RemoveSpaces(s[1..]);
      }
    }
  }

  /** A normal string has no whitespace and only word characters. */
  lemma {:induction false} FiltersOfNormal(s: string)
    requires IsNormal(s)
    ensures RemoveSpaces(s) == s && KeepWordChars(s) == s
    decreases |s|
  {
    if s != [] {
      FiltersOfNormal(s[1..]);
      assert s == [s[0]] + s[1..];
    }
  }

  // -------------------------------------------------------- normalisation

  /** `str || ""` for a string-or-null value. */
  function OrEmpty(v: Option<string>): (s: string)
    ensures !Truthy(v) ==> s == ""
    ensures Truthy(v) ==> s == v.value
  {
    if v.Some? then v.value else ""
  }

  /** `normalizeForComparison`: lower case, no whitespace, only word characters. */
  function NormalizeForComparison(v: Option<string>): (r: string)
    ensures !Truthy(v) ==> r == ""
    ensures IsNormal(r)
  {
    var lower := ToLowerCase(OrEmpty(v));
    LowerCaseHasNoCapitals(OrEmpty(v));
    var r := KeepWordChars(RemoveSpaces(lower));
    WordCharsIgnoreSpaces(lower);
    KeepWordCharsNormal(lower);
    r
  }

  /** The word characters of the lower-cased string: the reference
      definition of the normalised form of a string value. */
  function WordCharsOf(s: string): string {
    KeepWordChars(ToLowerCase(s))
  }

  /** The normalised value is exactly the word characters of the lower-cased
      value: the whitespace step is subsumed by the word-character step. */
  lemma NormalizeIsWordChars(s: string)
    ensures NormalizeForComparison(Some(s)) == WordCharsOf(s)
  {
    WordCharsIgnoreSpaces(ToLowerCase(s));
  }

  /** Normalising a normalised value changes nothing. */
  lemma NormalizeIdempotent(v: Option<string>)
    ensures NormalizeForComparison(Some(NormalizeForComparison(v))) == NormalizeForComparison(v)
  {
    var r := NormalizeForComparison(v);
    LowerCaseOfNormal(r);
    FiltersOfNormal(r);
  }

  /** A normalised value normalises to itself. */
  lemma NormalizeOfNormal(s: string)
    requires IsNormal(s)
    ensures NormalizeForComparison(Some(s)) == s
  {
    LowerCaseOfNormal(s);
    FiltersOfNormal(s);
  }

  lemma {:induction false} LowerCaseAppend(a: string, b: string)
    ensures ToLowerCase(a + b) == ToLowerCase(a) + ToLowerCase(b)
    decreases |a|
  {
    if a == [] {
      assert a + b == b;
    } else {
      var s := a + b;
      assert s[0] == a[0];
      assert s[1..] == a[1..] + b;
      LowerCaseAppend(a[1..], b);
      calc {
        ToLowerCase(s);
        LowerChar(a[0]) + ToLowerCase(a[1..] + b);
        LowerChar(a[0]) + (ToLowerCase(a[1..]) + ToLowerCase(b));
        (LowerChar(a[0]) + ToLowerCase(a[1..])) + ToLowerCase(b);
      }
    }
  }

  lemma {:induction false} KeepWordCharsAppend(a: string, b: string)
    ensures KeepWordChars(a + b) == KeepWordChars(a) + KeepWordChars(b)
    decreases |a|
  {
    if a == [] {
      assert a + b == b;
    } else {
      KeepWordCharsAppend(a[1..], b);
      assert (a + b)[0] == a[0] && (a + b)[1..] == a[1..] + b;
      var h: string := if IsWordChar(a[0]) then [a[0]] else [];
      assert KeepWordChars(a + b) == h + (KeepWordChars(a[1..]) + KeepWordChars(b));
      assert KeepWordChars(a) == h + KeepWordChars(a[1..]);
    }
  }

  /** The normalised form of a concatenation is the concatenation of the
      normalised forms. */
  lemma WordCharsOfAppend(a: string, b: string)
    ensures WordCharsOf(a + b) == WordCharsOf(a) + WordCharsOf(b)
  {
    LowerCaseAppend(a, b);
    KeepWordCharsAppend(ToLowerCase(a), ToLowerCase(b));
  }

  lemma WordCharsOfOne(c: char)
    ensures WordCharsOf([c]) == KeepWordChars(LowerChar(c))
  {
    assert [c][1..] == [];
    assert ToLowerCase([c]) == LowerChar(c) + ToLowerCase([]);
    assert LowerChar(c) + [] == LowerChar(c);
  }

  /** A character that is not a word character and does not lower-case to
      one leaves nothing behind. */
  lemma NonWordVanishes(c: char)
    requires !IsWordChar(c) && c != '\U{212A}' && c != '\U{0130}'
    ensures WordCharsOf([c]) == []
  {
    WordCharsOfOne(c);
    assert LowerChar(c) == [c];
    assert KeepWordChars([c]) == [] + KeepWordChars([c][1..]);
  }

  /** A capital letter leaves the same as its small letter. */
  lemma CapitalFolds(c: char)
    requires IsUpper(c)
    ensures WordCharsOf([c]) == WordCharsOf([(c as int + 32) as char])
  {
    var d := (c as int + 32) as char;
    WordCharsOfOne(c);
    WordCharsOfOne(d);
    assert LowerChar(c) == [d] && LowerChar(d) == [d];
  }

  /** Whitespace and punctuation anywhere in a value do not count. */
  lemma NormalizeIgnoresNonWord(a: string, c: char, b: string)
    requires !IsWordChar(c) && c != '\U{212A}' && c != '\U{0130}'
    ensures NormalizeForComparison(Some(a + [c] + b)) == NormalizeForComparison(Some(a + b))
  {
    NormalizeIsWordChars(a + [c] + b);
    NormalizeIsWordChars(a + b);
    assert WordCharsOf(a + [c] + b) == WordCharsOf(a + b) by {
      WordCharsOfAppend(a + [c], b);
      WordCharsOfAppend(a, [c]);
      NonWordVanishes(c);
      WordCharsOfAppend(a, b);
      assert WordCharsOf(a) + [] == WordCharsOf(a);
    }
  }

  /** Neither does the case of a letter. */
  lemma NormalizeIgnoresCase(a: string, c: char, b: string)
    requires IsUpper(c)
    ensures NormalizeForComparison(Some(a + [c] + b))
      == NormalizeForComparison(Some(a + [(c as int + 32) as char] + b))
  {
    var d := (c as int + 32) as char;
    NormalizeIsWordChars(a + [c] + b);
    NormalizeIsWordChars(a + [d] + b);
    assert WordCharsOf(a + [c] + b) == WordCharsOf(a + [d] + b) by {
      WordCharsOfAppend(a + [c], b);
      WordCharsOfAppend(a, [c]);
      WordCharsOfAppend(a + [d], b);
      WordCharsOfAppend(a, [d]);
      CapitalFolds(c);
    }
  }

  // ------------------------------------------------------------ tidying

  /** `String(v).trim().replace(/\s{2,}/g, " ")`. */
  function Tidy(s: string): (r: string)
    ensures Trimmed(r) && NoSpaceRuns(r) && |r| <= |s|
  {
    var t := Trim(s);
    var r := SquashRuns(t);
    assert t != [] ==> t[|t| - 1] == t[|t| - 1];
    r
  }

  /** Squashing leaves a string without whitespace runs alone. */
  lemma {:induction false} SquashRunsOfNoRuns(s: string)
    requires NoSpaceRuns(s)
    ensures SquashRuns(s) == s
    decreases |s|
  {
    if s != [] {
      assert NoSpaceRuns(s[1..]);
      SquashRunsOfNoRuns(s[1..]);
      if IsSpace(s[0]) {
        assert SpaceRun(s, 0) == 1 by {
          assert |s| == 1 || !IsSpace(s[1]);
          if |s| > 1 {
            assert SpaceRun(s, 1) == 0;
          }
        }
      }
      assert s == [s[0]] + s[1..];
    }
  }

  /** Tidying keeps characters of its input, and may put in a plain space. */
  lemma TidyKeeps(s: string)
    ensures forall x :: x in Tidy(s) ==> x in s || x == ' '
  {
    TrimKeeps(s);
  }

  /** Tidying keeps every character that is not whitespace, in order. */
  lemma TidyKeepsText(s: string)
    ensures NonSpace(Tidy(s)) == NonSpace(s)
  {
    TrimKeepsText(s);
    SquashRunsKeepsText(Trim(s));
  }

  /** Tidying a tidy value changes nothing. */
  lemma TidyIdempotent(s: string)
    ensures Tidy(Tidy(s)) == Tidy(s)
  {
    var r := Tidy(s);
    TrimTrimmed(r);
    SquashRunsOfNoRuns(r);
  }

  /** A value without whitespace is already tidy. */
  lemma TidyWithoutSpaces(s: string)
    requires forall k :: 0 <= k < |s| ==> !IsSpace(s[k])
    ensures Tidy(s) == s
  {
    TrimTrimmed(s);
    SquashRunsOfNoRuns(s);
  }

  /** `extractValue`: the first capture of the leftmost match, tidied, or
      `None` when the pattern matches nowhere. */
  function ExtractValue(text: string, pat: Pattern): (r: Option<string>)
    ensures r.None? <==> MatchesNowhere(text, pat)
    ensures r.Some? ==> Trimmed(r.value) && NoSpaceRuns(r.value)
    ensures r.Some? ==> NonSpace(r.value) == NonSpace(Search(text, pat).value)
  {
    match Search(text, pat)
    case Some(c) =>
      TidyKeepsText(c);
      Some(Tidy(c))
    case None => None
  }

  /** A match is extracted as its tidied capture. */
  lemma ExtractValueOfMatch(text: string, pat: Pattern)
    requires Search(text, pat).Some?
    ensures ExtractValue(text, pat) == Some(Tidy(Search(text, pat).value))
  {
  }
}
