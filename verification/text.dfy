/**
 * String helpers shared by the categorisation engine, the CSV import view and
 * the legacy keyword matchers: the Python string operations they rely on
 * (`lower`, `replace(" ", "")`, `in`, `strip`, `rstrip`, `join`,
 * `splitlines`), stated over `seq<char>`.
 */
module Text {

  /** `str.lower()` on one character; only ASCII letters are folded. */
  function LowerChar(c: char): char {
    if 'A' <= c <= 'Z' then (c as int + 32) as char else c
  }

  function Lower(s: string): string {
    seq(|s|, i requires 0 <= i < |s| => LowerChar(s[i]))
  }

  /** `s.replace(" ", "")`. */
  function RemoveSpaces(s: string): string {
    if s == [] then []
    else if s[0] == ' ' then RemoveSpaces(s[1..])
    else [s[0]] + RemoveSpaces(s[1..])
  }

  /** `s.replace(old, new)` for single characters. */
  function ReplaceChar(s: string, from: char, to: char): string {
    seq(|s|, i requires 0 <= i < |s| => if s[i] == from then to else s[i])
  }

  /** The matching key used everywhere: `s.lower().replace(" ", "")`. */
  function Normalize(s: string): string {
    RemoveSpaces(Lower(s))
  }

  /** A string that normalisation leaves alone: no space, no upper-case ASCII letter. */
  predicate IsNormal(s: string) {
    forall i :: 0 <= i < |s| ==> s[i] != ' ' && !('A' <= s[i] <= 'Z')
  }

  predicate OccursAt(hay: string, needle: string, i: int) {
    0 <= i && i + |needle| <= |hay| && hay[i..i + |needle|] == needle
  }

  /** Python's `needle in hay` on strings; the empty needle occurs in every string. */
  predicate Contains(hay: string, needle: string) {
    exists i :: 0 <= i <= |hay| - |needle| && OccursAt(hay, needle, i)
  }

  /** `str.isspace()` for one character: Python's complete list of whitespace code points. */
  predicate IsSpace(c: char) {
    || '\t' <= c <= '\r'
    || '\U{1C}' <= c <= ' '
    || c == '\U{85}' || c == '\U{A0}' || c == '\U{1680}'
    || '\U{2000}' <= c <= '\U{200A}'
    || c == '\U{2028}' || c == '\U{2029}' || c == '\U{202F}' || c == '\U{205F}'
    || c == '\U{3000}'
  }

  /** `s.rstrip(chars)` where `drop` tells which characters are in `chars`. */
  function RStripBy(s: string, drop: char -> bool): string {
    if s != [] && drop(s[|s| - 1]) then RStripBy(s[..|s| - 1], drop) else s
  }

  /** `s.lstrip(chars)`. */
  function LStripBy(s: string, drop: char -> bool): string {
    if s != [] && drop(s[0]) then LStripBy(s[1..], drop) else s
  }

  /** `s.strip()`: whitespace removed from both ends. */
  function Strip(s: string): string {
    LStripBy(RStripBy(s, IsSpace), IsSpace)
  }

  /** `sep.join(parts)`. */
  function Join(sep: string, parts: seq<string>): string {
    if parts == [] then ""
    else if |parts| == 1 then parts[0]
    else parts[0] + sep + Join(sep, parts[1..])
  }

  /** The characters at which Python's `str.splitlines()` ends a line. */
  predicate IsLineBreak(c: char) {
    || '\n' <= c <= '\r'
    || '\U{1C}' <= c <= '\U{1E}'
    || c == '\U{85}' || c == '\U{2028}' || c == '\U{2029}'
  }

  /**
   * `str.splitlines()`: every line break (with "\r\n" counted as one) ends the
   * current line; text after the last break forms a last line only when it is
   * not empty.
   */
  function SplitLines(s: string): seq<string> {
    SplitLinesFrom(s, "")
  }

  function SplitLinesFrom(s: string, current: string): seq<string>
    decreases |s|
  {
    if s == [] then (if current == "" then [] else [current])
    else if s[0] == '\r' && |s| > 1 && s[1] == '\n' then [current] + SplitLinesFrom(s[2..], "")
    else if IsLineBreak(s[0]) then [current] + SplitLinesFrom(s[1..], "")
    else SplitLinesFrom(s[1..], current + [s[0]])
  }

  predicate HasNoLineBreak(s: string) {
    forall i :: 0 <= i < |s| ==> !IsLineBreak(s[i])
  }

  // ---------------------------------------------------------------------------
  // Properties
  // ---------------------------------------------------------------------------

  lemma {:induction false} RemoveSpacesAppend(a: string, b: string)
    ensures RemoveSpaces(a + b) == RemoveSpaces(a) + RemoveSpaces(b)
  {
    if a != [] {
      assert (a + b)[1..] == a[1..] + b;
      RemoveSpacesAppend(a[1..], b);
    } else {
      assert a + b == b;
    }
  }

  lemma {:induction false} RemoveSpacesSpec(s: string)
    ensures ' ' !in RemoveSpaces(s)
    ensures |RemoveSpaces(s)| <= |s|
    ensures forall c :: c in RemoveSpaces(s) ==> c in s
  {
    if s != [] {
      RemoveSpacesSpec(s[1..]);
    }
  }

  /** A string made only of spaces (the empty string included). */
  predicate IsBlank(s: string) {
    forall i :: 0 <= i < |s| ==> s[i] == ' '
  }

  /** A string made only of spaces loses every character: it normalises to "". */
  lemma {:induction false} RemoveSpacesOfBlank(v: string)
    requires IsBlank(v)
    ensures RemoveSpaces(v) == ""
    ensures Normalize(v) == ""
  {
    assert Lower(v) == v;
    if v != [] {
      RemoveSpacesOfBlank(v[1..]);
    }
  }

  lemma {:induction false} LowerAppend(a: string, b: string)
    ensures Lower(a + b) == Lower(a) + Lower(b)
  {
    assert forall i :: 0 <= i < |a + b| ==> Lower(a + b)[i] == (Lower(a) + Lower(b))[i];
  }

  lemma {:induction false} RemoveSpacesOfLower(s: string)
    ensures RemoveSpaces(Lower(s)) == Lower(RemoveSpaces(s))
  {
    if s != [] {
      assert s == [s[0]] + s[1..];
      LowerAppend([s[0]], s[1..]);
      RemoveSpacesAppend(Lower([s[0]]), Lower(s[1..]));
      RemoveSpacesOfLower(s[1..]);
      if s[0] != ' ' {
        LowerAppend([s[0]], RemoveSpaces(s[1..]));
      }
    }
  }

  /** A normalised string has no spaces and no upper-case letters. */
  lemma {:induction false} NormalizeIsNormal(s: string)
    ensures IsNormal(Normalize(s))
  {
    RemoveSpacesOfLower(s);
    RemoveSpacesSpec(s);
    var t := RemoveSpaces(s);
    forall i | 0 <= i < |Lower(t)|
      ensures Lower(t)[i] != ' ' && !('A' <= Lower(t)[i] <= 'Z')
    {
      assert t[i] in t;
    }
  }

  lemma {:induction false} NormalOfNormal(s: string)
    requires IsNormal(s)
    ensures Normalize(s) == s
  {
    assert Lower(s) == s;
    if s != [] {
      NormalOfNormal(s[1..]);
      assert Lower(s[1..]) == s[1..];
    }
  }

  /** Normalising twice is normalising once. */
  lemma NormalizeIdempotent(s: string)
    ensures Normalize(Normalize(s)) == Normalize(s)
  {
    NormalizeIsNormal(s);
    NormalOfNormal(Normalize(s));
  }

  /** Changing the case of the input does not change its normal form. */
  lemma {:induction false} NormalizeIgnoresCase(s: string)
    ensures Normalize(Lower(s)) == Normalize(s)
  {
    assert Lower(Lower(s)) == Lower(s);
  }

  /** Inserting a space anywhere does not change the normal form. */
  lemma {:induction false} NormalizeIgnoresSpaces(a: string, b: string)
    ensures Normalize(a + " " + b) == Normalize(a + b)
  {
    LowerAppend(a + " ", b);
    LowerAppend(a, " ");
    LowerAppend(a, b);
    RemoveSpacesAppend(Lower(a) + " ", Lower(b));
    RemoveSpacesAppend(Lower(a), " ");
    RemoveSpacesAppend(Lower(a), Lower(b));
    assert Lower(" ") == " ";
  }

  /** The empty string is `in` every string. */
  lemma EmptyIsContained(hay: string)
    ensures Contains(hay, "")
  {
    assert OccursAt(hay, "", 0);
  }

  /** `rstrip` cuts a suffix made only of dropped characters and leaves a kept last character. */
  lemma {:induction false} RStripBySpec(s: string, drop: char -> bool)
    ensures |RStripBy(s, drop)| <= |s|
    ensures RStripBy(s, drop) == s[..|RStripBy(s, drop)|]
    ensures RStripBy(s, drop) == [] || !drop(RStripBy(s, drop)[|RStripBy(s, drop)| - 1])
    ensures forall i :: |RStripBy(s, drop)| <= i < |s| ==> drop(s[i])
  {
    if s != [] && drop(s[|s| - 1]) {
      var init := s[..|s| - 1];
      RStripBySpec(init, drop);
      var t := RStripBy(init, drop);
      assert RStripBy(s, drop) == t;
      assert init[..|t|] == s[..|t|];
      forall i | |t| <= i < |s| ensures drop(s[i]) {
        if i < |s| - 1 {
          assert s[i] == init[i];
        }
      }
    }
  }

  /** `lstrip` cuts a prefix made only of dropped characters and leaves a kept first character. */
  lemma {:induction false} LStripBySpec(s: string, drop: char -> bool)
    ensures |LStripBy(s, drop)| <= |s|
    ensures LStripBy(s, drop) == s[|s| - |LStripBy(s, drop)|..]
    ensures LStripBy(s, drop) == [] || !drop(LStripBy(s, drop)[0])
    ensures forall i :: 0 <= i < |s| - |LStripBy(s, drop)| ==> drop(s[i])
  {
    if s != [] && drop(s[0]) {
      var rest := s[1..];
      LStripBySpec(rest, drop);
      var t := LStripBy(rest, drop);
      assert LStripBy(s, drop) == t;
      assert t == rest[|rest| - |t|..];
      assert rest[|rest| - |t|..] == s[|s| - |t|..];
      forall i | 0 <= i < |s| - |t| ensures drop(s[i]) {
        if i > 0 {
          assert s[i] == rest[i - 1];
        }
      }
    }
  }

  /**
   * `strip()` keeps a contiguous piece of the input with no whitespace at
   * either end, and what it cuts off at either end is whitespace only.
   */
  lemma StripSpec(s: string)
    ensures exists i, j :: 0 <= i <= j <= |s| && Strip(s) == s[i..j]
              && (forall k :: 0 <= k < i ==> IsSpace(s[k]))
              && (forall k :: j <= k < |s| ==> IsSpace(s[k]))
    ensures Strip(s) == [] || (!IsSpace(Strip(s)[0]) && !IsSpace(Strip(s)[|Strip(s)| - 1]))
  {
    var r := RStripBy(s, IsSpace);
    RStripBySpec(s, IsSpace);
    var t := LStripBy(r, IsSpace);
    LStripBySpec(r, IsSpace);
    assert Strip(s) == t;
    var i := |r| - |t|;
    assert r == s[..|r|];
    assert t == r[i..];
    assert t == s[i..|r|];
    forall k | 0 <= k < i ensures IsSpace(s[k]) {
      assert s[k] == r[k];
    }
    if t != [] {
      assert t[|t| - 1] == r[|r| - 1];
    }
  }

  /** No line produced by `splitlines` contains a line break. */
  lemma {:induction false} SplitLinesFromNoBreaks(s: string, current: string)
    requires HasNoLineBreak(current)
    ensures forall k :: 0 <= k < |SplitLinesFrom(s, current)| ==> HasNoLineBreak(SplitLinesFrom(s, current)[k])
    decreases |s|
  {
    if s == [] {
    } else if s[0] == '\r' && |s| > 1 && s[1] == '\n' {
      SplitLinesFromNoBreaks(s[2..], "");
    } else if IsLineBreak(s[0]) {
      SplitLinesFromNoBreaks(s[1..], "");
    } else {
      SplitLinesFromNoBreaks(s[1..], current + [s[0]]);
    }
  }
}
