// Characters as the standard library classifies them.

module Characters {

  // The characters with the Unicode White_Space property.
  predicate IsWhite(c: char) {
    || '\U{9}' <= c <= '\U{D}' || c == ' ' || c == '\U{85}' || c == '\U{A0}' || c == '\U{1680}'
    || '\U{2000}' <= c <= '\U{200A}' || c == '\U{2028}' || c == '\U{2029}' || c == '\U{202F}'
    || c == '\U{205F}' || c == '\U{3000}'
  }

  function LowerChar(c: char): char {
    if 'A' <= c <= 'Z' then (c as int + 32) as char else c
  }

  const CAPITALS := "ABCDEFGHIJKLMNOPQRSTUVWXYZ"
  const SMALLS := "abcdefghijklmnopqrstuvwxyz"

  // A capital becomes the small letter in its place, and nothing else changes.
  lemma {:induction false} LowerCharMeaning(c: char)
    ensures forall i :: 0 <= i < 26 && c == CAPITALS[i] ==> LowerChar(c) == SMALLS[i]
    ensures c !in CAPITALS ==> LowerChar(c) == c
  {
    assert forall i :: 0 <= i < 26 ==> CAPITALS[i] as int == 'A' as int + i && SMALLS[i] as int == 'a' as int + i;
    if 'A' <= c <= 'Z' {
      assert CAPITALS[c as int - 'A' as int] == c;
    }
  }

  // A text in small letters.
  function Lower(s: string): (t: string)
    ensures |t| == |s| && forall i :: 0 <= i < |s| ==> t[i] == LowerChar(s[i])
  {
    seq(|s|, i requires 0 <= i < |s| => LowerChar(s[i]))
  }

  predicate Blank(s: string) {
    forall i :: 0 <= i < |s| ==> IsWhite(s[i])
  }

  // A text without the white space at its ends.
  function TrimmedStart(s: string): string {
    if s != "" && IsWhite(s[0]) then TrimmedStart(s[1..]) else s
  }

  function TrimmedEnd(s: string): string {
    if s != "" && IsWhite(s[|s| - 1]) then TrimmedEnd(s[..|s| - 1]) else s
  }

  function Trimmed(s: string): string {
    TrimmedStart(TrimmedEnd(s))
  }

  lemma {:induction false} TrimmedStartMeaning(s: string) returns (gone: string)
    ensures s == gone + TrimmedStart(s) && Blank(gone)
    ensures TrimmedStart(s) != "" ==> !IsWhite(TrimmedStart(s)[0])
  {
    hide IsWhite;
    gone := "";
    if s != "" && IsWhite(s[0]) {
      var rest := TrimmedStartMeaning(s[1..]);
      gone := [s[0]] + rest;
    }
  }

  lemma {:induction false} TrimmedEndMeaning(s: string) returns (gone: string)
    ensures s == TrimmedEnd(s) + gone && Blank(gone)
    ensures TrimmedEnd(s) != "" ==> !IsWhite(TrimmedEnd(s)[|TrimmedEnd(s)| - 1])
  {
    hide IsWhite;
    gone := "";
    if s != "" && IsWhite(s[|s| - 1]) {
      var rest := TrimmedEndMeaning(s[..|s| - 1]);
      gone := rest + [s[|s| - 1]];
    }
  }

  // What is trimmed off is white space, and all of it.
  lemma {:induction false} TrimmedMeaning(s: string) returns (before: string, behind: string)
    ensures s == before + Trimmed(s) + behind && Blank(before) && Blank(behind)
    ensures Trimmed(s) != "" ==> !IsWhite(Trimmed(s)[0]) && !IsWhite(Trimmed(s)[|Trimmed(s)| - 1])
  {
    behind := TrimmedEndMeaning(s);
    before := TrimmedStartMeaning(TrimmedEnd(s));
  }

  // The same text, but for the case of ASCII letters.
  predicate SameLetters(a: string, b: string) {
    |a| == |b| && forall i :: 0 <= i < |a| ==> LowerChar(a[i]) == LowerChar(b[i])
  }

  // The length of the first run of characters that are, or are not, white.
  function RunLength(s: string, white: bool): (n: nat)
    ensures n <= |s|
    ensures forall i :: 0 <= i < n ==> IsWhite(s[i]) == white
    ensures n < |s| ==> IsWhite(s[n]) != white
  {
    if s == "" || IsWhite(s[0]) != white then 0 else 1 + RunLength(s[1..], white)
  }

  // The words of a text.
  function Words(s: string): (ws: seq<string>)
    ensures forall w :: w in ws ==> w != "" && forall i :: 0 <= i < |w| ==> !IsWhite(w[i])
    decreases |s|
  {
    var gap := RunLength(s, true);
    var rest := s[gap..];
    var n := RunLength(rest, false);
    if n == 0 then [] else [rest[..n]] + Words(rest[n..])
  }

  lemma {:induction false} RunLengthIs(s: string, n: nat, white: bool)
    requires n <= |s| && forall i :: 0 <= i < n ==> IsWhite(s[i]) == white
    requires n == |s| || IsWhite(s[n]) != white
    ensures RunLength(s, white) == n
  {
    if n > 0 {
      RunLengthIs(s[1..], n - 1, white);
    }
  }

  predicate Word(w: string) {
    w != "" && forall i :: 0 <= i < |w| ==> !IsWhite(w[i])
  }

  // A word that ends with the text, or before white space, is the first word;
  // white space in front of a text adds none; and nothing has none.
  lemma {:induction false} WordThenRest(w: string, rest: string)
    requires Word(w) && (rest == "" || IsWhite(rest[0]))
    ensures Words(w + rest) == [w] + Words(rest)
  {
    hide IsWhite;
    var s := w + rest;
    RunLengthIs(s, 0, true);
    RunLengthIs(s, |w|, false);
    assert s[0..] == s && s[..|w|] == w && s[|w|..] == rest;
  }

  lemma {:induction false} SpaceThenWord(c: char, s: string)
    requires IsWhite(c)
    ensures Words([c] + s) == Words(s)
  {
    hide IsWhite;
    RunLengthMore(c, s);
    var n := RunLength(s, true);
    hide RunLength;
    assert ([c] + s)[n + 1..] == s[n..];
  }

  lemma RunLengthMore(c: char, s: string)
    requires IsWhite(c)
    ensures RunLength([c] + s, true) == RunLength(s, true) + 1
  {
    hide IsWhite;
    assert ([c] + s)[1..] == s;
  }

  lemma NoWords()
    ensures Words("") == []
  {
    RunLengthIs("", 0, true);
    RunLengthIs("", 0, false);
  }
}
