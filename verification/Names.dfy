// What the names of months and weekdays stand for in a field.

module Names {
  import opened Cron
  import opened Characters

  // A field's text, taken apart: a name, by its number in the list of names, or
  // any character but a small letter.
  datatype Token = Name(i: nat) | Other(c: char)

  predicate Letter(c: char) {
    'a' <= c <= 'z'
  }

  // Names of three small letters, no two the same.
  ghost predicate ThreeLetters(names: seq<string>) {
    && (forall i :: 0 <= i < |names| ==> |names[i]| == 3 && Letter(names[i][0]) && Letter(names[i][1]) && Letter(names[i][2]))
    && (forall i, j :: 0 <= i < j < |names| ==> names[i] != names[j])
  }

  ghost predicate Tokens(ts: seq<Token>, names: seq<string>) {
    && (forall k :: 0 <= k < |ts| ==> if ts[k].Name? then ts[k].i < |names| else !Letter(ts[k].c))
    && (forall k :: 0 <= k < |ts| - 1 ==> !(ts[k].Name? && ts[k + 1].Name?))
  }

  ghost function Text(ts: seq<Token>, names: seq<string>): string
    requires Tokens(ts, names)
  {
    if ts == [] then ""
    else
      TokensRest(ts, names);
      (if ts[0].Name? then names[ts[0].i] else [ts[0].c]) + Text(ts[1..], names)
  }

  lemma TokensRest(ts: seq<Token>, names: seq<string>)
    requires ts != [] && Tokens(ts, names)
    ensures Tokens(ts[1..], names)
    ensures |ts| > 1 && ts[0].Name? ==> ts[1].Other?
  {
  }

  // The text with every name below n written as its number.
  ghost function Written(ts: seq<Token>, names: seq<string>, base: nat, n: nat): string
    requires Tokens(ts, names) && |names| + base < 100
  {
    if ts == [] then ""
    else
      TokensRest(ts, names);
      var rest := Written(ts[1..], names, base, n);
      if ts[0].Other? then [ts[0].c] + rest
      else if ts[0].i < n then SmallNumber(ts[0].i + base) + rest
      else names[ts[0].i] + rest
  }

  lemma NumberNoLetter(n: nat)
    requires n < 100
    ensures forall c :: c in SmallNumber(n) ==> !Letter(c)
    ensures 1 <= |SmallNumber(n)| <= 2
  {
  }

  // What follows a name in a text does not begin with a letter.
  lemma StartsPlain(ts: seq<Token>, names: seq<string>, base: nat, n: nat)
    requires Tokens(ts, names) && |names| + base < 100 && (ts != [] ==> ts[0].Other?)
    ensures Written(ts, names, base, n) == "" || !Letter(Written(ts, names, base, n)[0])
  {
  }

  // One pass leaves what is no name alone.
  lemma PassOver(c: char, rest: string, name: string, number: string)
    requires |name| == 3 && Letter(name[0]) && !Letter(c)
    ensures Replace([c] + rest, name, number) == [c] + Replace(rest, name, number)
  {
    var s := [c] + rest;
    assert s[1..] == rest;
    assert |s| >= 3 ==> s[..3][0] == c;
    assert |rest| < 3 ==> Replace(rest, name, number) == rest;
  }

  lemma FirstOut(p: string, rest: string)
    requires p != ""
    ensures p + rest == [p[0]] + (p[1..] + rest)
  {
  }

  lemma {:induction false} PassOverAll(p: string, rest: string, name: string, number: string)
    requires |name| == 3 && Letter(name[0]) && forall c :: c in p ==> !Letter(c)
    ensures Replace(p + rest, name, number) == p + Replace(rest, name, number)
  {
    hide Replace;
    if p == "" {
      assert p + rest == rest && p + Replace(rest, name, number) == Replace(rest, name, number);
    } else {
      PassOverAll(p[1..], rest, name, number);
      FirstOut(p, rest);
      FirstOut(p, Replace(rest, name, number));
      PassOver(p[0], p[1..] + rest, name, number);
    }
  }

  // It replaces its own name, and passes over another.
  lemma PassName(other: string, rest: string, name: string, number: string)
    requires |name| == 3 == |other| && Letter(name[0]) && Letter(name[1]) && Letter(name[2])
    requires rest == "" || !Letter(rest[0])
    ensures Replace(other + rest, name, number)
            == (if other == name then number else other) + Replace(rest, name, number)
  {
    var s := other + rest;
    assert s[..3] == other && s[3..] == rest;
    if other != name {
      var s1, s2 := s[1..], s[2..];
      assert s1[1..] == s2 && s2[1..] == rest;
      assert |s1| >= 3 ==> s1[..3][2] == rest[0];
      assert |s2| >= 3 ==> s2[..3][1] == rest[0];
      assert s1[0] == other[1] && s2[0] == other[2];
      Passed(s2, name, number);
      Passed(s1, name, number);
      Passed(s, name, number);
      assert Replace(s, name, number) == [other[0]] + ([other[1]] + ([other[2]] + Replace(rest, name, number)));
    }
  }

  // A character at which the name does not begin stays.
  lemma Passed(s: string, name: string, number: string)
    requires |name| == 3 && s != "" && (|s| >= 3 ==> s[..3] != name)
    ensures Replace(s, name, number) == [s[0]] + Replace(s[1..], name, number)
  {
    assert s == [s[0]] + s[1..];
  }

  lemma {:induction false} OnePass(ts: seq<Token>, names: seq<string>, base: nat, n: nat)
    requires ThreeLetters(names) && Tokens(ts, names) && |names| + base < 100 && n < |names|
    ensures Replace(Written(ts, names, base, n), names[n], SmallNumber(n + base)) == Written(ts, names, base, n + 1)
    decreases |ts|
  {
    hide Replace, SmallNumber;
    var name, number := names[n], SmallNumber(n + base);
    if ts == [] {
      NothingToReplace(name, number);
    } else {
      TokensRest(ts, names);
      var rest := Written(ts[1..], names, base, n);
      OnePass(ts[1..], names, base, n);
      if ts[0].Other? {
        PassOver(ts[0].c, rest, name, number);
      } else if ts[0].i < n {
        NumberNoLetter(ts[0].i + base);
        PassOverAll(SmallNumber(ts[0].i + base), rest, name, number);
      } else {
        StartsPlain(ts[1..], names, base, n);
        PassName(names[ts[0].i], rest, name, number);
      }
    }
  }

  lemma NothingToReplace(name: string, number: string)
    requires |name| == 3
    ensures Replace("", name, number) == ""
  {
  }

  lemma {:induction false} PassesFrom(ts: seq<Token>, names: seq<string>, base: nat, n: nat)
    requires ThreeLetters(names) && Tokens(ts, names) && |names| + base < 100 && n <= |names|
    ensures Numbers(Written(ts, names, base, n), names[n..], base + n) == Written(ts, names, base, |names|)
    decreases |names| - n
  {
    hide Replace, SmallNumber, Tokens, Written;
    if n < |names| {
      OnePass(ts, names, base, n);
      PassesFrom(ts, names, base, n + 1);
      assert names[n..][1..] == names[n + 1..];
    }
  }

  lemma {:induction false} NothingWritten(ts: seq<Token>, names: seq<string>, base: nat)
    requires Tokens(ts, names) && |names| + base < 100
    ensures Written(ts, names, base, 0) == Text(ts, names)
    decreases |ts|
  {
    if ts != [] {
      TokensRest(ts, names);
      NothingWritten(ts[1..], names, base);
    }
  }

  // In a text whose names stand apart, every name becomes its number, counted
  // from the base, and nothing else changes.
  lemma {:induction false} NamesAreNumbers(ts: seq<Token>, names: seq<string>, base: nat)
    requires ThreeLetters(names) && Tokens(ts, names) && |names| + base < 100
    ensures Numbers(Text(ts, names), names, base) == Written(ts, names, base, |names|)
  {
    hide Numbers, Written, Text, Tokens;
    NothingWritten(ts, names, base);
    PassesFrom(ts, names, base, 0);
    assert names[0..] == names;
  }

  lemma DaysAndMonths()
    ensures ThreeLetters(DAYS) && ThreeLetters(MONTHS) && |DAYS| == 7 && |MONTHS| == 12
  {
  }

  // So a weekday's name stands for 0 to 6 from Sunday on, and a month's for 1
  // to 12, whatever the case they are written in.
  lemma {:induction false} DayNames(spec: string, ts: seq<Token>)
    requires Tokens(ts, DAYS) && Lower(spec) == Text(ts, DAYS)
    ensures DowSpec(spec) == Written(ts, DAYS, 0, 7)
  {
    hide Numbers, Written, Text, Tokens, Lower;
    DaysAndMonths();
    NamesAreNumbers(ts, DAYS, 0);
  }

  lemma {:induction false} MonthNames(spec: string, ts: seq<Token>)
    requires Tokens(ts, MONTHS) && Lower(spec) == Text(ts, MONTHS)
    ensures MonthSpec(spec) == Written(ts, MONTHS, 1, 12)
  {
    hide Numbers, Written, Text, Tokens, Lower;
    DaysAndMonths();
    NamesAreNumbers(ts, MONTHS, 1);
  }
}
