// What the text of a field says: numbers, ranges, stars, steps and lists.

module Parts {
  import opened Wrappers
  import opened Sequences
  import opened Decimal
  import opened Cron

  // ── numbers ────────────────────────────────────────────────────────

  predicate AllDigits(s: string) {
    forall c :: c in s ==> '0' <= c <= '9'
  }

  lemma {:induction false} DigitsValueOneMore(s: string, c: char, acc: nat)
    ensures DigitsValue(s + [c], acc)
            == match DigitsValue(s, acc)
               case None => None
               case Some(n) => if '0' <= c <= '9' then Some(10 * n + (c as int - '0' as int)) else None
  {
    if s == "" {
      assert s + [c] == [c] && [c][1..] == "";
    } else {
      assert (s + [c])[1..] == s[1..] + [c];
      if '0' <= s[0] <= '9' {
        DigitsValueOneMore(s[1..], c, 10 * acc + (s[0] as int - '0' as int));
      }
    }
  }

  lemma {:induction false} DigitsValueMeaning(s: string)
    ensures DigitsValue(s, 0) == if AllDigits(s) then Some(Value(s)) else None
  {
    if s != "" {
      var front, last := s[..|s| - 1], s[|s| - 1];
      assert s == front + [last];
      assert forall c :: c in s <==> c in front || c == last;
      DigitsValueMeaning(front);
      DigitsValueOneMore(front, last, 0);
      assert last in s && (AllDigits(s) <==> AllDigits(front) && '0' <= last <= '9');
      assert Value(s) == 10 * Value(front) + (last as int - '0' as int);
    }
  }

  // A number is read from digits, after a plus sign or none, when it fits into
  // 32 bits.
  lemma {:induction false} NumberMeaning(s: string)
    ensures var digits := if s != "" && s[0] == '+' then s[1..] else s;
            ParseU32(s) == if digits != "" && AllDigits(digits) && Value(digits) < U32 then Some(Value(digits)) else None
  {
    DigitsValueMeaning(if s != "" && s[0] == '+' then s[1..] else s);
  }

  // So a number that is written is read back.
  lemma {:induction false} NumbersReadBack(n: nat)
    ensures ParseU32(Digits(n)) == if n < U32 then Some(n) else None
  {
    DigitsRead(n);
    NumberMeaning(Digits(n));
    assert Digits(n)[0] in Digits(n);
  }

  lemma OneDigits()
    ensures ParseU32("0") == Some(0) && ParseU32("7") == Some(7)
  {
    assert "0"[1..] == "" && "7"[1..] == "";
    assert DigitsValue("0", 0) == DigitsValue("", 0) && DigitsValue("7", 0) == DigitsValue("", 7);
  }

  // ── parts ──────────────────────────────────────────────────────────

  // What can follow a range: nothing, or a slash and a step.
  predicate StepText(suffix: string, step: nat) {
    if suffix == "" then step == 1
    else suffix[0] == '/' && ParseU32(suffix[1..]) == Some(step) && step >= 1
  }

  lemma {:induction false} SplitOnceAt(a: string, at: char, b: string)
    requires at !in a
    ensures SplitOnce(a + [at] + b, at) == Some((a, b))
  {
    var s := a + [at] + b;
    if a == "" {
      assert s[1..] == b;
    } else {
      SplitOnceAt(a[1..], at, b);
      assert s[1..] == a[1..] + [at] + b;
      assert a == [a[0]] + a[1..];
    }
  }

  lemma {:induction false} DigitsOnly(s: string, acc: nat)
    requires DigitsValue(s, acc).Some?
    ensures forall c :: c in s ==> '0' <= c <= '9'
  {
    if s != "" {
      DigitsOnly(s[1..], 10 * acc + (s[0] as int - '0' as int));
      assert s == [s[0]] + s[1..];
    }
  }

  lemma NumberText(s: string)
    requires ParseU32(s).Some?
    ensures s != "" && s != "*" && '-' !in s && '/' !in s && ',' !in s
  {
    var digits := if s[0] == '+' then s[1..] else s;
    DigitsOnly(digits, 0);
    assert s[0] == '+' ==> s == "+" + digits;
  }

  lemma StepOf(range: string, suffix: string, step: nat, name: string)
    requires '/' !in range && StepText(suffix, step)
    ensures ParseStep(range + suffix, name) == Ok((range, step))
  {
    if suffix == "" {
      assert range + suffix == range;
      SplitOnceNone(range, '/');
    } else {
      SplitOnceAt(range, '/', suffix[1..]);
      assert range + suffix == range + ['/'] + suffix[1..];
    }
  }

  // A part that is one number: itself, or with a step everything from there on.
  lemma {:induction false} NumberPart(a: string, n: nat, suffix: string, step: nat, min: nat, max: nat, name: string)
    requires ParseU32(a) == Some(n) && StepText(suffix, step) && min <= max < U32
    ensures var high := if step > 1 then max else n;
            ParsePart(a + suffix, min, max, name)
            == if n < min || high > max then Err(BadValue(a + suffix, name)) else Ok(Part(n, high, step))
  {
    hide ParseU32;
    NumberText(a);
    StepOf(a, suffix, step, name);
    SplitOnceNone(a, '-');
  }

  // A part that is a range, which may not go backwards or leave the bounds.
  lemma {:induction false} RangePart(a: string, m: nat, b: string, n: nat, suffix: string, step: nat, min: nat, max: nat, name: string)
    requires ParseU32(a) == Some(m) && ParseU32(b) == Some(n) && StepText(suffix, step) && min <= max < U32
    ensures ParsePart(a + "-" + b + suffix, min, max, name)
            == if m > n then Err(BackwardsRange(m, n))
               else if m < min || n > max then Err(BadValue(a + "-" + b + suffix, name))
               else Ok(Part(m, n, step))
  {
    hide ParseU32;
    NumberText(a);
    NumberText(b);
    var range := a + "-" + b;
    assert range == a + ['-'] + b;
    SplitOnceAt(a, '-', b);
    StepOf(range, suffix, step, name);
    assert '-' in range && range != "*";
  }

  // A part that is a star: everything within the bounds.
  lemma {:induction false} StarPart(suffix: string, step: nat, min: nat, max: nat, name: string)
    requires StepText(suffix, step) && min <= max < U32
    ensures ParsePart("*" + suffix, min, max, name) == Ok(Part(min, max, step))
  {
    hide ParseU32;
    StepOf("*", suffix, step, name);
  }

  // What is no number is refused as it stands: what follows the slash, then
  // what stands before the dash, then what follows it.
  lemma {:induction false} BadRange(a: string, b: string, suffix: string, step: nat, min: nat, max: nat, name: string)
    requires '/' !in a && '/' !in b && StepText(suffix, step) && min <= max < U32
    ensures '-' !in a && ParseU32(a).None? ==> ParsePart(a + "-" + b + suffix, min, max, name) == Err(BadValue(a, name))
    ensures ParseU32(a).Some? && ParseU32(b).None? ==> ParsePart(a + "-" + b + suffix, min, max, name) == Err(BadValue(b, name))
    ensures '-' !in a && a != "*" && ParseU32(a).None? ==> ParsePart(a + suffix, min, max, name) == Err(BadValue(a, name))
  {
    hide ParseU32;
    var range := a + "-" + b;
    assert range == a + ['-'] + b;
    if ParseU32(a).Some? {
      NumberText(a);
    }
    if '-' !in a {
      SplitOnceAt(a, '-', b);
      SplitOnceNone(a, '-');
    }
    StepOf(range, suffix, step, name);
    StepOf(a, suffix, step, name);
    assert '-' in range && range != "*";
  }

  // A step that is no number, or none.
  lemma {:induction false} BadStep(range: string, step: string, min: nat, max: nat, name: string)
    requires '/' !in range && min <= max < U32
    ensures ParseU32(step).None? ==> ParsePart(range + "/" + step, min, max, name) == Err(BadValue(step, name))
    ensures ParseU32(step) == Some(0) ==> ParsePart(range + "/" + step, min, max, name) == Err(ZeroStep)
  {
    hide ParseU32, ParseRange;
    SplitOnceAt(range, '/', step);
    assert range + "/" + step == range + ['/'] + step;
  }

  // ── whole fields ───────────────────────────────────────────────────

  lemma {:induction false} NoSplit(s: string, at: char)
    requires at !in s
    ensures Split(s, at) == [s]
  {
    if s != "" {
      NoSplit(s[1..], at);
      assert s == [s[0]] + s[1..];
    }
  }

  // A character in front of what is split already.
  function InFront(c: char, at: char, parts: seq<string>): seq<string>
    requires parts != []
  {
    if c == at then [""] + parts else [[c] + parts[0]] + parts[1..]
  }

  lemma SplitFirst(c: char, s: string, at: char)
    ensures Split([c] + s, at) == InFront(c, at, Split(s, at))
  {
    assert ([c] + s)[1..] == s;
  }

  lemma InFrontOfMore(c: char, at: char, x: seq<string>, y: seq<string>)
    requires x != []
    ensures InFront(c, at, x + y) == InFront(c, at, x) + y
  {
  }

  lemma {:induction false} SplitJoined(a: string, at: char, b: string)
    ensures Split(a + [at] + b, at) == Split(a, at) + Split(b, at)
  {
    if a == "" {
      assert a + [at] + b == [at] + b;
      SplitFirst(at, b, at);
    } else {
      assert a + [at] + b == [a[0]] + (a[1..] + [at] + b) && a == [a[0]] + a[1..];
      hide Split, InFront;
      SplitJoined(a[1..], at, b);
      SplitFirst(a[0], a[1..] + [at] + b, at);
      SplitFirst(a[0], a[1..], at);
      InFrontOfMore(a[0], at, Split(a[1..], at), Split(b, at));
    }
  }

  lemma {:induction false} PartsJoined(a: seq<string>, b: seq<string>, min: nat, max: nat, name: string)
    requires min <= max < U32
    ensures ParseParts(a + b, min, max, name)
            == match ParseParts(a, min, max, name)
               case Err(e) => Err(e)
               case Ok(ps) =>
                 match ParseParts(b, min, max, name)
                 case Err(e) => Err(e)
                 case Ok(qs) => Ok(ps + qs)
    decreases |b|
  {
    hide ParsePart;
    if b == [] {
      assert a + b == a;
      if ParseParts(a, min, max, name).Ok? {
        assert ParseParts(a, min, max, name).value + [] == ParseParts(a, min, max, name).value;
      }
    } else {
      var front, last := b[..|b| - 1], b[|b| - 1];
      PartsJoined(a, front, min, max, name);
      assert (a + b)[..|a + b| - 1] == a + front && (a + b)[|a + b| - 1] == last;
      if ParseParts(a, min, max, name).Ok? && ParseParts(b, min, max, name).Ok? {
        var ps, qs := ParseParts(a, min, max, name).value, ParseParts(front, min, max, name).value;
        Assoc(ps, qs, [ParsePart(last, min, max, name).value]);
      }
    }
  }

  lemma {:induction false} SweptJoined(ps: seq<Part>, qs: seq<Part>, max: nat)
    requires max < 100 && PartsOk(ps, max) && PartsOk(qs, max)
    ensures SweptBy(ps + qs, max) == SweptBy(ps, max) + SweptBy(qs, max)
  {
    hide Sweep;
    forall x
      ensures x in SweptBy(ps + qs, max) <==> x in SweptBy(ps, max) || x in SweptBy(qs, max)
    {
      SweptByMeaning(ps, max, x);
      SweptByMeaning(qs, max, x);
      SweptByMeaning(ps + qs, max, x);
      if i: int :| 0 <= i < |qs| && x in Sweep(qs[i].low, qs[i].high, qs[i].step) {
        assert (ps + qs)[|ps| + i] == qs[i];
      }
      if i: int :| 0 <= i < |ps| && x in Sweep(ps[i].low, ps[i].high, ps[i].step) {
        assert (ps + qs)[i] == ps[i];
      }
    }
  }

  // Two lists joined by a comma name what either names; and what is wrong with
  // a part of the first, or then of the second, is wrong with both.
  lemma {:induction false} ListField(a: string, b: string, min: nat, max: nat, name: string)
    requires min <= max < 100
    ensures var x, y, all := FieldSet(a, min, max, name), FieldSet(b, min, max, name), FieldSet(a + "," + b, min, max, name);
            && (x.Ok? && y.Ok? ==> all == Ok(x.value + y.value))
            && (x.Err? && ParseParts(Split(a, ','), min, max, name).Err? ==> all == x)
            && (x.Ok? && y.Err? && ParseParts(Split(b, ','), min, max, name).Err? ==> all == y)
  {
    assert a + "," + b == a + [','] + b;
    SplitJoined(a, ',', b);
    var pa, pb := Split(a, ','), Split(b, ',');
    PartsJoined(pa, pb, min, max, name);
    hide Split, ParsePart, Sweep, ParseParts, SweptBy;
    if ParseParts(pa, min, max, name).Ok? && ParseParts(pb, min, max, name).Ok? {
      ParsedPartsOk(pa, min, max, name);
      ParsedPartsOk(pb, min, max, name);
      SweptJoined(ParseParts(pa, min, max, name).value, ParseParts(pb, min, max, name).value, max);
    }
  }

  // The values from one on, a whole number of steps from it, up to another.
  function Stepping(low: nat, high: nat, step: nat): set<nat>
    requires step > 0
  {
    set x: nat | x <= high && OnStep(x, Part(low, high, step))
  }

  lemma {:induction false} SteppingMeaning(low: nat, high: nat, step: nat, x: nat)
    requires step > 0
    ensures x in Stepping(low, high, step) <==> low <= x <= high && (x - low) % step == 0
  {
  }

  // A field of one part whose first step does not overflow holds the values on
  // its steps.
  lemma OnePart(s: string, p: Part, min: nat, max: nat, name: string)
    requires min <= max < 100 && ',' !in s && ParsePart(s, min, max, name) == Ok(p) && p.low + p.step < U32
    ensures FieldSet(s, min, max, name)
            == if p.low <= p.high then Ok(Stepping(p.low, p.high, p.step)) else Err(BadValue(s, name))
  {
    NoSplit(s, ',');
    OnePartSwept(p, max);
    hide Split, ParsePart, Sweep, OnStep, Stepping;
    assert [s][..0] == [];
    assert ParseParts([s], min, max, name) == Ok([] + [p]);
    assert [] + [p] == [p];
    OnlyPart(p, max);
    hide ParseParts, SweptBy;
  }

  lemma OnlyPart(p: Part, max: nat)
    requires p.high <= max < 100 && 1 <= p.step < U32 && p.low < U32
    ensures PartsOk([p], max) && SweptBy([p], max) == Sweep(p.low, p.high, p.step)
  {
    hide Sweep;
    assert [p][..0] == [];
    assert SweptBy([p], max) == SweptBy([], max) + Sweep(p.low, p.high, p.step);
  }

  lemma OnePartSwept(p: Part, max: nat)
    requires p.high <= max < 100 && 1 <= p.step < U32 && p.low + p.step < U32
    ensures Sweep(p.low, p.high, p.step) == Stepping(p.low, p.high, p.step)
    ensures Sweep(p.low, p.high, p.step) == {} <==> p.low > p.high
  {
    hide Sweep;
    forall x: nat
      ensures x in Sweep(p.low, p.high, p.step) <==> x in Stepping(p.low, p.high, p.step)
    {
      SweepOnStep(p.low, p.high, p.step, x);
    }
    assert p.low <= p.high ==> p.low in Stepping(p.low, p.high, p.step);
  }

  lemma NoComma(suffix: string, step: nat)
    requires StepText(suffix, step)
    ensures ',' !in suffix
  {
    hide ParseU32;
    if suffix != "" {
      NumberText(suffix[1..]);
      assert suffix == [suffix[0]] + suffix[1..];
    }
  }

  // A star names everything within the bounds, from the low end in steps.
  lemma {:induction false} StarField(suffix: string, step: nat, min: nat, max: nat, name: string)
    requires StepText(suffix, step) && min <= max < 100 && min + step < U32
    ensures FieldSet("*" + suffix, min, max, name) == Ok(Stepping(min, max, step))
  {
    NoComma(suffix, step);
    StarPart(suffix, step, min, max, name);
    var p := Part(min, max, step);
    OnePart("*" + suffix, p, min, max, name);
  }

  // A range names what lies in it, and a number itself, or with a step what
  // lies from there to the high end.
  lemma {:induction false} RangeField(a: string, m: nat, b: string, n: nat, suffix: string, step: nat, min: nat, max: nat, name: string)
    requires ParseU32(a) == Some(m) && ParseU32(b) == Some(n) && StepText(suffix, step)
    requires min <= m <= n <= max < 100 && m + step < U32
    ensures FieldSet(a + "-" + b + suffix, min, max, name) == Ok(Stepping(m, n, step))
  {
    NoComma(suffix, step);
    NumberText(a);
    NumberText(b);
    RangePart(a, m, b, n, suffix, step, min, max, name);
    var p := Part(m, n, step);
    OnePart(a + "-" + b + suffix, p, min, max, name);
  }

  lemma {:induction false} NumberField(a: string, n: nat, suffix: string, step: nat, min: nat, max: nat, name: string)
    requires ParseU32(a) == Some(n) && StepText(suffix, step) && min <= n <= max < 100 && n + step < U32
    ensures FieldSet(a + suffix, min, max, name)
            == Ok(Stepping(n, if step > 1 then max else n, step))
  {
    NoComma(suffix, step);
    NumberText(a);
    NumberPart(a, n, suffix, step, min, max, name);
    var p := Part(n, if step > 1 then max else n, step);
    OnePart(a + suffix, p, min, max, name);
  }
}
