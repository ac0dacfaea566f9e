// Five-field schedules: reading them, and finding when they fire next.

module Cron {
  import opened Wrappers
  import opened Division
  import opened Characters

  datatype CronError =
    | WrongFieldCount(got: nat)
    | BadValue(text: string, name: string)
    | BackwardsRange(low: nat, high: nat)
    | ZeroStep

  // A parsed schedule.
  datatype Fields = Fields(
    minute: set<nat>,
    hour: set<nat>,
    dom: set<nat>,
    month: set<nat>,
    dow: set<nat>,
    domRestricted: bool,
    dowRestricted: bool)
  {
    // What every schedule that parses satisfies.
    ghost predicate WellFormed() {
      && minute != {} && hour != {} && dom != {} && month != {} && dow != {}
      && (forall v :: v in minute ==> v <= 59)
      && (forall v :: v in hour ==> v <= 23)
      && (forall v :: v in dom ==> v <= 31)
      && (forall v :: v in month ==> v <= 12)
      && (forall v :: v in dow ==> v <= 6)
    }

    predicate Matches(mon: int, day: int, weekday: int, h: int, min: int) {
      if !(0 <= min && min in minute && 0 <= h && h in hour) then false
      else if !(0 <= mon && mon in month) then false
      else
        match (domRestricted, dowRestricted)
        case (true, true) => (0 <= day && day in dom) || (0 <= weekday && weekday in dow)
        case (true, false) => 0 <= day && day in dom
        case (false, true) => 0 <= weekday && weekday in dow
        case (false, false) => true
    }
  }

  // ── reading one field ──────────────────────────────────────────────

  const U32: nat := 0x1_0000_0000

  function Split(s: string, at: char): (parts: seq<string>)
    ensures parts != []
  {
    if s == "" then [""]
    else
      var rest := Split(s[1..], at);
      if s[0] == at then [""] + rest else [[s[0]] + rest[0]] + rest[1..]
  }

  function SplitOnce(s: string, at: char): Option<(string, string)> {
    if s == "" then None
    else if s[0] == at then Some(("", s[1..]))
    else
      match SplitOnce(s[1..], at)
      case None => None
      case Some(p) => Some(([s[0]] + p.0, p.1))
  }

  lemma {:induction false} SplitOnceNone(s: string, at: char)
    requires at !in s
    ensures SplitOnce(s, at).None?
  {
    if s != "" {
      SplitOnceNone(s[1..], at);
    }
  }

  function DigitsValue(s: string, acc: nat): Option<nat> {
    if s == "" then Some(acc)
    else if '0' <= s[0] <= '9' then DigitsValue(s[1..], 10 * acc + (s[0] as int - '0' as int))
    else None
  }

  // An unsigned 32-bit number: digits, with a plus sign allowed in front.
  function ParseU32(s: string): (n: Option<nat>)
    ensures n.Some? ==> n.value < U32
  {
    var digits := if s != "" && s[0] == '+' then s[1..] else s;
    if digits == "" then None
    else
      match DigitsValue(digits, 0)
      case None => None
      case Some(n) => if n < U32 then Some(n) else None
  }

  // The values a part of a list sweeps: from low, in steps, up to high.
  datatype Part = Part(low: nat, high: nat, step: nat)

  function ParseStep(part: string, name: string): Result<(string, nat), CronError> {
    match SplitOnce(part, '/')
    case None => Ok((part, 1))
    case Some(p) =>
      match ParseU32(p.1)
      case None => Err(BadValue(p.1, name))
      case Some(step) => if step == 0 then Err(ZeroStep) else Ok((p.0, step))
  }

  function ParseRange(range: string, step: nat, min: nat, max: nat, name: string): Result<(nat, nat), CronError> {
    if range == "*" then Ok((min, max))
    else
      match SplitOnce(range, '-')
      case Some(p) =>
        (match ParseU32(p.0)
         case None => Err(BadValue(p.0, name))
         case Some(a) =>
           match ParseU32(p.1)
           case None => Err(BadValue(p.1, name))
           case Some(b) => if a > b then Err(BackwardsRange(a, b)) else Ok((a, b)))
      case None =>
        match ParseU32(range)
        case None => Err(BadValue(range, name))
        case Some(v) => if step > 1 then Ok((v, max)) else Ok((v, v))
  }

  function ParsePart(part: string, min: nat, max: nat, name: string): (r: Result<Part, CronError>)
    requires min <= max < U32
    ensures r.Ok? ==> min <= r.value.low && r.value.high <= max && 1 <= r.value.step < U32 && r.value.low < U32
  {
    match ParseStep(part, name)
    case Err(e) => Err(e)
    case Ok(s) =>
      match ParseRange(s.0, s.1, min, max, name)
      case Err(e) => Err(e)
      case Ok(b) => if b.0 < min || b.1 > max then Err(BadValue(part, name)) else Ok(Part(b.0, b.1, s.1))
  }

  // The sweep in 32-bit arithmetic that wraps, as it does when overflow checks
  // are off.
  function Sweep(v: nat, high: nat, step: nat): set<nat>
    requires high < U32 / 2 && 1 <= step < U32 && v < U32
    decreases if v > high then 0 else if step < U32 - high then high - v + 1 else v + 1
  {
    if v > high then {} else {v} + Sweep((v + step) % U32, high, step)
  }

  predicate OnStep(x: nat, p: Part)
    requires p.step > 0
  {
    p.low <= x <= p.high && (x - p.low) % p.step == 0
  }

  lemma StepBack(x: nat, v: nat, step: nat)
    requires step > 0 && v <= x
    ensures x < v + step && (x - v) % step == 0 ==> x == v
    ensures x >= v + step ==> ((x - v) % step == 0 <==> (x - (v + step)) % step == 0)
  {
    if x >= v + step {
      AddDivisor(x - (v + step), step);
    }
  }

  // Without a wrap, a sweep is the values on a step.
  lemma {:induction false} SweepOnStep(v: nat, high: nat, step: nat, x: nat)
    requires high < U32 / 2 && 1 <= step < U32 && v < U32
    requires v <= high ==> v + step < U32
    ensures x in Sweep(v, high, step) <==> OnStep(x, Part(v, high, step))
    decreases if v > high then 0 else high - v + 1
  {
    hide OnStep;
    if v > high {
      OnStepNext(v, high, step, x);
    } else {
      Small(v + step);
      OnStepNext(v, high, step, x);
      if v + step <= high {
        SweepOnStep(v + step, high, step, x);
      } else {
        OnStepNext(v + step, high, step, x);
      }
    }
  }

  lemma Small(v: nat)
    requires v < U32
    ensures v % U32 == v
  {
  }

  // A value is on a step when it is the first one or is on a step of what
  // follows.
  lemma OnStepNext(v: nat, high: nat, step: nat, x: nat)
    requires step >= 1
    ensures v > high ==> !OnStep(x, Part(v, high, step))
    ensures v <= high ==> (OnStep(x, Part(v, high, step)) <==> x == v || OnStep(x, Part(v + step, high, step)))
  {
    if v <= x {
      StepBack(x, v, step);
    }
  }

  // A part sweeps exactly the values on its steps, if and only if its first
  // step does not overflow; when it does, the sweep also goes below the part's
  // low end.
  lemma {:induction false} SweepExact(p: Part)
    requires p.high < U32 / 2 && 1 <= p.step < U32 && p.low < U32
    ensures (forall x: nat :: x in Sweep(p.low, p.high, p.step) <==> OnStep(x, p))
            <==> p.low > p.high || p.low + p.step < U32
  {
    if p.low > p.high || p.low + p.step < U32 {
      forall x: nat
        ensures x in Sweep(p.low, p.high, p.step) <==> OnStep(x, p)
      {
        SweepOnStep(p.low, p.high, p.step, x);
      }
    } else {
      var x: nat := p.low + p.step - U32;
      assert (p.low + p.step) % U32 == x;
      assert x in Sweep(x, p.high, p.step);
      assert x in Sweep(p.low, p.high, p.step) && !OnStep(x, p);
    }
  }

  // For instance a minute field that starts at 5 and steps by all but one of
  // the 32-bit range also fires at every minute before the fifth.
  lemma {:induction false} SweepWraps()
    ensures Sweep(5, 59, U32 - 1) == {0, 1, 2, 3, 4, 5}
  {
    var s := U32 - 1;
    assert Sweep(0, 59, s) == {0} + Sweep(s, 59, s);
    assert (1 + s) % U32 == 0 && (2 + s) % U32 == 1 && (3 + s) % U32 == 2 && (4 + s) % U32 == 3 && (5 + s) % U32 == 4;
    assert Sweep(1, 59, s) == {1} + Sweep(0, 59, s);
    assert Sweep(2, 59, s) == {2} + Sweep(1, 59, s);
    assert Sweep(3, 59, s) == {3} + Sweep(2, 59, s);
    assert Sweep(4, 59, s) == {4} + Sweep(3, 59, s);
    assert Sweep(5, 59, s) == {5} + Sweep(4, 59, s);
  }

  lemma {:induction false} SweepBounded(v: nat, high: nat, step: nat)
    requires high < U32 / 2 && 1 <= step < U32 && v < U32
    ensures forall x :: x in Sweep(v, high, step) ==> x <= high
    decreases if v > high then 0 else if step < U32 - high then high - v + 1 else v + 1
  {
    if v <= high {
      SweepBounded((v + step) % U32, high, step);
    }
  }

  // The parts of a list, or the first thing wrong with it.
  function ParseParts(parts: seq<string>, min: nat, max: nat, name: string): Result<seq<Part>, CronError>
    requires min <= max < U32
  {
    if parts == [] then Ok([])
    else
      var last := |parts| - 1;
      match ParseParts(parts[..last], min, max, name)
      case Err(e) => Err(e)
      case Ok(ps) =>
        match ParsePart(parts[last], min, max, name)
        case Err(e) => Err(e)
        case Ok(p) => Ok(ps + [p])
  }

  lemma {:induction false} EachPartParsed(parts: seq<string>, min: nat, max: nat, name: string)
    requires min <= max < U32
    ensures var r := ParseParts(parts, min, max, name);
            r.Ok? ==> |r.value| == |parts|
                      && forall i :: 0 <= i < |parts| ==> ParsePart(parts[i], min, max, name) == Ok(r.value[i])
  {
    hide ParsePart;
    if parts != [] {
      var last := |parts| - 1;
      EachPartParsed(parts[..last], min, max, name);
      assert forall i :: 0 <= i < last ==> parts[..last][i] == parts[i];
    }
  }

  // The error is that of the first part that has one.
  lemma {:induction false} ParsePartsError(parts: seq<string>, min: nat, max: nat, name: string) returns (i: nat)
    requires min <= max < U32 && ParseParts(parts, min, max, name).Err?
    ensures i < |parts| && ParsePart(parts[i], min, max, name) == Err(ParseParts(parts, min, max, name).error)
    ensures forall k :: 0 <= k < i ==> ParsePart(parts[k], min, max, name).Ok?
  {
    hide ParsePart;
    var last := |parts| - 1;
    if ParseParts(parts[..last], min, max, name).Err? {
      i := ParsePartsError(parts[..last], min, max, name);
      assert forall k :: 0 <= k <= i ==> parts[..last][k] == parts[k];
    } else {
      i := last;
      EachPartParsed(parts[..last], min, max, name);
      assert forall k :: 0 <= k < last ==> parts[..last][k] == parts[k];
    }
  }

  predicate PartsOk(ps: seq<Part>, max: nat) {
    forall p :: p in ps ==> p.high <= max && 1 <= p.step < U32 && p.low < U32
  }

  // Everything the parts sweep.
  function SweptBy(ps: seq<Part>, max: nat): set<nat>
    requires max < 100 && PartsOk(ps, max)
  {
    if ps == [] then {}
    else
      var p := ps[|ps| - 1];
      SweptBy(ps[..|ps| - 1], max) + Sweep(p.low, p.high, p.step)
  }

  lemma {:induction false} SweptByMeaning(ps: seq<Part>, max: nat, x: nat)
    requires max < 100 && PartsOk(ps, max)
    ensures x in SweptBy(ps, max) <==> exists i :: 0 <= i < |ps| && x in Sweep(ps[i].low, ps[i].high, ps[i].step)
    ensures x in SweptBy(ps, max) ==> x <= max
  {
    if ps != [] {
      var last := |ps| - 1;
      SweptByMeaning(ps[..last], max, x);
      SweepBounded(ps[last].low, ps[last].high, ps[last].step);
      if x in SweptBy(ps[..last], max) {
        var i :| 0 <= i < last && x in Sweep(ps[..last][i].low, ps[..last][i].high, ps[..last][i].step);
        assert ps[i] == ps[..last][i];
      }
      if i: int :| 0 <= i < |ps| && x in Sweep(ps[i].low, ps[i].high, ps[i].step) {
        assert i < last ==> ps[i] == ps[..last][i];
      }
    }
  }

  lemma {:induction false} ParsedPartsOk(parts: seq<string>, min: nat, max: nat, name: string)
    requires min <= max < 100 && ParseParts(parts, min, max, name).Ok?
    ensures PartsOk(ParseParts(parts, min, max, name).value, max)
  {
    EachPartParsed(parts, min, max, name);
    var ps := ParseParts(parts, min, max, name).value;
    forall p | p in ps
      ensures p.high <= max && 1 <= p.step < U32 && p.low < U32
    {
      var i :| 0 <= i < |ps| && ps[i] == p;
      assert ParsePart(parts[i], min, max, name) == Ok(p);
    }
  }

  // The values of a field, or what is wrong with it.
  function FieldSet(spec: string, min: nat, max: nat, name: string): Result<set<nat>, CronError>
    requires min <= max < 100
  {
    match ParseParts(Split(spec, ','), min, max, name)
    case Err(e) => Err(e)
    case Ok(ps) =>
      ParsedPartsOk(Split(spec, ','), min, max, name);
      var all := SweptBy(ps, max);
      if all == {} then Err(BadValue(spec, name)) else Ok(all)
  }

  // No part's first step overflows.
  predicate NoOverflow(ps: seq<Part>) {
    forall p :: p in ps && p.low <= p.high ==> p.low + p.step < U32
  }

  // An accepted field is not empty and stays within its upper bound; and when
  // no part overflows, it holds a value exactly when some part has the value
  // in its range, a whole number of steps from its low end.
  lemma {:induction false} FieldMeaning(spec: string, min: nat, max: nat, name: string)
    requires min <= max < 100 && FieldSet(spec, min, max, name).Ok?
    ensures var values := FieldSet(spec, min, max, name).value;
            var ps := ParseParts(Split(spec, ','), min, max, name);
            && values != {} && (forall x :: x in values ==> x <= max)
            && ps.Ok? && PartsOk(ps.value, max)
            && (NoOverflow(ps.value) ==>
                  forall x: nat :: x in values <==> exists i :: 0 <= i < |ps.value| && OnStep(x, ps.value[i]))
            && (NoOverflow(ps.value) ==> forall x :: x in values ==> min <= x)
  {
    hide Split, ParsePart, Sweep, OnStep;
    var parts := Split(spec, ',');
    var ps := ParseParts(parts, min, max, name).value;
    EachPartParsed(parts, min, max, name);
    ParsedPartsOk(parts, min, max, name);
    forall x: nat
      ensures x in SweptBy(ps, max) ==> x <= max
      ensures NoOverflow(ps) ==> (x in SweptBy(ps, max) <==> exists i :: 0 <= i < |ps| && OnStep(x, ps[i]))
      ensures NoOverflow(ps) && x in SweptBy(ps, max) ==> min <= x
    {
      SweptByMeaning(ps, max, x);
      if NoOverflow(ps) {
        forall i | 0 <= i < |ps|
          ensures x in Sweep(ps[i].low, ps[i].high, ps[i].step) <==> OnStep(x, ps[i])
          ensures OnStep(x, ps[i]) ==> min <= x
        {
          assert ps[i] in ps;
          assert ParsePart(parts[i], min, max, name) == Ok(ps[i]);
          OnStepFrom(x, ps[i]);
          SweepOnStep(ps[i].low, ps[i].high, ps[i].step, x);
        }
      }
    }
  }

  lemma OnStepFrom(x: nat, p: Part)
    requires p.step > 0
    ensures OnStep(x, p) ==> p.low <= x
  {
  }

  lemma FieldBounded(spec: string, min: nat, max: nat, name: string)
    requires min <= max < 100
    ensures var r := FieldSet(spec, min, max, name);
            r.Ok? ==> r.value != {} && forall x :: x in r.value ==> x <= max
  {
    hide FieldSet, NoOverflow, OnStep, ParseParts, Split;
    if FieldSet(spec, min, max, name).Ok? {
      FieldMeaning(spec, min, max, name);
    }
  }

  method Field(spec: string, min: nat, max: nat, name: string) returns (r: Result<set<nat>, CronError>)
    requires min <= max < 100
    ensures r == FieldSet(spec, min, max, name)
  {
    hide ParsePart, Split, Sweep;
    var parts := Split(spec, ',');
    var out: set<nat> := {};
    ghost var ps: seq<Part> := [];
    var i := 0;
    while i < |parts|
      invariant i <= |parts|
      invariant ParseParts(parts[..i], min, max, name) == Ok(ps)
      invariant PartsOk(ps, max) && out == SweptBy(ps, max)
    {
      assert parts[..i + 1][..i] == parts[..i];
      var parsed := ParsePart(parts[i], min, max, name);
      if parsed.Err? {
        FirstError(parts, i, min, max, name);
        return Err(parsed.error);
      }
      var swept := SweepPart(parsed.value);
      assert (ps + [parsed.value])[..|ps|] == ps;
      out := out + swept;
      ps := ps + [parsed.value];
      i := i + 1;
    }
    assert parts[..i] == parts;
    r := if out == {} then Err(BadValue(spec, name)) else Ok(out);
  }

  lemma {:induction false} FirstError(parts: seq<string>, i: nat, min: nat, max: nat, name: string)
    requires min <= max < U32 && i < |parts|
    requires ParseParts(parts[..i], min, max, name).Ok? && ParsePart(parts[i], min, max, name).Err?
    ensures ParseParts(parts, min, max, name) == Err(ParsePart(parts[i], min, max, name).error)
    decreases |parts|
  {
    hide ParsePart;
    var last := |parts| - 1;
    if i == last {
    } else {
      assert parts[..last][..i] == parts[..i];
      FirstError(parts[..last], i, min, max, name);
    }
  }

  lemma SweepNext(v: nat, high: nat, step: nat)
    requires high < U32 / 2 && 1 <= step < U32 && v < U32
    ensures Sweep(v, high, step) == if v > high then {} else {v} + Sweep((v + step) % U32, high, step)
  {
  }

  lemma UnionAssoc<T>(a: set<T>, b: set<T>, c: set<T>)
    ensures a + b + c == a + (b + c)
  {
  }

  method SweepPart(p: Part) returns (out: set<nat>)
    requires p.high < 100 && 1 <= p.step < U32 && p.low < U32
    ensures out == Sweep(p.low, p.high, p.step)
  {
    hide Sweep;
    out := {};
    var v: nat := p.low;
    while v <= p.high
      invariant 0 <= v < U32
      invariant out + Sweep(v, p.high, p.step) == Sweep(p.low, p.high, p.step)
      decreases if v > p.high then 0 else if p.step < U32 - p.high then p.high - v + 1 else v + 1
    {
      SweepNext(v, p.high, p.step);
      UnionAssoc(out, {v}, Sweep((v + p.step) % U32, p.high, p.step));
      out := out + {v};
      v := (v + p.step) % U32;
    }
    SweepNext(v, p.high, p.step);
  }

  // ── names, weekdays, and the whole expression ──────────────────────

  const MONTHS: seq<string> :=
    ["jan", "feb", "mar", "apr", "may", "jun", "jul", "aug", "sep", "oct", "nov", "dec"]
  const DAYS: seq<string> := ["sun", "mon", "tue", "wed", "thu", "fri", "sat"]

  // Every occurrence of a name, from the left, replaced.
  function Replace(s: string, name: string, number: string): string
    requires name != ""
  {
    if |s| < |name| then s
    else if s[..|name|] == name then number + Replace(s[|name|..], name, number)
    else [s[0]] + Replace(s[1..], name, number)
  }

  function SmallNumber(n: nat): string
    requires n < 100
  {
    if n < 10 then ["0123456789"[n]] else ["0123456789"[n / 10], "0123456789"[n % 10]]
  }

  method Substitute(spec: string, names: seq<string>, base: nat) returns (out: string)
    requires |names| + base < 100
    requires forall i :: 0 <= i < |names| ==> names[i] != ""
    ensures out == Numbers(Lower(spec), names, base)
  {
    out := Lower(spec);
    var i := 0;
    while i < |names|
      invariant i <= |names|
      invariant Numbers(out, names[i..], base + i) == Numbers(Lower(spec), names, base)
    {
      assert names[i..][0] == names[i] && names[i..][1..] == names[i + 1..];
      out := Replace(out, names[i], SmallNumber(i + base));
      i := i + 1;
    }
  }

  function Numbers(s: string, names: seq<string>, base: nat): string
    requires |names| + base < 100
    requires forall i :: 0 <= i < |names| ==> names[i] != ""
    decreases |names|
  {
    if names == [] then s
    else Numbers(Replace(s, names[0], SmallNumber(base)), names[1..], base + 1)
  }

  predicate Occurs(name: string, s: string)
    requires name != ""
  {
    |s| >= |name| && (s[..|name|] == name || Occurs(name, s[1..]))
  }

  // A text in which no name occurs is left as it is.
  lemma {:induction false} NumbersLeaves(s: string, names: seq<string>, base: nat)
    requires |names| + base < 100
    requires forall i :: 0 <= i < |names| ==> names[i] != "" && !Occurs(names[i], s)
    ensures Numbers(s, names, base) == s
    decreases |names|
  {
    hide Occurs;
    if names != [] {
      ReplaceLeaves(s, names[0], SmallNumber(base));
      NumbersLeaves(s, names[1..], base + 1);
    }
  }

  lemma {:induction false} ReplaceLeaves(s: string, name: string, number: string)
    requires name != "" && !Occurs(name, s)
    ensures Replace(s, name, number) == s
  {
    if |s| >= |name| {
      ReplaceLeaves(s[1..], name, number);
    }
  }

  function Sunday(d: nat): nat {
    if d == 7 then 0 else d
  }

  // A weekday field with its names as numbers.
  function DowSpec(spec: string): string {
    Numbers(Lower(spec), DAYS, 0)
  }

  function DowSet(spec: string): Result<set<nat>, CronError> {
    match FieldSet(DowSpec(spec), 0, 7, "day of week")
    case Err(e) => Err(e)
    case Ok(days) => Ok(Sundays(days))
  }

  function Sundays(days: set<nat>): set<nat> {
    set d | d in days :: Sunday(d)
  }

  method DowField(spec: string) returns (r: Result<set<nat>, CronError>)
    ensures r == DowSet(spec)
  {
    var numbers := Substitute(spec, DAYS, 0);
    var field := Field(numbers, 0, 7, "day of week");
    if field.Err? {
      return Err(field.error);
    }
    return Ok(Sundays(field.value));
  }

  // A set of weekdays is not empty and lies in 0..6: it has Sunday when the
  // field has 0 or 7, and any other day when the field has it.
  lemma {:induction false} DowMeaning(spec: string)
    requires DowSet(spec).Ok?
    ensures var field := FieldSet(DowSpec(spec), 0, 7, "day of week");
            && field.Ok? && DowSet(spec).value != {} && (forall x :: x in DowSet(spec).value ==> x <= 6)
            && (0 in DowSet(spec).value <==> 0 in field.value || 7 in field.value)
            && (forall x :: 1 <= x <= 6 ==> (x in DowSet(spec).value <==> x in field.value))
  {
    hide FieldSet, DowSpec;
    FieldBounded(DowSpec(spec), 0, 7, "day of week");
    SundaysMeaning(FieldSet(DowSpec(spec), 0, 7, "day of week").value);
  }

  lemma SundaysMeaning(days: set<nat>)
    requires days != {} && forall x :: x in days ==> x <= 7
    ensures Sundays(days) != {} && forall x :: x in Sundays(days) ==> x <= 6
    ensures 0 in Sundays(days) <==> 0 in days || 7 in days
    ensures forall x :: 1 <= x <= 6 ==> (x in Sundays(days) <==> x in days)
  {
    var some :| some in days;
    assert Sunday(some) in Sundays(days);
    assert 0 in days ==> Sunday(0) in Sundays(days);
    assert 7 in days ==> Sunday(7) in Sundays(days);
    forall x | 1 <= x <= 6 && x in days
      ensures x in Sundays(days)
    {
      assert Sunday(x) == x;
    }
  }

  function MonthSpec(spec: string): string {
    Numbers(Lower(spec), MONTHS, 1)
  }

  function MonthSet(spec: string): Result<set<nat>, CronError> {
    FieldSet(MonthSpec(spec), 1, 12, "month")
  }

  method MonthField(spec: string) returns (r: Result<set<nat>, CronError>)
    ensures r == MonthSet(spec)
  {
    var numbers := Substitute(spec, MONTHS, 1);
    r := Field(numbers, 1, 12, "month");
  }

  // A whole expression. Its fields are read in order, and the first that is
  // wrong is the error.
  function Parsed(expr: string): Result<Fields, CronError> {
    var parts := Words(expr);
    if |parts| != 5 then Err(WrongFieldCount(|parts|)) else ParsedParts(parts)
  }

  function ParsedParts(parts: seq<string>): Result<Fields, CronError>
    requires |parts| == 5
  {
    var minute := FieldSet(parts[0], 0, 59, "minute");
    if minute.Err? then Err(minute.error)
    else
      var hour := FieldSet(parts[1], 0, 23, "hour");
      if hour.Err? then Err(hour.error)
      else
        var dom := FieldSet(parts[2], 1, 31, "day of month");
        if dom.Err? then Err(dom.error)
        else
          var month := MonthSet(parts[3]);
          if month.Err? then Err(month.error)
          else
            var dow := DowSet(parts[4]);
            if dow.Err? then Err(dow.error)
            else Ok(Fields(minute.value, hour.value, dom.value, month.value, dow.value,
                           parts[2] != "*", parts[4] != "*"))
  }

  // What is wrong with the field at a place, if anything is.
  function FieldError(parts: seq<string>, i: nat): Option<CronError>
    requires i < |parts| == 5
  {
    match i
    case 0 => ErrorOf(FieldSet(parts[0], 0, 59, "minute"))
    case 1 => ErrorOf(FieldSet(parts[1], 0, 23, "hour"))
    case 2 => ErrorOf(FieldSet(parts[2], 1, 31, "day of month"))
    case 3 => ErrorOf(FieldSet(MonthSpec(parts[3]), 1, 12, "month"))
    case _ => ErrorOf(FieldSet(DowSpec(parts[4]), 0, 7, "day of week"))
  }

  function ErrorOf<T>(r: Result<T, CronError>): Option<CronError> {
    match r
    case Ok(_) => None
    case Err(e) => Some(e)
  }

  // An expression is refused when it has not five words, and otherwise for the
  // first field with something wrong.
  lemma {:induction false} ParsedError(expr: string)
    ensures var ws := Words(expr);
            match Parsed(expr)
            case Ok(_) => |ws| == 5 && forall i :: 0 <= i < 5 ==> FieldError(ws, i).None?
            case Err(e) =>
              if |ws| != 5 then e == WrongFieldCount(|ws|)
              else exists i :: 0 <= i < 5 && FieldError(ws, i) == Some(e) && forall k :: 0 <= k < i ==> FieldError(ws, k).None?
  {
    hide FieldSet, Words, MonthSpec, DowSpec, Sundays;
    var ws := Words(expr);
    if |ws| == 5 {
      var e0, e1, e2, e3, e4 := FieldError(ws, 0), FieldError(ws, 1), FieldError(ws, 2), FieldError(ws, 3), FieldError(ws, 4);
      assert forall i :: 0 <= i < 5 ==> FieldError(ws, i) == [e0, e1, e2, e3, e4][i];
    }
  }

  // No part of a field overflows.
  predicate NoOverflowIn(spec: string, min: nat, max: nat, name: string)
    requires min <= max < 100
  {
    var ps := ParseParts(Split(spec, ','), min, max, name);
    ps.Ok? && NoOverflow(ps.value)
  }

  // A schedule that parses can be searched: every field has a value and stays
  // below its upper bound, and weekdays are 0 to 6. Days and months are not 0
  // when no part of their fields overflows.
  lemma {:induction false} ParsedWellFormed(expr: string)
    requires Parsed(expr).Ok?
    ensures Parsed(expr).value.WellFormed()
    ensures |Words(expr)| == 5
    ensures NoOverflowIn(Words(expr)[2], 1, 31, "day of month") ==> 0 !in Parsed(expr).value.dom
    ensures NoOverflowIn(MonthSpec(Words(expr)[3]), 1, 12, "month") ==> 0 !in Parsed(expr).value.month
  {
    hide FieldSet, DowSet, Words, MonthSpec, NoOverflowIn, Parsed;
    var parts := Words(expr);
    FieldsOf(expr);
    FieldBounded(parts[0], 0, 59, "minute");
    FieldBounded(parts[1], 0, 23, "hour");
    FieldBounded(parts[2], 1, 31, "day of month");
    FieldAbove(parts[2], 1, 31, "day of month");
    FieldBounded(MonthSpec(parts[3]), 1, 12, "month");
    FieldAbove(MonthSpec(parts[3]), 1, 12, "month");
    DowWithin(parts[4]);
  }

  lemma FieldsOf(expr: string)
    requires Parsed(expr).Ok?
    ensures var parts, f := Words(expr), Parsed(expr).value;
            && |parts| == 5
            && FieldSet(parts[0], 0, 59, "minute") == Ok(f.minute)
            && FieldSet(parts[1], 0, 23, "hour") == Ok(f.hour)
            && FieldSet(parts[2], 1, 31, "day of month") == Ok(f.dom)
            && FieldSet(MonthSpec(parts[3]), 1, 12, "month") == Ok(f.month)
            && DowSet(parts[4]) == Ok(f.dow)
  {
    hide FieldSet, DowSet, Words, MonthSpec;
  }

  lemma StarsOf(expr: string)
    requires Parsed(expr).Ok?
    ensures var parts, f := Words(expr), Parsed(expr).value;
            |parts| == 5 && (f.domRestricted <==> parts[2] != "*") && (f.dowRestricted <==> parts[4] != "*")
  {
    hide FieldSet, DowSet, Words, MonthSpec;
  }

  lemma DowWithin(spec: string)
    ensures DowSet(spec).Ok? ==> DowSet(spec).value != {} && forall x :: x in DowSet(spec).value ==> x <= 6
  {
    hide FieldSet, DowSet;
    if DowSet(spec).Ok? {
      DowMeaning(spec);
    }
  }

  lemma FieldAbove(spec: string, min: nat, max: nat, name: string)
    requires min <= max < 100
    ensures var r := FieldSet(spec, min, max, name);
            r.Ok? && NoOverflowIn(spec, min, max, name) ==> forall x :: x in r.value ==> min <= x
  {
    hide FieldSet, NoOverflow, OnStep, ParseParts, Split;
    if FieldSet(spec, min, max, name).Ok? {
      FieldMeaning(spec, min, max, name);
    }
  }

  method Parse(expr: string) returns (r: Result<Fields, CronError>)
    ensures r == Parsed(expr)
    ensures r.Ok? ==> r.value.WellFormed()
  {
    hide FieldSet, DowSet, MonthSet, Words, Fields.WellFormed;
    if Parsed(expr).Ok? {
      ParsedWellFormed(expr);
    }
    var parts := Words(expr);
    if |parts| != 5 {
      return Err(WrongFieldCount(|parts|));
    }
    var minute := Field(parts[0], 0, 59, "minute");
    if minute.Err? {
      return Err(minute.error);
    }
    var hour := Field(parts[1], 0, 23, "hour");
    if hour.Err? {
      return Err(hour.error);
    }
    var dom := Field(parts[2], 1, 31, "day of month");
    if dom.Err? {
      return Err(dom.error);
    }
    var month := MonthField(parts[3]);
    if month.Err? {
      return Err(month.error);
    }
    var dow := DowField(parts[4]);
    if dow.Err? {
      return Err(dow.error);
    }
    return Ok(Fields(minute.value, hour.value, dom.value, month.value, dow.value,
                     parts[2] != "*", parts[4] != "*"));
  }
}
