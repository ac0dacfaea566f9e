// Sunday, which a schedule may write 0 or 7.

module Weekdays {
  import opened Wrappers
  import opened Division
  import opened Cron
  import opened Parts

  // The weekdays one part of a list stands for.
  function DowPart(part: string): Option<set<nat>> {
    match ParsePart(part, 0, 7, "day of week")
    case Err(_) => None
    case Ok(p) => Some(Sundays(Sweep(p.low, p.high, p.step)))
  }

  lemma {:induction false} ParseSwap(parts: seq<string>, i: nat, x: string, min: nat, max: nat, name: string)
    requires min <= max < U32 && i < |parts|
    requires ParsePart(parts[i], min, max, name).Ok? && ParsePart(x, min, max, name).Ok?
    ensures match ParseParts(parts, min, max, name)
            case Err(e) => ParseParts(parts[i := x], min, max, name) == Err(e)
            case Ok(ps) => |ps| == |parts|
                           && ParseParts(parts[i := x], min, max, name) == Ok(ps[i := ParsePart(x, min, max, name).value])
    decreases |parts|
  {
    hide ParsePart;
    var last := |parts| - 1;
    SameLength(parts[..last], min, max, name);
    var next := parts[i := x];
    if i < last {
      assert next[..last] == parts[..last][i := x] && next[last] == parts[last];
      ParseSwap(parts[..last], i, x, min, max, name);
      if ParseParts(parts, min, max, name).Ok? {
        var front := ParseParts(parts[..last], min, max, name).value;
        var p, q := ParsePart(parts[last], min, max, name).value, ParsePart(x, min, max, name).value;
        assert (front + [p])[i := q] == front[i := q] + [p];
      }
    } else {
      assert next[..last] == parts[..last] && next[last] == x;
      if ParseParts(parts[..last], min, max, name).Ok? {
        var front := ParseParts(parts[..last], min, max, name).value;
        var p, q := ParsePart(parts[last], min, max, name).value, ParsePart(x, min, max, name).value;
        assert (front + [p])[i := q] == front + [q];
      }
    }
  }

  lemma SameLength(parts: seq<string>, min: nat, max: nat, name: string)
    requires min <= max < U32
    ensures ParseParts(parts, min, max, name).Ok? ==> |ParseParts(parts, min, max, name).value| == |parts|
  {
    EachPartParsed(parts, min, max, name);
  }

  lemma SweptSwap(ps: seq<Part>, i: nat, p: Part)
    requires i < |ps| && PartsOk(ps, 7) && PartsOk(ps[i := p], 7)
    requires p.high <= 7 && 1 <= p.step < U32 && p.low < U32
    requires Sundays(Sweep(ps[i].low, ps[i].high, ps[i].step)) <= Sundays(Sweep(p.low, p.high, p.step))
    ensures Sundays(SweptBy(ps, 7)) <= Sundays(SweptBy(ps[i := p], 7))
  {
    hide Sweep;
    var qs := ps[i := p];
    forall y | y in Sundays(SweptBy(ps, 7))
      ensures y in Sundays(SweptBy(qs, 7))
    {
      var d :| d in SweptBy(ps, 7) && Sunday(d) == y;
      SweptByMeaning(ps, 7, d);
      var j :| 0 <= j < |ps| && d in Sweep(ps[j].low, ps[j].high, ps[j].step);
      var e := d;
      if j == i {
        assert y in Sundays(Sweep(ps[i].low, ps[i].high, ps[i].step));
        e :| e in Sweep(p.low, p.high, p.step) && Sunday(e) == y;
      }
      assert e in Sweep(qs[j].low, qs[j].high, qs[j].step);
      SweptByMeaning(qs, 7, e);
    }
  }

  // In any list, a part can be put for another that stands for the same days.
  lemma {:induction false} SameDaysSameSet(a: string, b: string, i: nat)
    requires var pa, pb := Split(DowSpec(a), ','), Split(DowSpec(b), ',');
             && i < |pa| == |pb| && pb == pa[i := pb[i]]
             && DowPart(pa[i]).Some? && DowPart(pa[i]).value != {} && DowPart(pa[i]) == DowPart(pb[i])
    ensures DowSet(a) == DowSet(b)
  {
    hide ParseParts, ParsePart, Sweep, Split, DowSpec, SweptBy;
    var pa, pb := Split(DowSpec(a), ','), Split(DowSpec(b), ',');
    var name := "day of week";
    ParseSwap(pa, i, pb[i], 0, 7, name);
    if ParseParts(pa, 0, 7, name).Ok? {
      var ps, qs := ParseParts(pa, 0, 7, name).value, ParseParts(pb, 0, 7, name).value;
      EachPartParsed(pa, 0, 7, name);
      ParsedPartsOk(pa, 0, 7, name);
      ParsedPartsOk(pb, 0, 7, name);
      assert qs == ps[i := qs[i]] && ps == qs[i := ps[i]];
      SweptSwap(ps, i, qs[i]);
      SweptSwap(qs, i, ps[i]);
      HasDays(ps, i);
      HasDays(qs, i);
      DowSetIs(a, ps);
      DowSetIs(b, qs);
      assert Sundays(SweptBy(ps, 7)) == Sundays(SweptBy(qs, 7));
    }
  }

  lemma DowSetIs(spec: string, ps: seq<Part>)
    requires ParseParts(Split(DowSpec(spec), ','), 0, 7, "day of week") == Ok(ps)
    requires PartsOk(ps, 7) && SweptBy(ps, 7) != {}
    ensures DowSet(spec) == Ok(Sundays(SweptBy(ps, 7)))
  {
    hide ParseParts, SweptBy, Split, DowSpec;
  }

  lemma HasDays(ps: seq<Part>, i: nat)
    requires PartsOk(ps, 7) && i < |ps| && Sundays(Sweep(ps[i].low, ps[i].high, ps[i].step)) != {}
    ensures SweptBy(ps, 7) != {}
  {
    hide Sweep;
    var y :| y in Sundays(Sweep(ps[i].low, ps[i].high, ps[i].step));
    var d :| d in Sweep(ps[i].low, ps[i].high, ps[i].step) && Sunday(d) == y;
    SweptByMeaning(ps, 7, d);
  }

  // Sunday by itself, anywhere in a list, may be written 0 or 7.
  lemma {:induction false} SundayEitherWay(a: string, b: string, i: nat)
    requires var pa, pb := Split(DowSpec(a), ','), Split(DowSpec(b), ',');
             i < |pa| == |pb| && pb == pa[i := pb[i]] && pa[i] == "0" && pb[i] == "7"
    ensures DowSet(a) == DowSet(b)
  {
    hide DowPart, DowSet, Split, DowSpec;
    SundayAlone("", 1);
    assert "0" + "" == "0" && "7" + "" == "7";
    SameDaysSameSet(a, b, i);
  }

  // The sweeps that start at a Sunday.
  lemma SweepFromZero(high: nat, step: nat)
    requires high <= 7 && 1 <= step < U32
    ensures Sundays(Sweep(0, high, step)) == {0} <==> high == 0 || step >= 7 || step > high
    ensures 0 in Sundays(Sweep(0, high, step))
  {
    var days := Sweep(0, high, step);
    SweepNext(0, high, step);
    Small(step);
    assert 0 in days && Sunday(0) == 0;
    if step > high {
      SweepNext(step, high, step);
      assert days == {0};
    } else {
      SweepNext(step, high, step);
      assert step in days;
      assert Sunday(step) in Sundays(days);
      if step == 7 {
        SweepNext(14, high, step);
        assert days == {0, 7};
        assert Sundays(days) == {0};
      } else {
        assert Sunday(step) == step != 0;
      }
    }
  }

  lemma SweepFromSeven(step: nat)
    requires 1 <= step < U32
    ensures Sundays(Sweep(7, 7, step)) == {0} <==> step <= U32 - 7
    ensures 0 in Sundays(Sweep(7, 7, step))
  {
    var days := Sweep(7, 7, step);
    SweepNext(7, 7, step);
    assert 7 in days && Sunday(7) == 0;
    if step < U32 - 7 {
      Small(7 + step);
      SweepNext(7 + step, 7, step);
      assert days == {7};
      assert Sundays(days) == {0};
    } else {
      var v := 7 + step - U32;
      AddDivisor(v, U32);
      Small(v);
      SweepNext(v, 7, step);
      assert v in days && Sunday(v) in Sundays(days);
      if v == 0 {
        Small(step);
        SweepNext(step, 7, step);
        assert days == {7, 0};
        assert Sundays(days) == {0};
      }
    }
  }

  // With a step behind it, 7 is 0 exactly when the step is 1, or is at least 7
  // and does not wrap past Sunday.
  lemma {:induction false} SundayAlone(suffix: string, step: nat)
    requires StepText(suffix, step) && step < U32
    ensures DowPart("0" + suffix).Some? && DowPart("7" + suffix).Some? && DowPart("0" + suffix).value != {}
    ensures DowPart("7" + suffix) == DowPart("0" + suffix) <==> step == 1 || 7 <= step <= U32 - 7
  {
    hide ParsePart, Sweep, ParseU32;
    OneDigits();
    NumberPart("0", 0, suffix, step, 0, 7, "day of week");
    NumberPart("7", 7, suffix, step, 0, 7, "day of week");
    SweepFromZero(if step > 1 then 7 else 0, step);
    SweepFromSeven(step);
  }

  // At the front of a range, 7 is 0 exactly when the range ends at 7 and the
  // step takes it no further than Sunday.
  lemma {:induction false} SundayFirst(b: string, n: nat, suffix: string, step: nat)
    requires ParseU32(b) == Some(n) && StepText(suffix, step) && step < U32
    ensures var seven, zero := DowPart("7" + "-" + b + suffix), DowPart("0" + "-" + b + suffix);
            seven.Some? && seven == zero <==> n == 7 && 7 <= step <= U32 - 7
  {
    hide ParsePart, Sweep, ParseU32;
    OneDigits();
    RangePart("7", 7, b, n, suffix, step, 0, 7, "day of week");
    RangePart("0", 0, b, n, suffix, step, 0, 7, "day of week");
    if n == 7 {
      SweepFromZero(7, step);
      SweepFromSeven(step);
    }
  }

  // At the end of one, exactly when the range starts at 0 and the step is at
  // least 7.
  lemma {:induction false} SundayLast(a: string, m: nat, suffix: string, step: nat)
    requires ParseU32(a) == Some(m) && StepText(suffix, step) && step < U32
    ensures var seven, zero := DowPart(a + "-" + "7" + suffix), DowPart(a + "-" + "0" + suffix);
            zero.Some? && seven == zero <==> m == 0 && step >= 7
  {
    hide ParsePart, Sweep, ParseU32;
    OneDigits();
    RangePart(a, m, "7", 7, suffix, step, 0, 7, "day of week");
    RangePart(a, m, "0", 0, suffix, step, 0, 7, "day of week");
    if m == 0 {
      SweepFromZero(7, step);
      SweepFromZero(0, step);
    }
  }
}
