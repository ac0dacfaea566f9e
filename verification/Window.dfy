// Making a window of a conversation one a vendor will accept.

module Window {
  import opened Conversation

  // ── what the repair does ───────────────────────────────────────────

  function UseSet(m: Message): set<ToolUseId> {
    set id | id in UseIds(m.content)
  }

  function ResultSet(m: Message): set<ToolUseId> {
    set id | id in ResultIds(m.content)
  }

  function AllUses(ms: seq<Message>): set<ToolUseId> {
    if ms == [] then {} else UseSet(ms[0]) + AllUses(ms[1..])
  }

  function AllResults(ms: seq<Message>): set<ToolUseId> {
    if ms == [] then {} else ResultSet(ms[0]) + AllResults(ms[1..])
  }

  // A block stays when it is a result of one of the calls in `seen`, or no
  // result; or a call that is `answered`, or no call.
  function KeepResults(cs: seq<Content>, seen: set<ToolUseId>): seq<Content> {
    if cs == [] then []
    else if cs[0].ToolResult? && cs[0].id !in seen then KeepResults(cs[1..], seen)
    else [cs[0]] + KeepResults(cs[1..], seen)
  }

  function KeepCalls(cs: seq<Content>, answered: set<ToolUseId>): seq<Content> {
    if cs == [] then []
    else if cs[0].ToolUse? && cs[0].id !in answered then KeepCalls(cs[1..], answered)
    else [cs[0]] + KeepCalls(cs[1..], answered)
  }

  // A message left holding nothing goes.
  function Push(m: Message, rest: seq<Message>): seq<Message> {
    if m.content == [] then rest else [m] + rest
  }

  function Forward(ms: seq<Message>, seen: set<ToolUseId>): seq<Message> {
    if ms == [] then []
    else
      Push(Message(ms[0].role, KeepResults(ms[0].content, seen)), Forward(ms[1..], seen + UseSet(ms[0])))
  }

  function Answered(ms: seq<Message>, answered: set<ToolUseId>): seq<Message> {
    if ms == [] then []
    else Push(Message(ms[0].role, KeepCalls(ms[0].content, answered)), Answered(ms[1..], answered))
  }

  function Repaired(ms: seq<Message>): seq<Message> {
    var kept := Forward(ms, {});
    Answered(kept, AllResults(kept))
  }

  // The two passes over the window.
  method RepairWindow(messages: seq<Message>) returns (out: seq<Message>)
    ensures out == Repaired(messages)
  {
    var kept := DropOrphans(messages);
    var answered: set<ToolUseId> := {};
    var i := 0;
    while i < |kept|
      invariant i <= |kept|
      invariant answered + AllResults(kept[i..]) == AllResults(kept)
    {
      answered := answered + set id | id in ResultIds(kept[i].content);
      assert kept[i..][1..] == kept[i + 1..];
      i := i + 1;
    }
    out := DropUnanswered(kept, answered);
  }

  // The first pass, which keeps a result when the pass has met its call.
  method DropOrphans(messages: seq<Message>) returns (kept: seq<Message>)
    ensures kept == Forward(messages, {})
  {
    var seen: set<ToolUseId> := {};
    kept := [];
    var i := 0;
    while i < |messages|
      invariant i <= |messages|
      invariant kept + Forward(messages[i..], seen) == Forward(messages, {})
    {
      var m := messages[i];
      var content := KeepResults(m.content, seen);
      ghost var later := Forward(messages[i + 1..], seen + UseSet(m));
      KeepResultsKeepsCalls(m.content, seen);
      assert messages[i..][1..] == messages[i + 1..];
      if content != [] {
        assert kept + ([Message(m.role, content)] + later) == kept + [Message(m.role, content)] + later;
        kept := kept + [Message(m.role, content)];
      }
      seen := seen + set id | id in UseIds(content);
      i := i + 1;
    }
  }

  // Then: a call nobody answered goes.
  method DropUnanswered(kept: seq<Message>, answered: set<ToolUseId>) returns (out: seq<Message>)
    ensures out == Answered(kept, answered)
  {
    out := [];
    var i := 0;
    while i < |kept|
      invariant i <= |kept|
      invariant out + Answered(kept[i..], answered) == Answered(kept, answered)
    {
      var content := KeepCalls(kept[i].content, answered);
      ghost var later := Answered(kept[i + 1..], answered);
      assert kept[i..][1..] == kept[i + 1..];
      if content != [] {
        assert out + ([Message(kept[i].role, content)] + later) == out + [Message(kept[i].role, content)] + later;
        out := out + [Message(kept[i].role, content)];
      }
      i := i + 1;
    }
  }

  lemma {:induction false} KeepResultsKeepsCalls(cs: seq<Content>, seen: set<ToolUseId>)
    ensures UseIds(KeepResults(cs, seen)) == UseIds(cs)
    ensures forall id :: id in ResultIds(KeepResults(cs, seen)) <==> id in ResultIds(cs) && id in seen
  {
    if cs != [] {
      KeepResultsKeepsCalls(cs[1..], seen);
      var rest := KeepResults(cs[1..], seen);
      if !(cs[0].ToolResult? && cs[0].id !in seen) {
        assert ([cs[0]] + rest)[1..] == rest;
      }
    }
  }

  lemma {:induction false} KeepCallsKeepsResults(cs: seq<Content>, answered: set<ToolUseId>)
    ensures ResultIds(KeepCalls(cs, answered)) == ResultIds(cs)
    ensures forall id :: id in UseIds(KeepCalls(cs, answered)) <==> id in UseIds(cs) && id in answered
  {
    if cs != [] {
      KeepCallsKeepsResults(cs[1..], answered);
      var rest := KeepCalls(cs[1..], answered);
      if !(cs[0].ToolUse? && cs[0].id !in answered) {
        assert ([cs[0]] + rest)[1..] == rest;
      }
    }
  }

  // ── what makes a window legal ──────────────────────────────────────

  // No message is empty, every result answers a call of a strictly earlier
  // message, and every call is answered by some result.
  ghost predicate Legal(ms: seq<Message>) {
    && (forall i :: 0 <= i < |ms| ==> ms[i].content != [])
    && (forall i, id :: 0 <= i < |ms| && Answers(ms[i], id) ==> CalledBefore(ms, i, id))
    && (forall i, id :: 0 <= i < |ms| && Calls(ms[i], id) ==> AnsweredSomewhere(ms, id))
  }

  ghost predicate CalledBefore(ms: seq<Message>, i: nat, id: ToolUseId)
    requires i <= |ms|
  {
    exists k :: 0 <= k < i && Calls(ms[k], id)
  }

  ghost predicate AnsweredSomewhere(ms: seq<Message>, id: ToolUseId) {
    exists k :: 0 <= k < |ms| && Answers(ms[k], id)
  }

  // The same, read from the front with the calls already behind.
  ghost predicate LegalFrom(ms: seq<Message>, seen: set<ToolUseId>) {
    ms == []
    || (ms[0].content != [] && ResultSet(ms[0]) <= seen && LegalFrom(ms[1..], seen + UseSet(ms[0])))
  }

  lemma {:induction false} AllUsesMeaning(ms: seq<Message>, id: ToolUseId)
    ensures id in AllUses(ms) <==> CalledBefore(ms, |ms|, id)
  {
    if ms != [] {
      AllUsesMeaning(ms[1..], id);
      CallsMeaning(ms[0], id);
      if CalledBefore(ms, |ms|, id) && !Calls(ms[0], id) {
        var k :| 0 <= k < |ms| && Calls(ms[k], id);
        assert Calls(ms[1..][k - 1], id);
      }
      if CalledBefore(ms[1..], |ms| - 1, id) {
        var k :| 0 <= k < |ms| - 1 && Calls(ms[1..][k], id);
        assert Calls(ms[k + 1], id);
      }
    }
  }

  lemma {:induction false} AllResultsMeaning(ms: seq<Message>, id: ToolUseId)
    ensures id in AllResults(ms) <==> AnsweredSomewhere(ms, id)
  {
    if ms != [] {
      AllResultsMeaning(ms[1..], id);
      AnswersMeaning(ms[0], id);
      if AnsweredSomewhere(ms, id) && !Answers(ms[0], id) {
        var k :| 0 <= k < |ms| && Answers(ms[k], id);
        assert Answers(ms[1..][k - 1], id);
      }
      if AnsweredSomewhere(ms[1..], id) {
        var k :| 0 <= k < |ms| - 1 && Answers(ms[1..][k], id);
        assert Answers(ms[k + 1], id);
      }
    }
  }

  // The part of Legal that looks back, for a window whose earlier calls are in
  // `seen`.
  ghost predicate LooksBack(ms: seq<Message>, seen: set<ToolUseId>) {
    && (forall i :: 0 <= i < |ms| ==> ms[i].content != [])
    && (forall i, id :: 0 <= i < |ms| && Answers(ms[i], id) ==> id in seen || CalledBefore(ms, i, id))
  }

  lemma {:induction false} LegalFromMeaning(ms: seq<Message>, seen: set<ToolUseId>)
    ensures LegalFrom(ms, seen) <==> LooksBack(ms, seen)
    decreases |ms|
  {
    if ms != [] {
      LegalFromMeaning(ms[1..], seen + UseSet(ms[0]));
      if LegalFrom(ms, seen) {
        LooksBackCons(ms, seen);
      }
      if LooksBack(ms, seen) {
        LooksBackTail(ms, seen);
        forall id | id in ResultSet(ms[0])
          ensures id in seen
        {
          AnswersMeaning(ms[0], id);
          assert Answers(ms[0], id);
          assert !CalledBefore(ms, 0, id);
        }
      }
    }
  }

  lemma LooksBackCons(ms: seq<Message>, seen: set<ToolUseId>)
    requires ms != [] && ms[0].content != [] && ResultSet(ms[0]) <= seen
    requires LooksBack(ms[1..], seen + UseSet(ms[0]))
    ensures LooksBack(ms, seen)
  {
    var rest, seen' := ms[1..], seen + UseSet(ms[0]);
    forall i | 0 <= i < |ms|
      ensures ms[i].content != []
    {
      assert i > 0 ==> ms[i] == rest[i - 1];
    }
    forall i, id | 0 <= i < |ms| && Answers(ms[i], id)
      ensures id in seen || CalledBefore(ms, i, id)
    {
      AnswersMeaning(ms[0], id);
      CallsMeaning(ms[0], id);
      if i > 0 {
        assert Answers(rest[i - 1], id);
        if id in UseSet(ms[0]) {
          assert Calls(ms[0], id);
        } else if id !in seen {
          assert CalledBefore(rest, i - 1, id);
          var k :| 0 <= k < i - 1 && Calls(rest[k], id);
          assert Calls(ms[k + 1], id);
        }
      }
    }
  }

  lemma LooksBackTail(ms: seq<Message>, seen: set<ToolUseId>)
    requires ms != [] && LooksBack(ms, seen)
    ensures LooksBack(ms[1..], seen + UseSet(ms[0]))
  {
    var rest, seen' := ms[1..], seen + UseSet(ms[0]);
    forall i | 0 <= i < |rest|
      ensures rest[i].content != []
    {
      assert rest[i] == ms[i + 1];
    }
    forall i, id | 0 <= i < |rest| && Answers(rest[i], id)
      ensures id in seen' || CalledBefore(rest, i, id)
    {
      assert Answers(ms[i + 1], id);
      CallsMeaning(ms[0], id);
      if id !in seen' {
        var k :| 0 <= k < i + 1 && Calls(ms[k], id);
        assert Calls(rest[k - 1], id);
      }
    }
  }

  lemma {:induction false} LegalMeaning(ms: seq<Message>)
    ensures Legal(ms) <==> LegalFrom(ms, {}) && AllUses(ms) <= AllResults(ms)
  {
    LegalFromMeaning(ms, {});
    if Legal(ms) {
      forall id | id in AllUses(ms)
        ensures id in AllResults(ms)
      {
        AllUsesMeaning(ms, id);
        AllResultsMeaning(ms, id);
        var k :| 0 <= k < |ms| && Calls(ms[k], id);
      }
    }
    if LegalFrom(ms, {}) && AllUses(ms) <= AllResults(ms) {
      forall i, id | 0 <= i < |ms| && Calls(ms[i], id)
        ensures AnsweredSomewhere(ms, id)
      {
        assert CalledBefore(ms, |ms|, id);
        AllUsesMeaning(ms, id);
        AllResultsMeaning(ms, id);
      }
    }
  }

  // ── parts of a window ──────────────────────────────────────────────

  // Some of the blocks, in their order.
  ghost predicate SomeBlocks(a: seq<Content>, b: seq<Content>)
    decreases |b|
  {
    if b == [] then a == []
    else SomeBlocks(a, b[1..]) || (a != [] && a[0] == b[0] && SomeBlocks(a[1..], b[1..]))
  }

  // A window made from another by leaving out blocks and whole messages.
  ghost predicate PartOf(w: seq<Message>, ms: seq<Message>)
    decreases |ms|
  {
    if ms == [] then w == []
    else
      || PartOf(w, ms[1..])
      || (w != [] && w[0].role == ms[0].role && SomeBlocks(w[0].content, ms[0].content)
          && PartOf(w[1..], ms[1..]))
  }

  lemma {:induction false} SomeBlocksIds(a: seq<Content>, b: seq<Content>, id: ToolUseId)
    requires SomeBlocks(a, b)
    ensures id in UseIds(a) ==> id in UseIds(b)
    ensures id in ResultIds(a) ==> id in ResultIds(b)
    decreases |b|
  {
    if b != [] {
      if SomeBlocks(a, b[1..]) {
        SomeBlocksIds(a, b[1..], id);
      } else {
        SomeBlocksIds(a[1..], b[1..], id);
      }
    }
  }

  lemma SomeBlocksSets(a: Message, b: Message)
    requires SomeBlocks(a.content, b.content)
    ensures UseSet(a) <= UseSet(b) && ResultSet(a) <= ResultSet(b)
  {
    forall id | id in UseSet(a)
      ensures id in UseSet(b)
    {
      SomeBlocksIds(a.content, b.content, id);
    }
    forall id | id in ResultSet(a)
      ensures id in ResultSet(b)
    {
      SomeBlocksIds(a.content, b.content, id);
    }
  }

  lemma {:induction false} KeepResultsIsSome(cs: seq<Content>, seen: set<ToolUseId>)
    ensures SomeBlocks(KeepResults(cs, seen), cs)
  {
    if cs != [] {
      KeepResultsIsSome(cs[1..], seen);
      var kept := KeepResults(cs, seen);
      assert (cs[0].ToolResult? && cs[0].id !in seen) || kept[1..] == KeepResults(cs[1..], seen);
    }
  }

  lemma {:induction false} KeepCallsIsSome(cs: seq<Content>, answered: set<ToolUseId>)
    ensures SomeBlocks(KeepCalls(cs, answered), cs)
  {
    if cs != [] {
      KeepCallsIsSome(cs[1..], answered);
      var kept := KeepCalls(cs, answered);
      assert (cs[0].ToolUse? && cs[0].id !in answered) || kept[1..] == KeepCalls(cs[1..], answered);
    }
  }

  // Blocks whose results are all in `seen` survive the filter on results.
  lemma {:induction false} KeepResultsGreatest(a: seq<Content>, cs: seq<Content>, seen: set<ToolUseId>)
    requires SomeBlocks(a, cs)
    requires forall id :: id in ResultIds(a) ==> id in seen
    ensures SomeBlocks(a, KeepResults(cs, seen))
    decreases |cs|
  {
    if cs != [] {
      var rest := KeepResults(cs[1..], seen);
      assert ([cs[0]] + rest)[1..] == rest;
      if SomeBlocks(a, cs[1..]) {
        KeepResultsGreatest(a, cs[1..], seen);
      } else {
        KeepResultsGreatest(a[1..], cs[1..], seen);
      }
    }
  }

  lemma {:induction false} KeepCallsGreatest(a: seq<Content>, cs: seq<Content>, answered: set<ToolUseId>)
    requires SomeBlocks(a, cs)
    requires forall id :: id in UseIds(a) ==> id in answered
    ensures SomeBlocks(a, KeepCalls(cs, answered))
    decreases |cs|
  {
    if cs != [] {
      var rest := KeepCalls(cs[1..], answered);
      assert ([cs[0]] + rest)[1..] == rest;
      if SomeBlocks(a, cs[1..]) {
        KeepCallsGreatest(a, cs[1..], answered);
      } else {
        KeepCallsGreatest(a[1..], cs[1..], answered);
      }
    }
  }

  // ── the repair is the greatest legal part ──────────────────────────

  lemma {:induction false} ForwardGreatest(w: seq<Message>, ms: seq<Message>, inW: set<ToolUseId>, seen: set<ToolUseId>)
    requires PartOf(w, ms) && LegalFrom(w, inW) && inW <= seen
    ensures PartOf(w, Forward(ms, seen))
    decreases |ms|
  {
    if ms != [] {
      var m := Message(ms[0].role, KeepResults(ms[0].content, seen));
      var rest := Forward(ms[1..], seen + UseSet(ms[0]));
      if PartOf(w, ms[1..]) {
        ForwardGreatest(w, ms[1..], inW, seen + UseSet(ms[0]));
        PartOfMore(w, m, rest);
      } else {
        SomeBlocksSets(w[0], ms[0]);
        ForwardGreatest(w[1..], ms[1..], inW + UseSet(w[0]), seen + UseSet(ms[0]));
        KeepResultsGreatest(w[0].content, ms[0].content, seen);
        PartOfBoth(w, m, rest);
      }
    }
  }

  lemma PartOfMore(w: seq<Message>, m: Message, rest: seq<Message>)
    requires PartOf(w, rest)
    ensures PartOf(w, Push(m, rest))
  {
    if m.content != [] {
      assert ([m] + rest)[1..] == rest;
    }
  }

  lemma PartOfBoth(w: seq<Message>, m: Message, rest: seq<Message>)
    requires w != [] && w[0].content != [] && w[0].role == m.role
    requires SomeBlocks(w[0].content, m.content) && PartOf(w[1..], rest)
    ensures PartOf(w, Push(m, rest))
  {
    assert ([m] + rest)[1..] == rest;
  }

  lemma {:induction false} AnsweredGreatest(w: seq<Message>, ms: seq<Message>, answered: set<ToolUseId>)
    requires PartOf(w, ms) && AllUses(w) <= answered
    requires forall i :: 0 <= i < |w| ==> w[i].content != []
    ensures PartOf(w, Answered(ms, answered))
    decreases |ms|
  {
    if ms != [] {
      var m := Message(ms[0].role, KeepCalls(ms[0].content, answered));
      var rest := Answered(ms[1..], answered);
      if PartOf(w, ms[1..]) {
        AnsweredGreatest(w, ms[1..], answered);
        PartOfMore(w, m, rest);
      } else {
        AnsweredGreatest(w[1..], ms[1..], answered);
        KeepCallsGreatest(w[0].content, ms[0].content, answered);
        PartOfBoth(w, m, rest);
      }
    }
  }

  lemma {:induction false} PartOfResults(w: seq<Message>, ms: seq<Message>)
    requires PartOf(w, ms)
    ensures AllResults(w) <= AllResults(ms)
    decreases |ms|
  {
    if ms != [] {
      if PartOf(w, ms[1..]) {
        PartOfResults(w, ms[1..]);
      } else {
        PartOfResults(w[1..], ms[1..]);
        SomeBlocksSets(w[0], ms[0]);
      }
    }
  }

  // Whatever legal window can be made from these messages, it is part of the
  // repaired one.
  lemma {:induction false} RepairGreatest(w: seq<Message>, ms: seq<Message>)
    requires PartOf(w, ms) && Legal(w)
    ensures PartOf(w, Repaired(ms))
  {
    LegalMeaning(w);
    ForwardGreatest(w, ms, {}, {});
    var kept := Forward(ms, {});
    PartOfResults(w, kept);
    AnsweredGreatest(w, kept, AllResults(kept));
  }

  lemma {:induction false} ForwardLegal(ms: seq<Message>, seen: set<ToolUseId>)
    ensures LegalFrom(Forward(ms, seen), seen)
    ensures PartOf(Forward(ms, seen), ms)
    decreases |ms|
  {
    if ms != [] {
      var m := Message(ms[0].role, KeepResults(ms[0].content, seen));
      var rest := Forward(ms[1..], seen + UseSet(ms[0]));
      ForwardLegal(ms[1..], seen + UseSet(ms[0]));
      KeepResultsKeepsCalls(ms[0].content, seen);
      KeepResultsIsSome(ms[0].content, seen);
      assert UseSet(m) == UseSet(ms[0]);
      if m.content == [] {
        assert UseSet(m) == {};
        assert seen + UseSet(ms[0]) == seen;
        assert Forward(ms, seen) == rest;
      } else {
        assert Forward(ms, seen)[1..] == rest;
      }
    }
  }

  // Dropping calls nobody answered leaves every result with its call.
  lemma {:induction false} AnsweredLegal(ms: seq<Message>, answered: set<ToolUseId>, seen: set<ToolUseId>, left: set<ToolUseId>)
    requires LegalFrom(ms, seen) && AllResults(ms) <= answered && seen * answered <= left
    ensures LegalFrom(Answered(ms, answered), left)
    ensures AllResults(Answered(ms, answered)) == AllResults(ms)
    ensures AllUses(Answered(ms, answered)) <= answered
    ensures PartOf(Answered(ms, answered), ms)
    decreases |ms|
  {
    if ms != [] {
      var m := Message(ms[0].role, KeepCalls(ms[0].content, answered));
      var rest := Answered(ms[1..], answered);
      KeepCallsKeepsResults(ms[0].content, answered);
      KeepCallsIsSome(ms[0].content, answered);
      assert UseSet(m) == UseSet(ms[0]) * answered;
      assert ResultSet(m) == ResultSet(ms[0]);
      AnsweredLegal(ms[1..], answered, seen + UseSet(ms[0]), left + UseSet(m));
      if m.content == [] {
        assert UseSet(m) == {} && ResultSet(m) == {};
        assert left + UseSet(m) == left;
        assert Answered(ms, answered) == rest;
      } else {
        assert Answered(ms, answered)[1..] == rest;
      }
    }
  }

  lemma {:induction false} PartOfTrans(a: seq<Message>, b: seq<Message>, d: seq<Message>)
    requires PartOf(a, b) && PartOf(b, d)
    ensures PartOf(a, d)
    decreases |d|
  {
    if d != [] {
      if PartOf(b, d[1..]) {
        PartOfTrans(a, b, d[1..]);
      } else if PartOf(a, b[1..]) {
        PartOfTrans(a, b[1..], d[1..]);
      } else {
        PartOfTrans(a[1..], b[1..], d[1..]);
        SomeBlocksTrans(a[0].content, b[0].content, d[0].content);
      }
    }
  }

  lemma {:induction false} SomeBlocksTrans(a: seq<Content>, b: seq<Content>, d: seq<Content>)
    requires SomeBlocks(a, b) && SomeBlocks(b, d)
    ensures SomeBlocks(a, d)
    decreases |d|
  {
    if d != [] {
      if SomeBlocks(b, d[1..]) {
        SomeBlocksTrans(a, b, d[1..]);
      } else if SomeBlocks(a, b[1..]) {
        SomeBlocksTrans(a, b[1..], d[1..]);
      } else {
        SomeBlocksTrans(a[1..], b[1..], d[1..]);
      }
    }
  }

  // The repaired window is legal, and made of the given messages only.
  lemma {:induction false} RepairLegal(ms: seq<Message>)
    ensures Legal(Repaired(ms)) && PartOf(Repaired(ms), ms)
  {
    ForwardLegal(ms, {});
    var kept := Forward(ms, {});
    AnsweredLegal(kept, AllResults(kept), {}, {});
    LegalMeaning(Repaired(ms));
    PartOfTrans(Repaired(ms), kept, ms);
  }

  lemma {:induction false} PartOfAntisymmetric(a: seq<Message>, b: seq<Message>)
    requires PartOf(a, b) && PartOf(b, a)
    ensures a == b
    decreases |b|
  {
    PartOfShorter(a, b);
    PartOfShorter(b, a);
    if b != [] {
      if PartOf(a, b[1..]) {
        PartOfShorter(a, b[1..]);
      } else if PartOf(b, a[1..]) {
        PartOfShorter(b, a[1..]);
      }
      PartOfAntisymmetric(a[1..], b[1..]);
      SomeBlocksAntisymmetric(a[0].content, b[0].content);
    }
  }

  lemma {:induction false} PartOfShorter(a: seq<Message>, b: seq<Message>)
    requires PartOf(a, b)
    ensures |a| <= |b|
    decreases |b|
  {
    if b != [] {
      if PartOf(a, b[1..]) {
        PartOfShorter(a, b[1..]);
      } else {
        PartOfShorter(a[1..], b[1..]);
      }
    }
  }

  lemma {:induction false} SomeBlocksAntisymmetric(a: seq<Content>, b: seq<Content>)
    requires SomeBlocks(a, b) && SomeBlocks(b, a)
    ensures a == b
    decreases |b|
  {
    SomeBlocksShorter(a, b);
    SomeBlocksShorter(b, a);
    if b != [] {
      if SomeBlocks(a, b[1..]) {
        SomeBlocksShorter(a, b[1..]);
      } else if SomeBlocks(b, a[1..]) {
        SomeBlocksShorter(b, a[1..]);
      }
      SomeBlocksAntisymmetric(a[1..], b[1..]);
    }
  }

  lemma {:induction false} SomeBlocksShorter(a: seq<Content>, b: seq<Content>)
    requires SomeBlocks(a, b)
    ensures |a| <= |b|
    decreases |b|
  {
    if b != [] {
      if SomeBlocks(a, b[1..]) {
        SomeBlocksShorter(a, b[1..]);
      } else {
        SomeBlocksShorter(a[1..], b[1..]);
      }
    }
  }

  lemma {:induction false} PartOfItself(ms: seq<Message>)
    ensures PartOf(ms, ms)
    decreases |ms|
  {
    if ms != [] {
      PartOfItself(ms[1..]);
      SomeBlocksItself(ms[0].content);
    }
  }

  lemma {:induction false} SomeBlocksItself(cs: seq<Content>)
    ensures SomeBlocks(cs, cs)
    decreases |cs|
  {
    if cs != [] {
      SomeBlocksItself(cs[1..]);
    }
  }

  // A window that is legal comes back as it is, so the windows the repair
  // leaves alone are the legal ones.
  lemma {:induction false} RepairFixed(ms: seq<Message>)
    ensures Repaired(ms) == ms <==> Legal(ms)
  {
    RepairLegal(ms);
    if Legal(ms) {
      PartOfItself(ms);
      RepairGreatest(ms, ms);
      PartOfAntisymmetric(Repaired(ms), ms);
    }
  }

  // A second pass changes nothing.
  lemma {:induction false} RepairTwice(ms: seq<Message>)
    ensures Repaired(Repaired(ms)) == Repaired(ms)
  {
    RepairLegal(ms);
    RepairFixed(Repaired(ms));
  }

  // ── answers that come later ────────────────────────────────────────

  // Every call has an answer in a later message.
  ghost predicate AnsweredLater(ms: seq<Message>) {
    forall i, id :: 0 <= i < |ms| && Calls(ms[i], id) ==> AnswerAfter(ms, i, id)
  }

  ghost predicate AnswerAfter(ms: seq<Message>, i: int, id: ToolUseId) {
    exists k :: i < k < |ms| && 0 <= k && Answers(ms[k], id)
  }

  // Some call of an id is answered later, and some is not.
  ghost predicate OnceAnswered(ms: seq<Message>, id: ToolUseId) {
    exists i :: 0 <= i < |ms| && Calls(ms[i], id) && AnswerAfter(ms, i, id)
  }

  ghost predicate LeftOpen(ms: seq<Message>, id: ToolUseId) {
    exists i :: 0 <= i < |ms| && Calls(ms[i], id) && !AnswerAfter(ms, i, id)
  }

  // The same two, in one walk over the messages, with the id called before
  // them or open before them.
  ghost predicate WalkAnswered(ms: seq<Message>, id: ToolUseId, called: bool) {
    ms != []
    && ((called && id in ResultSet(ms[0])) || WalkAnswered(ms[1..], id, called || id in UseSet(ms[0])))
  }

  ghost predicate WalkOpen(ms: seq<Message>, id: ToolUseId, open: bool) {
    if ms == [] then open
    else WalkOpen(ms[1..], id, id in UseSet(ms[0]) || (open && id !in ResultSet(ms[0])))
  }

  lemma {:induction false} WalkAnsweredMeaning(ms: seq<Message>, id: ToolUseId, called: bool)
    ensures WalkAnswered(ms, id, called) <==> OnceAnswered(ms, id) || (called && AnswerAfter(ms, -1, id))
    decreases |ms|
  {
    if ms != [] {
      var rest := ms[1..];
      WalkAnsweredMeaning(rest, id, called || id in UseSet(ms[0]));
      CallsMeaning(ms[0], id);
      AnswersMeaning(ms[0], id);
      AfterInRest(ms, id);
      hide Calls, Answers, WalkAnswered;
      OnceInRest(ms, id);
    }
  }

  // Looking on from a message, in a window and in the window after its first.
  lemma AfterInRest(ms: seq<Message>, id: ToolUseId)
    requires ms != []
    ensures forall i :: 0 <= i < |ms| - 1 ==> (AnswerAfter(ms[1..], i, id) <==> AnswerAfter(ms, i + 1, id))
    ensures AnswerAfter(ms[1..], -1, id) <==> AnswerAfter(ms, 0, id)
    ensures AnswerAfter(ms, -1, id) <==> Answers(ms[0], id) || AnswerAfter(ms, 0, id)
  {
    hide Answers;
    var rest := ms[1..];
    forall i | -1 <= i < |rest|
      ensures AnswerAfter(rest, i, id) <==> AnswerAfter(ms, i + 1, id)
    {
      if AnswerAfter(rest, i, id) {
        var k :| i < k < |rest| && 0 <= k && Answers(rest[k], id);
        assert Answers(ms[k + 1], id);
      }
      if AnswerAfter(ms, i + 1, id) {
        var k :| i + 1 < k < |ms| && 0 <= k && Answers(ms[k], id);
        assert Answers(rest[k - 1], id);
      }
    }
  }

  lemma OnceInRest(ms: seq<Message>, id: ToolUseId)
    requires ms != []
    requires forall i :: 0 <= i < |ms| - 1 ==> (AnswerAfter(ms[1..], i, id) <==> AnswerAfter(ms, i + 1, id))
    ensures OnceAnswered(ms, id) <==> OnceAnswered(ms[1..], id) || (Calls(ms[0], id) && AnswerAfter(ms, 0, id))
    ensures LeftOpen(ms, id) <==> LeftOpen(ms[1..], id) || (Calls(ms[0], id) && !AnswerAfter(ms, 0, id))
  {
    hide Calls, AnswerAfter;
    var rest := ms[1..];
    forall i | 0 <= i < |rest|
      ensures Calls(rest[i], id) == Calls(ms[i + 1], id)
    {
    }
    if i :| 0 <= i < |ms| && Calls(ms[i], id) && AnswerAfter(ms, i, id) {
      assert i == 0 || Calls(rest[i - 1], id);
    }
    if i :| 0 <= i < |ms| && Calls(ms[i], id) && !AnswerAfter(ms, i, id) {
      assert i == 0 || Calls(rest[i - 1], id);
    }
  }

  lemma {:induction false} WalkOpenMeaning(ms: seq<Message>, id: ToolUseId, open: bool)
    ensures WalkOpen(ms, id, open) <==> LeftOpen(ms, id) || (open && !AnswerAfter(ms, -1, id))
    decreases |ms|
  {
    if ms != [] {
      var rest := ms[1..];
      WalkOpenMeaning(rest, id, id in UseSet(ms[0]) || (open && id !in ResultSet(ms[0])));
      CallsMeaning(ms[0], id);
      AnswersMeaning(ms[0], id);
      AfterInRest(ms, id);
      hide Calls, Answers;
      OnceInRest(ms, id);
    }
  }

  // The first pass keeps what is open, and keeps a result of an id exactly when
  // a call of it was met before.
  lemma {:induction false} ForwardWalks(ms: seq<Message>, seen: set<ToolUseId>, id: ToolUseId, open: bool)
    requires open ==> id in seen
    ensures WalkOpen(Forward(ms, seen), id, open) == WalkOpen(ms, id, open)
    ensures id in AllResults(Forward(ms, seen)) <==> WalkAnswered(ms, id, id in seen)
    decreases |ms|
  {
    if ms != [] {
      var m := Message(ms[0].role, KeepResults(ms[0].content, seen));
      var rest := Forward(ms[1..], seen + UseSet(ms[0]));
      var later := id in UseSet(ms[0]) || (open && id !in ResultSet(ms[0]));
      KeepResultsKeepsCalls(ms[0].content, seen);
      ForwardWalks(ms[1..], seen + UseSet(ms[0]), id, later);
      assert UseSet(m) == UseSet(ms[0]);
      assert id in ResultSet(m) <==> id in ResultSet(ms[0]) && id in seen;
      PushWalks(m, rest, id, open);
    }
  }

  lemma PushWalks(m: Message, rest: seq<Message>, id: ToolUseId, open: bool)
    ensures WalkOpen(Push(m, rest), id, open)
            == WalkOpen(rest, id, id in UseSet(m) || (open && id !in ResultSet(m)))
    ensures AllResults(Push(m, rest)) == ResultSet(m) + AllResults(rest)
  {
    if m.content == [] {
      assert UseSet(m) == {} && ResultSet(m) == {};
    } else {
      assert ([m] + rest)[1..] == rest;
    }
  }

  // The second leaves nothing open of an id that has no result.
  lemma {:induction false} AnsweredWalks(ms: seq<Message>, answered: set<ToolUseId>, id: ToolUseId, open: bool)
    requires open ==> id in answered
    ensures WalkOpen(Answered(ms, answered), id, open) <==> id in answered && WalkOpen(ms, id, open)
    decreases |ms|
  {
    if ms != [] {
      var m := Message(ms[0].role, KeepCalls(ms[0].content, answered));
      var rest := Answered(ms[1..], answered);
      KeepCallsKeepsResults(ms[0].content, answered);
      assert ResultSet(m) == ResultSet(ms[0]);
      assert id in UseSet(m) <==> id in UseSet(ms[0]) && id in answered;
      PushWalks(m, rest, id, open);
      var kept := id in UseSet(m) || (open && id !in ResultSet(m));
      AnsweredWalks(ms[1..], answered, id, kept);
      if id !in answered {
        assert !kept;
      }
    }
  }

  lemma RepairedOpen(ms: seq<Message>, id: ToolUseId)
    ensures LeftOpen(Repaired(ms), id) <==> OnceAnswered(ms, id) && LeftOpen(ms, id)
  {
    var kept := Forward(ms, {});
    ForwardWalks(ms, {}, id, false);
    AnsweredWalks(kept, AllResults(kept), id, false);
    WalkOpenMeaning(Repaired(ms), id, false);
    WalkOpenMeaning(ms, id, false);
    WalkAnsweredMeaning(ms, id, false);
  }

  // After the repair every call has its answer in a later message if and only
  // if no id has both a call that is answered later and one that is not.
  lemma {:induction false} AnsweredLaterExactly(ms: seq<Message>)
    ensures AnsweredLater(Repaired(ms)) <==> forall id :: !(OnceAnswered(ms, id) && LeftOpen(ms, id))
  {
    var out := Repaired(ms);
    hide Repaired, Calls, AnswerAfter;
    if AnsweredLater(out) {
      forall id
        ensures !(OnceAnswered(ms, id) && LeftOpen(ms, id))
      {
        RepairedOpen(ms, id);
      }
    }
    if forall id :: !(OnceAnswered(ms, id) && LeftOpen(ms, id)) {
      forall i, id | 0 <= i < |out| && Calls(out[i], id)
        ensures AnswerAfter(out, i, id)
      {
        RepairedOpen(ms, id);
      }
    }
  }

  ghost predicate DistinctCalls(ms: seq<Message>) {
    forall i, k, id :: 0 <= i < |ms| && 0 <= k < |ms| && Calls(ms[i], id) && Calls(ms[k], id) ==> i == k
  }

  // So it is when no id is called by two messages.
  lemma {:induction false} DistinctAnsweredLater(ms: seq<Message>)
    requires DistinctCalls(ms)
    ensures AnsweredLater(Repaired(ms))
  {
    hide Calls, AnswerAfter, Repaired;
    forall id
      ensures !(OnceAnswered(ms, id) && LeftOpen(ms, id))
    {
    }
    AnsweredLaterExactly(ms);
  }

  // When an id has both, a call is kept for the sake of an answer to an earlier
  // call with its id.
  lemma {:induction false} LateCallKept(id: ToolUseId, name: string, input: string, result: string)
    ensures var ask := Message(Assistant, [ToolUse(id, name, input)]);
            var ms := [ask, Message(User, [ToolResult(id, result, false)]), ask];
            Legal(ms) && Repaired(ms) == ms && forall k :: 2 < k < |ms| ==> !Answers(ms[k], id)
  {
    var ask := Message(Assistant, [ToolUse(id, name, input)]);
    var say := Message(User, [ToolResult(id, result, false)]);
    var ms := [ask, say, ask];
    assert say.content[0].ToolResult? && ask.content[0].ToolUse?;
    assert Calls(ms[0], id) && Answers(ms[1], id);
    forall i, x | 0 <= i < |ms| && Answers(ms[i], x)
      ensures CalledBefore(ms, i, x)
    {
      assert x == id && i == 1;
    }
    forall i, x | 0 <= i < |ms| && Calls(ms[i], x)
      ensures AnsweredSomewhere(ms, x)
    {
      assert x == id;
    }
    RepairFixed(ms);
  }
}
