// A Bot's conversation on disk: runs are seeded from its tail and appended to
// its end.

module Thread {
  import opened Wrappers
  import opened Lines
  import opened Tail
  import opened Codec
  import opened Conversation
  import opened Compaction
  import opened Pairing
  import opened Turns
  import opened Endings
  import opened Agent
  import Window
  import TornLog

  // ── a log of runs ──────────────────────────────────────────────────

  // What of these messages is appended: not a task restated right after
  // itself.
  function Fresh(log: seq<Message>, ms: seq<Message>): seq<Message> {
    if ms == [] then []
    else
      var last := Window.Repaired(Lines.Last(log, 1));
      if last != [] && last[0].role == User && last[0] == ms[0] then ms[1..] else ms
  }

  // The messages of a log that any tail of it is made into: a result cut off
  // from its call goes, a call that was never answered goes, and so does a
  // message with nothing left in it.
  ghost function Mended(t: seq<Message>, atCut: bool): seq<Message> {
    if t == [] then []
    else if ResultIds(t[0].content) != [] then
      (if atCut then Mended(t[1..], false) else [t[0]] + Mended(t[1..], false))
    else if |t| > 1 && IsAnswer(t[0], t[1]) then [t[0]] + Mended(t[1..], false)
    else Window.Push(Message(t[0].role, NoCalls(t[0].content)), Mended(t[1..], false))
  }

  function NoCalls(cs: seq<Content>): seq<Content> {
    Window.KeepCalls(cs, {})
  }

  // A tail of a paired log is paired but for its first message.
  ghost predicate PairedAfterFirst(t: seq<Message>) {
    && (forall i :: 1 <= i < |t| && ResultIds(t[i].content) != [] ==> IsAnswer(t[i - 1], t[i]))
    && (forall i :: 0 <= i < |t| && ResultIds(t[i].content) != [] ==> OnlyResults(t[i]))
  }

  ghost predicate OnlyResults(m: Message) {
    UseIds(m.content) == [] && forall j :: 0 <= j < |m.content| ==> m.content[j].ToolResult?
  }

  lemma {:induction false} AppendKeepsPaired(log: seq<Message>, ms: seq<Message>)
    requires Paired(log) && Paired(ms)
    ensures Paired(log + Fresh(log, ms))
  {
    hide IsAnswer, Window.Repaired;
    var more := Fresh(log, ms);
    if |more| < |ms| {
      LastIsNoCall(log, ms[0]);
    }
    var all, at := log + more, |ms| - |more|;
    forall i | 0 <= i < |all| && ResultIds(all[i].content) != []
      ensures i > 0 && IsAnswer(all[i - 1], all[i])
    {
      if i < |log| {
        assert all[i] == log[i] && IsAnswer(log[i - 1], log[i]);
      } else {
        var j := i - |log| + at;
        assert all[i] == ms[j] && IsAnswer(ms[j - 1], ms[j]);
        if j == 1 && at == 1 {
          NoCallNoAnswer(ms[0], ms[1]);
        }
      }
    }
  }

  // The text blocks of a message, in order.
  function TextBlocks(cs: seq<Content>): seq<Content> {
    if cs == [] then []
    else if cs[0].Text? then [cs[0]] + TextBlocks(cs[1..])
    else TextBlocks(cs[1..])
  }

  // A message restates the end of a log when the last thing there is a person's
  // message with the same text, whatever else it holds.
  ghost predicate Restates(log: seq<Message>, m: Message) {
    && log != [] && log[|log| - 1].role == User
    && m.content != [] && m == Message(User, TextBlocks(log[|log| - 1].content))
  }

  lemma {:induction false} NothingSeen(cs: seq<Content>)
    ensures Window.KeepCalls(Window.KeepResults(cs, {}), {}) == TextBlocks(cs)
    ensures ResultIds(Window.KeepResults(cs, {})) == []
  {
    if cs != [] {
      NothingSeen(cs[1..]);
      var rest := Window.KeepResults(cs[1..], {});
      assert ([cs[0]] + rest)[1..] == rest;
    }
  }

  // A last message by itself is repaired to its text.
  lemma RepairedAlone(m: Message)
    ensures var text := TextBlocks(m.content);
            Window.Repaired([m]) == if text == [] then [] else [Message(m.role, text)]
  {
    NothingSeen(m.content);
    var kept := Message(m.role, Window.KeepResults(m.content, {}));
    var forward := Window.Forward([m], {});
    assert [m][1..] == [] && [kept][1..] == [];
    assert forward == Window.Push(kept, Window.Forward([m][1..], {} + Window.UseSet(m)));
    assert Window.AllResults(forward) == {};
    assert kept.content == [] ==> TextBlocks(m.content) == [];
    assert Window.Answered(forward, {}) == Window.Push(Message(m.role, TextBlocks(m.content)), []);
  }

  // The first of the messages is not appended exactly when it restates the end
  // of the log.
  lemma {:induction false} FreshExactly(log: seq<Message>, ms: seq<Message>)
    ensures Fresh(log, ms) == if ms != [] && Restates(log, ms[0]) then ms[1..] else ms
  {
    hide TextBlocks;
    if log == [] {
      NothingToRepair();
    } else {
      var m := log[|log| - 1];
      assert Lines.Last(log, 1) == [m];
      hide Window.Repaired;
      RepairedAlone(m);
    }
  }

  // A log with a task at its end.
  ghost function WithTask(log: seq<Message>, task: string): seq<Message> {
    if Restates(log, UserText(task)) then log else log + [UserText(task)]
  }

  lemma TaskAtEnd(log: seq<Message>, task: string)
    ensures Restates(WithTask(log, task), UserText(task))
  {
    assert [Text(task)][1..] == [];
    assert TextBlocks([Text(task)]) == [Text(task)] + TextBlocks([]);
  }

  // A message of text alone, and one of results alone.
  ghost predicate TextAlone(m: Message) {
    m.content != [] && forall j :: 0 <= j < |m.content| ==> m.content[j].Text?
  }

  ghost predicate ResultsAlone(m: Message) {
    forall j :: 0 <= j < |m.content| ==> m.content[j].ToolResult?
  }

  lemma {:induction false} TextBlocksOf(cs: seq<Content>)
    ensures (forall j :: 0 <= j < |cs| ==> cs[j].Text?) ==> TextBlocks(cs) == cs
    ensures (forall j :: 0 <= j < |cs| ==> cs[j].ToolResult?) ==> TextBlocks(cs) == []
  {
    if cs != [] {
      TextBlocksOf(cs[1..]);
    }
  }

  // So behind a message of text alone, or of results alone, a task is restated
  // exactly when it is that message.
  lemma {:induction false} RestatesExactly(log: seq<Message>, m: Message)
    requires log != [] ==> TextAlone(log[|log| - 1]) || ResultsAlone(log[|log| - 1])
    requires TextAlone(m) && m.role == User
    ensures Restates(log, m) <==> log != [] && log[|log| - 1] == m
  {
    if log != [] {
      TextBlocksOf(log[|log| - 1].content);
    }
  }

  lemma NoCallNoAnswer(q: Message, r: Message)
    requires IsAnswer(q, r)
    ensures UseIds(q.content) != []
  {
    AllResultsNoUses(r.content);
  }

  // A message that the repaired last line gives back makes no calls.
  lemma LastIsNoCall(log: seq<Message>, m: Message)
    requires var last := Window.Repaired(Lines.Last(log, 1));
             last != [] && last[0] == m
    ensures UseIds(m.content) == []
  {
    var ids := UseIds(m.content);
    assert ids == [] || ids[0] in Window.UseSet(m);
    var one := Lines.Last(log, 1);
    var last := Window.Repaired(one);
    Window.RepairLegal(one);
    Window.PartOfShorter(last, one);
    Window.LegalMeaning(last);
    assert last == [m] && last[1..] == [];
  }

  lemma TailPaired(log: seq<Message>, k: nat)
    requires Paired(log) && k <= |log|
    ensures PairedAfterFirst(log[k..])
  {
    var t := log[k..];
    forall i | 1 <= i < |t| && ResultIds(t[i].content) != []
      ensures IsAnswer(t[i - 1], t[i])
    {
      assert t[i] == log[k + i] && t[i - 1] == log[k + i - 1];
    }
    forall i | 0 <= i < |t| && ResultIds(t[i].content) != []
      ensures OnlyResults(t[i])
    {
      assert t[i] == log[k + i];
      assert IsAnswer(log[k + i - 1], log[k + i]);
      AllResultsNoUses(t[i].content);
    }
  }

  lemma TailOfTail(t: seq<Message>)
    requires t != [] && PairedAfterFirst(t)
    ensures PairedAfterFirst(t[1..])
  {
    var u := t[1..];
    forall i | 1 <= i < |u| && ResultIds(u[i].content) != []
      ensures IsAnswer(u[i - 1], u[i])
    {
      assert u[i] == t[i + 1] && u[i - 1] == t[i];
    }
    forall i | 0 <= i < |u| && ResultIds(u[i].content) != []
      ensures OnlyResults(u[i])
    {
      assert u[i] == t[i + 1];
    }
  }

  lemma AnswerSets(q: Message, r: Message)
    requires IsAnswer(q, r)
    ensures Window.UseSet(r) == {} && Window.ResultSet(r) == Window.UseSet(q)
    ensures r.content != [] && q.content != []
    ensures ResultIds(r.content) != []
  {
    AllResultsNoUses(r.content);
  }

  // The calls behind a tail that the results at its front answer.
  ghost predicate Behind(t: seq<Message>, atCut: bool, seen: set<ToolUseId>) {
    t != [] && !atCut && ResultIds(t[0].content) != [] ==> Window.ResultSet(t[0]) <= seen
  }

  lemma BehindNext(t: seq<Message>, atCut: bool, seen: set<ToolUseId>)
    requires t != [] && PairedAfterFirst(t)
    ensures Behind(t[1..], false, seen + Window.UseSet(t[0]))
  {
    if |t| > 1 && ResultIds(t[1].content) != [] {
      assert IsAnswer(t[0], t[1]);
      AnswerSets(t[0], t[1]);
    }
  }

  lemma NoCallsSets(m: Message)
    ensures var out := Message(m.role, NoCalls(m.content));
            Window.UseSet(out) == {} && Window.ResultSet(out) == Window.ResultSet(m)
    ensures Window.SomeBlocks(NoCalls(m.content), m.content)
  {
    Window.KeepCallsKeepsResults(m.content, {});
    Window.KeepCallsIsSome(m.content, {});
  }

  lemma {:induction false} MendedLegal(t: seq<Message>, atCut: bool, seen: set<ToolUseId>)
    requires PairedAfterFirst(t) && Behind(t, atCut, seen)
    ensures Window.LegalFrom(Mended(t, atCut), seen)
    ensures Window.PartOf(Mended(t, atCut), t)
    decreases |t|
  {
    if t != [] {
      var rest := Mended(t[1..], false);
      TailOfTail(t);
      BehindNext(t, atCut, seen);
      if ResultIds(t[0].content) != [] {
        if atCut {
          BehindAtCut(t, seen);
          MendedLegal(t[1..], false, seen);
        } else {
          MendedLegal(t[1..], false, seen + Window.UseSet(t[0]));
          KeepHead(t, rest, seen);
        }
      } else if |t| > 1 && IsAnswer(t[0], t[1]) {
        MendedLegal(t[1..], false, seen + Window.UseSet(t[0]));
        KeepHead(t, rest, seen);
      } else {
        NoResultNext(t);
        MendedLegal(t[1..], false, seen);
        NoCallsSets(t[0]);
        PushLegal(t, rest, seen);
      }
    }
  }

  // After a cut-off message of results, no message of results can follow.
  lemma BehindAtCut(t: seq<Message>, seen: set<ToolUseId>)
    requires t != [] && PairedAfterFirst(t) && ResultIds(t[0].content) != []
    ensures Behind(t[1..], false, seen)
  {
  }

  lemma NoResultNext(t: seq<Message>)
    requires t != [] && PairedAfterFirst(t) && !(|t| > 1 && IsAnswer(t[0], t[1]))
    ensures |t| > 1 ==> ResultIds(t[1].content) == []
  {
  }

  lemma KeepHead(t: seq<Message>, rest: seq<Message>, seen: set<ToolUseId>)
    requires t != [] && t[0].content != [] && Window.ResultSet(t[0]) <= seen
    requires Window.LegalFrom(rest, seen + Window.UseSet(t[0])) && Window.PartOf(rest, t[1..])
    ensures Window.LegalFrom([t[0]] + rest, seen) && Window.PartOf([t[0]] + rest, t)
  {
    Window.SomeBlocksItself(t[0].content);
    assert ([t[0]] + rest)[1..] == rest;
  }

  lemma PushLegal(t: seq<Message>, rest: seq<Message>, seen: set<ToolUseId>)
    requires t != [] && ResultIds(t[0].content) == []
    requires Window.LegalFrom(rest, seen) && Window.PartOf(rest, t[1..])
    ensures var m := Message(t[0].role, NoCalls(t[0].content));
            Window.LegalFrom(Window.Push(m, rest), seen) && Window.PartOf(Window.Push(m, rest), t)
  {
    var m := Message(t[0].role, NoCalls(t[0].content));
    NoCallsSets(t[0]);
    assert seen + Window.UseSet(m) == seen;
    assert ([m] + rest)[1..] == rest;
  }

  // Every call that is kept is answered in what is kept.
  lemma {:induction false} MendedAnswered(t: seq<Message>, atCut: bool)
    requires PairedAfterFirst(t)
    ensures Window.AllUses(Mended(t, atCut)) <= Window.AllResults(Mended(t, atCut))
    decreases |t|
  {
    if t != [] {
      var rest := Mended(t[1..], false);
      TailOfTail(t);
      MendedAnswered(t[1..], false);
      if ResultIds(t[0].content) != [] {
        if !atCut {
          assert Window.UseSet(t[0]) == {};
          assert ([t[0]] + rest)[1..] == rest;
        }
      } else if |t| > 1 && IsAnswer(t[0], t[1]) {
        AnswerSets(t[0], t[1]);
        assert rest[0] == t[1];
        assert ([t[0]] + rest)[1..] == rest;
      } else {
        NoCallsSets(t[0]);
        var m := Message(t[0].role, NoCalls(t[0].content));
        assert ([m] + rest)[1..] == rest;
      }
    }
  }

  // Reading any tail of a log of runs loses nothing else: the mended tail is
  // part of the repaired one.
  lemma {:induction false} TailLosesOnly(log: seq<Message>, n: nat)
    requires Paired(log)
    ensures var t := Lines.Last(log, n);
            Window.Legal(Mended(t, true)) && Window.PartOf(Mended(t, true), Window.Repaired(t))
  {
    var t := Lines.Last(log, n);
    assert t == log[|log| - |t|..];
    TailPaired(log, |log| - |t|);
    MendedLegal(t, true, {});
    MendedAnswered(t, true);
    Window.LegalMeaning(Mended(t, true));
    Window.RepairGreatest(Mended(t, true), t);
  }

  // ── and exactly that, when call ids are distinct ───────────────────

  // The ids of the calls in t that the next message answers.
  ghost function AnsweredCalls(t: seq<Message>): set<ToolUseId> {
    if |t| < 2 then {}
    else (if IsAnswer(t[0], t[1]) then Window.UseSet(t[0]) else {}) + AnsweredCalls(t[1..])
  }

  // What the forward pass leaves: everything but results at the cut.
  ghost function Joined(t: seq<Message>, atCut: bool): seq<Message> {
    if t == [] then []
    else if ResultIds(t[0].content) != [] && atCut then Joined(t[1..], false)
    else Window.Push(t[0], Joined(t[1..], false))
  }

  lemma {:induction false} KeepAllResults(cs: seq<Content>, seen: set<ToolUseId>)
    requires forall id :: id in ResultIds(cs) ==> id in seen
    ensures Window.KeepResults(cs, seen) == cs
  {
    if cs != [] {
      KeepAllResults(cs[1..], seen);
    }
  }

  lemma {:induction false} KeepNoResults(cs: seq<Content>)
    requires forall j :: 0 <= j < |cs| ==> cs[j].ToolResult?
    ensures Window.KeepResults(cs, {}) == []
  {
    if cs != [] {
      KeepNoResults(cs[1..]);
    }
  }

  lemma {:induction false} ForwardIsJoined(t: seq<Message>, atCut: bool, seen: set<ToolUseId>)
    requires PairedAfterFirst(t) && Behind(t, atCut, seen)
    requires atCut ==> seen == {}
    ensures Window.Forward(t, seen) == Joined(t, atCut)
    decreases |t|
  {
    if t != [] {
      TailOfTail(t);
      BehindNext(t, atCut, seen);
      ForwardIsJoined(t[1..], false, seen + Window.UseSet(t[0]));
      if ResultIds(t[0].content) != [] && atCut {
        KeepNoResults(t[0].content);
      } else {
        KeepAllResults(t[0].content, seen);
      }
    }
  }

  lemma {:induction false} JoinedResults(t: seq<Message>, atCut: bool)
    requires PairedAfterFirst(t)
    ensures Window.AllResults(Joined(t, atCut))
            == AnsweredCalls(t) + if t != [] && !atCut then Window.ResultSet(t[0]) else {}
    decreases |t|
  {
    if t != [] {
      TailOfTail(t);
      JoinedResults(t[1..], false);
      var rest := Joined(t[1..], false);
      assert ([t[0]] + rest)[1..] == rest;
      assert t[0].content == [] ==> Window.ResultSet(t[0]) == {};
      if |t| > 1 {
        if IsAnswer(t[0], t[1]) {
          AnswerSets(t[0], t[1]);
        } else {
          assert ResultIds(t[1].content) == [];
          assert Window.ResultSet(t[1]) == {};
        }
      }
    }
  }

  lemma {:induction false} KeepAllCalls(cs: seq<Content>, answered: set<ToolUseId>)
    requires forall id :: id in UseIds(cs) ==> id in answered
    ensures Window.KeepCalls(cs, answered) == cs
  {
    if cs != [] {
      KeepAllCalls(cs[1..], answered);
    }
  }

  lemma {:induction false} KeepNoCalls(cs: seq<Content>, answered: set<ToolUseId>)
    requires forall id :: id in UseIds(cs) ==> id !in answered
    ensures Window.KeepCalls(cs, answered) == NoCalls(cs)
  {
    if cs != [] {
      KeepNoCalls(cs[1..], answered);
    }
  }

  // A call that the next message does not answer is answered by none.
  ghost predicate OwnAnswers(t: seq<Message>, answered: set<ToolUseId>) {
    forall i :: 0 <= i < |t| ==> OwnAnswer(t, i, answered)
  }

  ghost predicate OwnAnswer(t: seq<Message>, i: nat, answered: set<ToolUseId>)
    requires i < |t|
  {
    if i + 1 < |t| && IsAnswer(t[i], t[i + 1]) then Window.UseSet(t[i]) <= answered
    else Window.UseSet(t[i]) !! answered
  }

  lemma OwnAnswersTail(t: seq<Message>, answered: set<ToolUseId>)
    requires t != [] && OwnAnswers(t, answered)
    ensures OwnAnswers(t[1..], answered)
    ensures OwnAnswer(t, 0, answered)
  {
    forall i | 0 <= i < |t[1..]|
      ensures OwnAnswer(t[1..], i, answered)
    {
      assert OwnAnswer(t, i + 1, answered);
    }
  }

  lemma {:induction false} AnsweredIsMended(t: seq<Message>, atCut: bool, answered: set<ToolUseId>)
    requires PairedAfterFirst(t) && OwnAnswers(t, answered)
    ensures Window.Answered(Joined(t, atCut), answered) == Mended(t, atCut)
    decreases |t|
  {
    if t != [] {
      TailOfTail(t);
      OwnAnswersTail(t, answered);
      AnsweredIsMended(t[1..], false, answered);
      var rest := Joined(t[1..], false);
      assert ([t[0]] + rest)[1..] == rest;
      if ResultIds(t[0].content) != [] {
        assert Window.UseSet(t[0]) == {};
        KeepAllCalls(t[0].content, answered);
      } else if |t| > 1 && IsAnswer(t[0], t[1]) {
        assert Window.UseSet(t[0]) <= answered;
        KeepAllCalls(t[0].content, answered);
      } else {
        assert Window.UseSet(t[0]) !! answered;
        assert forall id :: id in UseIds(t[0].content) ==> id in Window.UseSet(t[0]);
        KeepNoCalls(t[0].content, answered);
        assert t[0].content == [] ==> NoCalls(t[0].content) == [];
      }
    }
  }

  lemma {:induction false} AnsweredCallsMeaning(t: seq<Message>, id: ToolUseId)
    ensures id in AnsweredCalls(t) <==>
            exists i :: 0 <= i < |t| - 1 && IsAnswer(t[i], t[i + 1]) && Calls(t[i], id)
    decreases |t|
  {
    if |t| >= 2 {
      AnsweredCallsMeaning(t[1..], id);
      CallsMeaning(t[0], id);
      if i: int :| 0 <= i < |t| - 1 && IsAnswer(t[i], t[i + 1]) && Calls(t[i], id) {
        if i > 0 {
          assert t[1..][i - 1] == t[i] && t[1..][i] == t[i + 1];
        }
      }
      if i: int :| 0 <= i < |t[1..]| - 1 && IsAnswer(t[1..][i], t[1..][i + 1]) && Calls(t[1..][i], id) {
        assert t[1..][i] == t[i + 1] && t[1..][i + 1] == t[i + 2];
      }
    }
  }

  lemma DistinctOwnAnswers(t: seq<Message>)
    requires Window.DistinctCalls(t)
    ensures OwnAnswers(t, AnsweredCalls(t))
  {
    forall i | 0 <= i < |t|
      ensures OwnAnswer(t, i, AnsweredCalls(t))
    {
      forall id | id in Window.UseSet(t[i])
        ensures id in AnsweredCalls(t) <==> i + 1 < |t| && IsAnswer(t[i], t[i + 1])
      {
        CallsMeaning(t[i], id);
        AnsweredCallsMeaning(t, id);
      }
    }
  }

  // When no id is called by two messages of the tail, the repaired tail is the
  // mended one exactly.
  lemma {:induction false} TailLosesExactly(log: seq<Message>, n: nat)
    requires Paired(log) && Window.DistinctCalls(Lines.Last(log, n))
    ensures var t := Lines.Last(log, n);
            Window.Repaired(t) == Mended(t, true)
  {
    var t := Lines.Last(log, n);
    assert t == log[|log| - |t|..];
    TailPaired(log, |log| - |t|);
    ForwardIsJoined(t, true, {});
    JoinedResults(t, true);
    assert AnsweredCalls(t) + {} == AnsweredCalls(t);
    DistinctOwnAnswers(t);
    AnsweredIsMended(t, true, AnsweredCalls(t));
  }

  // ── the store's two operations, and a run between them ─────────────

  // The last lines of a file, or all of them.
  function Tailed<T>(lines: seq<T>, limit: Option<nat>): seq<T> {
    if limit.Some? then Lines.Last(lines, limit.value) else lines
  }

  datatype ReadError = NotText

  // Read a log, whatever is in it, as a legal window: its last lines, in which
  // bytes that are not text are made into some, or all of it, which is an error
  // when some line is not text.
  method ReadWindow(codec: Codec<Message>, file: Bytes, limit: Option<nat>) returns (r: Result<seq<Message>, ReadError>)
    requires |file| <= U64_MAX
    ensures r == if limit.None? && exists l :: l in LinesOf(file) && !codec.isText(l) then Err(NotText)
                 else Ok(Window.Repaired(Parse(codec, Tailed(LinesOf(file), limit))))
    ensures r.Ok? ==> Window.Legal(r.value)
  {
    hide Window.Repaired, Window.Legal, LinesOf;
    if limit.Some? {
      var tail, _ := TailLines(file, limit.value);
      Window.RepairLegal(Parse(codec, tail));
      var window := Window.RepairWindow(Parse(codec, tail));
      return Ok(window);
    }
    var lines := LinesOf(file);
    var out: seq<Message> := [];
    var i := 0;
    while i < |lines|
      invariant i <= |lines|
      invariant forall k :: 0 <= k < i ==> codec.isText(lines[k])
      invariant out == Parse(codec, lines[..i])
    {
      if !codec.isText(lines[i]) {
        return Err(NotText);
      }
      ParseOneMore(codec, lines, i);
      match ParseLine(codec, lines[i]) {
        case Some(m) => out := out + [m];
        case None =>
      }
      i := i + 1;
    }
    assert lines[..i] == lines;
    Window.RepairLegal(out);
    var window := Window.RepairWindow(out);
    r := Ok(window);
  }

  lemma ParseOneMore(c: Codec<Message>, lines: seq<Bytes>, i: nat)
    requires i < |lines|
    ensures Parse(c, lines[..i + 1]) == Parse(c, lines[..i]) + Parsed(c, lines[i])
  {
    assert lines[..i + 1] == lines[..i] + [lines[i]];
    ParseConcat(c, lines[..i], [lines[i]]);
    ParseHead(c, [lines[i]]);
    assert Parsed(c, lines[i]) + Parse(c, []) == Parsed(c, lines[i]);
  }

  class Log {
    const codec: Codec<Message>
    var file: Option<Bytes>
    // The messages the file holds.
    ghost var log: seq<Message>

    ghost predicate Valid()
      reads this
    {
      && codec.Sound()
      && (file.None? ==> log == [])
      && (file.Some? ==> file.value == FileOf(codec, log) && |file.value| <= U64_MAX)
    }

    constructor (codec: Codec<Message>)
      requires codec.Sound()
      ensures Valid() && log == [] && this.codec == codec
    {
      this.codec, file, log := codec, None, [];
    }

    // The last messages, or all of them, as a legal window.
    method History(limit: Option<nat>) returns (window: seq<Message>)
      requires Valid()
      ensures window == Window.Repaired(Tailed(log, limit))
      ensures Window.Legal(window)
    {
      hide Window.Repaired, Window.Legal, FileOf, LinesOf, Parse;
      Window.RepairLegal(Tailed(log, limit));
      if file.None? {
        NothingToRepair();
        assert Tailed(log, limit) == [];
        return [];
      }
      EncodedLines(codec, log);
      EncodedText(codec, log);
      TailEncoded(codec, log, limit);
      ParseEncoded(codec, Tailed(log, limit));
      var r := ReadWindow(codec, file.value, limit);
      window := r.value;
    }

    // A group's last messages, or all of them, as they stand.
    method GroupHistory(limit: Option<nat>) returns (window: seq<Message>)
      requires Valid()
      ensures window == Tailed(log, limit)
    {
      hide FileOf, LinesOf, Parse;
      if file.None? {
        assert Tailed(log, limit) == [];
        return [];
      }
      EncodedLines(codec, log);
      TailEncoded(codec, log, limit);
      ParseEncoded(codec, Tailed(log, limit));
      if limit.Some? {
        var tail, _ := TailLines(file.value, limit.value);
        return Parse(codec, tail);
      }
      return Parse(codec, LinesOf(file.value));
    }

    // Add messages to the end, unless the file can grow no further.
    method Append(messages: seq<Message>) returns (ok: bool)
      requires Valid()
      modifies this
      ensures Valid()
      ensures ok ==> log == old(log) + if messages != [] && Restates(old(log), messages[0]) then messages[1..] else messages
      ensures ok && messages != [] && messages[0].role == User && TextAlone(messages[0])
              && (old(log) != [] ==> TextAlone(old(log)[|old(log)| - 1]) || ResultsAlone(old(log)[|old(log)| - 1]))
              ==> log == old(log) + if old(log) != [] && old(log)[|old(log)| - 1] == messages[0] then messages[1..] else messages
      ensures !ok ==> log == old(log) && |FileOf(codec, log + Fresh(log, messages))| > U64_MAX
      ensures Paired(old(log)) && Paired(messages) ==> Paired(log)
    {
      AppendPairs(log, messages);
      FreshExactly(log, messages);
      if messages != [] && messages[0].role == User && TextAlone(messages[0])
         && (log != [] ==> TextAlone(log[|log| - 1]) || ResultsAlone(log[|log| - 1])) {
        RestatesExactly(log, messages[0]);
      }
      hide Paired;
      if messages == [] {
        assert log + [] == log;
        return true;
      }
      var last := History(Some(1));
      var more := if last != [] && last[0].role == User && last[0] == messages[0] then messages[1..] else messages;
      assert more == Fresh(log, messages);
      ok := AppendAll(more);
    }

    // Add messages to a group's thread, all of them.
    method AppendGroup(messages: seq<Message>) returns (ok: bool)
      requires Valid()
      modifies this
      ensures Valid()
      ensures ok ==> log == old(log) + messages
      ensures !ok ==> log == old(log) && |FileOf(codec, log + messages)| > U64_MAX
      ensures Paired(old(log)) && Paired(messages) ==> Paired(log)
    {
      GroupPairs(log, messages);
      hide Paired;
      ok := AppendAll(messages);
    }

    method AppendAll(more: seq<Message>) returns (ok: bool)
      requires Valid()
      modifies this
      ensures Valid()
      ensures ok ==> log == old(log) + more
      ensures !ok ==> log == old(log) && |FileOf(codec, log + more)| > U64_MAX
    {
      FileOfConcat(codec, log, more);
      if more == [] {
        assert log + [] == log;
        return true;
      }
      var before := if file.Some? then file.value else [];
      assert before == FileOf(codec, log);
      var buf := FileOf(codec, more);
      if |before| + |buf| > U64_MAX {
        return false;
      }
      file := Some(before + buf);
      log := log + more;
      ok := true;
    }

    // One task: seeded from the log's tail, and appended to its end.
    method RunTask(cfg: Config, w: World, task: string, limit: nat)
      returns (out: Outcome, saved: bool, ghost added: seq<Message>, ghost slice: seq<Message>)
      requires Valid() && NoResultsFromModel(w)
      modifies this
      ensures Valid()
      ensures Stops(cfg, w, out.steps, out.reason) && added == FinalAdded(w, task, out.steps)
      ensures var prior := Window.Repaired(Lines.Last(old(log), limit));
              && out.transcript == FinalTranscript(cfg, w, prior, task, out.steps)
              && |prior| <= |out.transcript| && slice == out.transcript[|prior|..]
              && RequestsLegal(cfg, w, prior, task, out.steps)
      ensures SameShape(added, slice) && RunShape(slice) && slice != [] && slice[0] == UserText(task)
      ensures saved ==> log == WithTask(old(log), task) + slice[1..]
      ensures !saved ==> log == old(log)
      ensures Paired(old(log)) ==> Paired(log)
    {
      hide Stops, FinalAdded, FinalTranscript, RequestsLegal, Window.Repaired, Window.Legal, Restates, TextAlone, ResultsAlone, Fresh,
        WithTask, Because, TurnFollows, SameShape, RunShape, Paired;
      var prior := History(Some(limit));
      var startedFrom := |prior|;
      ghost var issued: seq<string>;
      out, added, issued := Drive(cfg, w, prior, task);
      SuffixShape(prior, added, out.transcript);
      slice := out.transcript[startedFrom..];
      ShapeKeepsPairing(added, slice);
      SameText(added, slice, task);
      TaskThenRest(log, slice, task);
      saved := Append(out.transcript[startedFrom..]);
    }
  }

  // An attempt that the model does not answer and in which nobody says anything.
  ghost predicate Unanswered(w: World) {
    !w.turn(1).Replied? && w.said(0) == []
  }

  // It adds the task and nothing else.
  lemma {:induction false} UnansweredAdds(cfg: Config, w: World, task: string, steps: nat, reason: FinishReason)
    requires Unanswered(w) && Stops(cfg, w, steps, reason)
    ensures FinalAdded(w, task, steps) == [UserText(task)]
  {
    assert TurnEnd(w, 1) == EndOfTurn(w.turn(1));
    assert AddedBy(w, task, 0) == [UserText(task)] && Told(w.said(0)) == [];
  }

  // However often a task is attempted without an answer, it is in the log once.
  method AttemptInVain(thread: Log, cfg: Config, ws: seq<World>, task: string, limit: nat) returns (saved: bool)
    requires thread.Valid() && forall w :: w in ws ==> NoResultsFromModel(w) && Unanswered(w)
    modifies thread
    ensures thread.Valid()
    ensures saved && ws != [] ==> thread.log == WithTask(old(thread.log), task)
    ensures thread.log == old(thread.log) || thread.log == WithTask(old(thread.log), task)
  {
    hide Restates, Unanswered, Stops, FinalAdded, FinalTranscript, RequestsLegal, Window.Repaired, RunShape, Paired;
    ghost var was := thread.log;
    TaskAtEnd(was, task);
    for i := 0 to |ws|
      invariant thread.Valid()
      invariant thread.log == if i == 0 then was else WithTask(was, task)
    {
      ghost var before := thread.log;
      var out: Outcome, ok: bool;
      ghost var added: seq<Message>, slice: seq<Message>;
      out, ok, added, slice := thread.RunTask(cfg, ws[i], task, limit);
      UnansweredAdds(cfg, ws[i], task, out.steps, out.reason);
      OnlyTheTask(added, slice, task);
      assert ok ==> thread.log == WithTask(before, task);
      if !ok {
        return false;
      }
    }
    saved := true;
  }

  lemma OnlyTheTask(added: seq<Message>, slice: seq<Message>, task: string)
    requires SameShape(added, slice) && added == [UserText(task)] && slice != [] && slice[0] == UserText(task)
    ensures slice == [UserText(task)] && slice[1..] == []
  {
  }

  lemma TaskThenRest(log: seq<Message>, slice: seq<Message>, task: string)
    requires slice != [] && slice[0] == UserText(task)
    ensures log + (if Restates(log, slice[0]) then slice[1..] else slice) == WithTask(log, task) + slice[1..]
  {
    hide Restates;
    assert slice == [UserText(task)] + slice[1..];
  }

  // One turn a member takes in its group: seeded from the thread as it stands,
  // and appended to it.
  method RunInGroup(thread: Log, cfg: Config, w: World, task: string, limit: nat)
    returns (out: Outcome, saved: bool, ghost slice: seq<Message>)
    requires thread.Valid() && NoResultsFromModel(w)
    modifies thread
    ensures thread.Valid()
    ensures var prior := GroupWindow(old(thread.log), limit);
            && Stops(cfg, w, out.steps, out.reason) && out.transcript == FinalTranscript(cfg, w, prior, task, out.steps)
            && |prior| <= |out.transcript| && slice == out.transcript[|prior|..]
            && (Window.Legal(prior) ==> RequestsLegal(cfg, w, prior, task, out.steps))
    ensures RunShape(slice) && SameShape(FinalAdded(w, task, out.steps), slice)
    ensures thread.log == if saved then old(thread.log) + slice else old(thread.log)
    ensures Paired(old(thread.log)) ==> Paired(thread.log)
  {
    hide Stops, FinalAdded, FinalTranscript, RequestsLegal, Window.Legal;
    var prior := thread.GroupHistory(Some(limit));
    ghost var added: seq<Message>;
    ghost var issued: seq<string>;
    out, added, issued := Drive(cfg, w, prior, task);
    SuffixShape(prior, added, out.transcript);
    slice := out.transcript[|prior|..];
    ShapeKeepsPairing(added, slice);
    saved := thread.AppendGroup(out.transcript[|prior|..]);
  }

  // Runs appended to a group's thread keep every result right after its call.
  lemma {:induction false} GroupPairs(log: seq<Message>, messages: seq<Message>)
    ensures Paired(log) && Paired(messages) ==> Paired(log + messages)
  {
    hide IsAnswer;
    if Paired(log) && Paired(messages) {
      var all := log + messages;
      forall i | 0 <= i < |all| && ResultIds(all[i].content) != []
        ensures i > 0 && IsAnswer(all[i - 1], all[i])
      {
        if i < |log| {
          assert all[i] == log[i] && IsAnswer(log[i - 1], log[i]);
        } else {
          var j := i - |log|;
          assert all[i] == messages[j] && IsAnswer(messages[j - 1], messages[j]);
        }
      }
    }
  }

  lemma EncodedText(c: Codec<Message>, ms: seq<Message>)
    requires c.Sound()
    ensures forall l :: l in EncodeAll(c, ms) ==> c.isText(l)
  {
    forall l | l in EncodeAll(c, ms)
      ensures c.isText(l)
    {
      var i :| 0 <= i < |ms| && l == c.enc(ms[i]);
      assert c.SoundFor(ms[i]);
    }
  }

  lemma AppendPairs(log: seq<Message>, messages: seq<Message>)
    ensures Paired(log) && Paired(messages) ==> Paired(log + Fresh(log, messages))
  {
    if Paired(log) && Paired(messages) {
      AppendKeepsPaired(log, messages);
    }
  }

  lemma NothingToRepair()
    ensures Window.Repaired([]) == []
  {
  }

  lemma TailEncoded(c: Codec<Message>, ms: seq<Message>, limit: Option<nat>)
    ensures Tailed(EncodeAll(c, ms), limit) == EncodeAll(c, Tailed(ms, limit))
  {
  }

  lemma SameText(a: seq<Message>, b: seq<Message>, text: string)
    requires SameShape(a, b) && a != [] && a[0] == UserText(text)
    ensures b != [] && b[0] == UserText(text)
  {
    assert SameMessage(a[0], b[0]);
    assert SameBlock(a[0].content[0], b[0].content[0]);
  }

  lemma SuffixShape(prior: seq<Message>, added: seq<Message>, transcript: seq<Message>)
    requires SameShape(prior + added, transcript)
    ensures |prior| <= |transcript| && SameShape(added, transcript[|prior|..])
  {
    forall i | 0 <= i < |added|
      ensures SameMessage(added[i], transcript[|prior|..][i])
    {
      assert (prior + added)[|prior| + i] == added[i];
      assert SameMessage((prior + added)[|prior| + i], transcript[|prior| + i]);
    }
  }

  // ── after a crash ──────────────────────────────────────────────────

  // The messages that a log has kept after crashes: those of its whole lines
  // that no piece is glued to, and that of the last piece if it is one.
  ghost function Survivors(c: Codec<Message>, ws: seq<TornLog.Write>): seq<Message>
    requires TornLog.AllValid(ws)
  {
    Parse(c, TornLog.Kept(ws, [])) + Parse(c, TornLog.Piece(TornLog.LastPiece(ws, [])))
  }

  // Some line a crash left is not text.
  ghost predicate CutInCharacter(c: Codec<Message>, ws: seq<TornLog.Write>)
    requires TornLog.AllValid(ws)
  {
    exists l :: l in TornLog.Glued(ws, []) + TornLog.Piece(TornLog.LastPiece(ws, [])) && !c.isText(l)
  }

  // Reading the whole of such a log fails exactly when a crash cut a character
  // in two and left a line that is not text.
  method ReadAfterCrashes(c: Codec<Message>, ws: seq<TornLog.Write>) returns (r: Result<seq<Message>, ReadError>)
    requires TornLog.AllValid(ws) && forall w, l :: w in ws && l in w.lines ==> c.isText(l)
    requires |TornLog.FileAfter(ws)| <= U64_MAX
    ensures r.Err? <==> CutInCharacter(c, ws)
    ensures r.Ok? ==> r.value == Window.Repaired(ParseFile(c, TornLog.FileAfter(ws)))
  {
    hide LinesOf, Window.Repaired;
    TornLog.AllText(c, ws);
    r := ReadWindow(c, TornLog.FileAfter(ws), None);
  }

  // What is read is a legal window, of which every legal window that can be
  // made from the survivors is part; and it holds nothing else when no glued
  // line happens to be a message.
  lemma {:induction false} WindowAfterCrashes(c: Codec<Message>, ws: seq<TornLog.Write>, wanted: seq<Message>)
    requires TornLog.AllValid(ws)
    ensures var window := Window.Repaired(ParseFile(c, TornLog.FileAfter(ws)));
            && Window.Legal(window)
            && (Window.Legal(wanted) && Window.PartOf(wanted, Survivors(c, ws)) ==> Window.PartOf(wanted, window))
            && (Parse(c, TornLog.Glued(ws, [])) == [] ==> Window.PartOf(window, Survivors(c, ws)))
  {
    hide Window.Repaired, Window.Legal, Window.PartOf, LinesOf, Parse, TornLog.Merges;
    var body := TornLog.ReaderSees(c, ws);
    var read, kept, last := ParseFile(c, TornLog.FileAfter(ws)), Parse(c, TornLog.Kept(ws, [])), Parse(c, TornLog.Piece(TornLog.LastPiece(ws, [])));
    Window.RepairLegal(read);
    MergedPart(body, kept, Parse(c, TornLog.Glued(ws, [])), last);
    if Window.Legal(wanted) && Window.PartOf(wanted, Survivors(c, ws)) {
      Window.PartOfTrans(wanted, Survivors(c, ws), read);
      Window.RepairGreatest(wanted, read);
    }
    if Parse(c, TornLog.Glued(ws, [])) == [] {
      TornLog.ReaderSeesKept(c, ws);
    }
  }

  lemma {:induction false} MergedPart(s: seq<Message>, a: seq<Message>, b: seq<Message>, last: seq<Message>)
    requires TornLog.Merges(s, a, b)
    ensures Window.PartOf(a + last, s + last)
    decreases |s|
  {
    if s == [] {
      assert a + last == last && s + last == last;
      Window.PartOfItself(last);
    } else {
      assert (s + last)[1..] == s[1..] + last;
      if a != [] && s[0] == a[0] && TornLog.Merges(s[1..], a[1..], b) {
        MergedPart(s[1..], a[1..], b, last);
        assert (a + last)[1..] == a[1..] + last;
        Window.SomeBlocksItself(s[0].content);
      } else {
        MergedPart(s[1..], a, b[1..], last);
      }
    }
  }

  // The last lines of it, read so, hold the last of the messages read and are a
  // legal window too; this never fails.
  lemma {:induction false} TailAfterCrashes(c: Codec<Message>, ws: seq<TornLog.Write>, n: nat)
    requires TornLog.AllValid(ws)
    ensures var tail, read := Parse(c, Lines.Last(LinesOf(TornLog.FileAfter(ws)), n)), ParseFile(c, TornLog.FileAfter(ws));
            && (exists cut :: 0 <= cut <= |read| && tail == read[cut..])
            && Window.Legal(Window.Repaired(tail)) && Window.PartOf(Window.Repaired(tail), tail)
            && (Parse(c, TornLog.Glued(ws, [])) == [] ==> read == Survivors(c, ws))
  {
    hide Window.Repaired, Window.Legal, Window.PartOf, LinesOf;
    var lines := LinesOf(TornLog.FileAfter(ws));
    var tail := Lines.Last(lines, n);
    var k := |lines| - |tail|;
    assert lines == lines[..k] + tail;
    ParseConcat(c, lines[..k], tail);
    assert Parse(c, lines)[|Parse(c, lines[..k])|..] == Parse(c, tail);
    Window.RepairLegal(Parse(c, tail));
    if Parse(c, TornLog.Glued(ws, [])) == [] {
      TornLog.ReaderSeesKept(c, ws);
    }
  }

  // ── a group's thread ───────────────────────────────────────────────

  // A group's window is the tail as it stands; nothing repairs it.
  function GroupWindow(log: seq<Message>, limit: nat): seq<Message> {
    Lines.Last(log, limit)
  }

  // A window that needs no repair: nothing empty, no result at its front, and
  // every message that makes calls is answered by the next.
  ghost predicate Whole(t: seq<Message>) {
    && NoneEmpty(t)
    && (t != [] ==> ResultIds(t[0].content) == [])
    && AnsweredButLast(t) && !Waiting(t)
  }

  // So the window a member of a group is seeded with is legal exactly when it
  // is whole, as long as no two of its messages make a call with one id.
  lemma {:induction false} GroupWindowLegal(log: seq<Message>, limit: nat)
    requires Paired(log) && Window.DistinctCalls(GroupWindow(log, limit))
    ensures Window.Legal(GroupWindow(log, limit)) <==> Whole(GroupWindow(log, limit))
  {
    var t := GroupWindow(log, limit);
    assert t == log[|log| - |t|..];
    TailPaired(log, |log| - |t|);
    if Whole(t) {
      WholeIsLegal(t);
    }
    if Window.Legal(t) {
      LegalIsWhole(t);
    }
  }

  lemma WholeIsLegal(t: seq<Message>)
    requires PairedAfterFirst(t) && Whole(t)
    ensures Window.Legal(t)
  {
    hide IsAnswer;
    forall i, id | 0 <= i < |t| && Answers(t[i], id)
      ensures Window.CalledBefore(t, i, id)
    {
      AnswersMeaning(t[i], id);
      assert IsAnswer(t[i - 1], t[i]);
      AnswerIsCall(t[i - 1], t[i], id);
    }
    forall i, id | 0 <= i < |t| && Calls(t[i], id)
      ensures Window.AnsweredSomewhere(t, id)
    {
      CallsMeaning(t[i], id);
      assert IsAnswer(t[i], t[i + 1]);
      AnswerIsCall(t[i], t[i + 1], id);
    }
  }

  lemma AnswerIsCall(q: Message, r: Message, id: ToolUseId)
    requires IsAnswer(q, r)
    ensures Calls(q, id) <==> Answers(r, id)
  {
    CallsMeaning(q, id);
    AnswersMeaning(r, id);
  }

  lemma LegalIsWhole(t: seq<Message>)
    requires PairedAfterFirst(t) && Window.DistinctCalls(t) && Window.Legal(t)
    ensures Whole(t)
  {
    hide IsAnswer;
    if t != [] && ResultIds(t[0].content) != [] {
      var id := ResultIds(t[0].content)[0];
      AnswersMeaning(t[0], id);
    }
    forall i | 0 <= i < |t| && UseIds(t[i].content) != []
      ensures i + 1 < |t| && IsAnswer(t[i], t[i + 1])
    {
      var id := UseIds(t[i].content)[0];
      CallsMeaning(t[i], id);
      assert Window.AnsweredSomewhere(t, id);
      var k :| 0 <= k < |t| && Answers(t[k], id);
      AnswersMeaning(t[k], id);
      assert IsAnswer(t[k - 1], t[k]);
      AnswerIsCall(t[k - 1], t[k], id);
      assert k - 1 == i;
    }
  }
}
