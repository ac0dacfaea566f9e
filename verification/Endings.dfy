// Why a run ends, in terms of the turns, the answers, the stop requests and the
// tokens it meets.

module Endings {
  import opened Wrappers
  import opened Sequences
  import opened Decimal
  import opened Conversation
  import opened Turns

  // ── what a turn asks for ───────────────────────────────────────────

  ghost predicate NoCall(cs: seq<Content>) {
    forall j :: 0 <= j < |cs| ==> !cs[j].ToolUse?
  }

  ghost predicate SharedId(cs: seq<Content>) {
    exists i, j :: 0 <= i < j < |cs| && cs[i].ToolUse? && cs[j].ToolUse? && cs[i].id == cs[j].id
  }

  // The turn of step k asks for tools whose results can be told apart.
  ghost predicate AsksForTools(w: World, k: nat) {
    && w.turn(k).Replied? && w.turn(k).turn.stop == WantsTools
    && !NoCall(w.turn(k).turn.content) && !SharedId(w.turn(k).turn.content)
  }

  // What the tool answers to a call of step k.
  ghost function Answer(w: World, k: nat, call: Content): ToolAnswer
    requires call.ToolUse?
  {
    w.tool(call.id + "-" + Digits(k), call.name, call.input)
  }

  // The connection closed; a person has taken the computer over; or approval
  // was refused where nobody can give any.
  ghost predicate Ending(w: World, a: ToolAnswer) {
    a.Closed? || (a.Rpc? && (a.code == -32006 || (a.code == -32005 && w.approvalsImpossible)))
  }

  ghost predicate EndingCall(w: World, k: nat, c: Content) {
    c.ToolUse? && Ending(w, Answer(w, k, c))
  }

  // Block j is the first call whose answer is one of those.
  ghost predicate FirstEnding(w: World, k: nat, cs: seq<Content>, j: int) {
    0 <= j < |cs| && EndingCall(w, k, cs[j]) && forall i :: 0 <= i < j ==> !EndingCall(w, k, cs[i])
  }

  // Step k came to its end and another follows.
  ghost predicate GoesOn(w: World, k: nat) {
    k == 0 || (AsksForTools(w, k) && forall c :: c in w.turn(k).turn.content ==> !EndingCall(w, k, c))
  }

  // ── what it has cost ───────────────────────────────────────────────

  ghost function InputOf(a: TurnAnswer): nat {
    if a.Replied? && a.turn.usage.Some? then a.turn.usage.value.input else 0
  }

  ghost function OutputOf(a: TurnAnswer): nat {
    if a.Replied? && a.turn.usage.Some? then a.turn.usage.value.output else 0
  }

  // The tokens reported for the first k turns.
  ghost function InputTokens(w: World, k: nat): nat {
    if k == 0 then 0 else InputTokens(w, k - 1) + InputOf(w.turn(k))
  }

  ghost function OutputTokens(w: World, k: nat): nat {
    if k == 0 then 0 else OutputTokens(w, k - 1) + OutputOf(w.turn(k))
  }

  ghost function Tokens(w: World, k: nat): nat {
    InputTokens(w, k) + OutputTokens(w, k)
  }

  lemma CostIsReported(a: TurnAnswer)
    ensures Cost(a) == Usage(InputOf(a), OutputOf(a))
  {
  }

  lemma {:induction false} SpentIsReported(w: World, k: nat)
    ensures Spent(w, k) == Usage(InputTokens(w, k), OutputTokens(w, k))
    ensures Spent(w, k).Tokens() == Tokens(w, k)
  {
    hide InputOf, OutputOf, Cost;
    if k > 0 {
      SpentIsReported(w, k - 1);
      CostIsReported(w.turn(k));
    }
  }

  ghost predicate BudgetReached(cfg: Config, w: World, k: nat) {
    cfg.tokenBudget.Some? && Tokens(w, k) >= cfg.tokenBudget.value
  }

  // ── why it ends ────────────────────────────────────────────────────

  // After step k there is one more turn.
  ghost predicate TurnFollows(cfg: Config, w: World, k: nat) {
    GoesOn(w, k) && !w.cancelled(k) && !BudgetReached(cfg, w, k) && k < cfg.maxSteps
  }

  ghost predicate TurnStops(w: World, k: nat, stop: StopReason) {
    k > 0 && w.turn(k).Replied? && w.turn(k).turn.stop == stop
  }

  ghost predicate ToolEnds(w: World, k: nat, a: ToolAnswer, tool: Option<string>) {
    && k > 0 && AsksForTools(w, k)
    && exists j :: FirstEnding(w, k, w.turn(k).turn.content, j) && AnsweredBy(w, k, w.turn(k).turn.content[j], a, tool)
  }

  ghost predicate AnsweredBy(w: World, k: nat, c: Content, a: ToolAnswer, tool: Option<string>) {
    c.ToolUse? && Answer(w, k, c) == a && (tool.Some? ==> c.name == tool.value)
  }

  // The reasons a turn gives by itself.
  ghost predicate ByTheTurn(w: World, k: nat, reason: FinishReason) {
    match reason
    case Completed => TurnStops(w, k, EndTurn)
    case Truncated => TurnStops(w, k, MaxTokens)
    case Declined => TurnStops(w, k, Declining)
    case ModelFailed(transient) =>
      || (k > 0 && w.turn(k) == Failed(transient))
      || (!transient && TurnStops(w, k, WantsTools)
          && (NoCall(w.turn(k).turn.content) || SharedId(w.turn(k).turn.content)))
    case Cancelled => k > 0 && w.turn(k) == StoppedMidTurn
    case _ => false
  }

  // Those the answer of a tool gives.
  ghost predicate ByATool(w: World, k: nat, reason: FinishReason) {
    match reason
    case HubFailed => ToolEnds(w, k, Closed, None)
    case ComputerBusy(message) => ToolEnds(w, k, Rpc(-32006, message), None)
    case NothingApproved(message, tool) => ToolEnds(w, k, Rpc(-32005, message), Some(tool))
    case _ => false
  }

  // And those there are not to start another turn.
  ghost predicate BetweenTurns(cfg: Config, w: World, k: nat, reason: FinishReason) {
    GoesOn(w, k)
    && match reason
       case Cancelled => w.cancelled(k)
       case TokenBudget(spent, budget) => !w.cancelled(k) && cfg.tokenBudget == Some(budget) && spent == Tokens(w, k) >= budget
       case StepLimit(maxSteps) => !w.cancelled(k) && !BudgetReached(cfg, w, k) && k >= cfg.maxSteps == maxSteps
       case _ => false
  }

  // Why a run that comes to step k ends there, if it does.
  ghost predicate Because(cfg: Config, w: World, k: nat, reason: FinishReason) {
    ByTheTurn(w, k, reason) || ByATool(w, k, reason) || BetweenTurns(cfg, w, k, reason)
  }

  // ── calls by block and calls by number ─────────────────────────────

  lemma {:induction false} UsesNone(cs: seq<Content>)
    ensures UseIds(cs) == [] <==> NoCall(cs)
    ensures NoCall(cs) <==> Uses(cs) == []
  {
    if cs != [] {
      UsesNone(cs[1..]);
      assert NoCall(cs) ==> NoCall(cs[1..]);
      assert NoCall(cs[1..]) && !cs[0].ToolUse? ==> NoCall(cs);
    }
  }

  lemma {:induction false} IdAmong(cs: seq<Content>, id: ToolUseId)
    ensures id in UseIds(cs) <==> exists j :: 0 <= j < |cs| && cs[j].ToolUse? && cs[j].id == id
  {
    CallsMeaning(Message(Assistant, cs), id);
  }

  lemma {:induction false} SharedMeaning(cs: seq<Content>)
    ensures SharedId(cs) <==> !Distinct(UseIds(cs))
  {
    if cs != [] {
      var rest := cs[1..];
      SharedMeaning(rest);
      if cs[0].ToolUse? {
        IdAmong(rest, cs[0].id);
        DistinctCons(cs[0].id, UseIds(rest));
      }
      if i, j :| 0 <= i < j < |cs| && cs[i].ToolUse? && cs[j].ToolUse? && cs[i].id == cs[j].id {
        assert rest[j - 1] == cs[j];
        assert i > 0 ==> rest[i - 1] == cs[i];
      }
      if i, j :| 0 <= i < j < |rest| && rest[i].ToolUse? && rest[j].ToolUse? && rest[i].id == rest[j].id {
        assert cs[i + 1] == rest[i] && cs[j + 1] == rest[j];
      }
      if j :| 0 <= j < |rest| && cs[0].ToolUse? && rest[j].ToolUse? && rest[j].id == cs[0].id {
        assert cs[j + 1] == rest[j];
      }
    }
  }

  lemma DistinctCons<T>(x: T, s: seq<T>)
    ensures Distinct([x] + s) <==> x !in s && Distinct(s)
  {
    var all := [x] + s;
    if Distinct(all) {
      forall i, j | 0 <= i < j < |s|
        ensures s[i] != s[j]
      {
        assert all[i + 1] == s[i] && all[j + 1] == s[j];
      }
      forall i | 0 <= i < |s|
        ensures s[i] != x
      {
        assert all[0] == x && all[i + 1] == s[i];
      }
    }
  }

  // Numbers in a list of calls and in the list without its first.
  lemma {:induction false} SameFrom(w: World, k: nat, us: seq<Content>, i: nat)
    requires us != [] && forall u :: u in us ==> u.ToolUse?
    requires 1 <= i <= |us|
    ensures FirstEnd(w, k, us, i) == FirstEnd(w, k, us[1..], i - 1)
    ensures CallsMade(w, k, us, i) == 1 + CallsMade(w, k, us[1..], i - 1)
    decreases |us| - i
  {
    hide Ends, AnswerTo;
    if i < |us| {
      SameFrom(w, k, us, i + 1);
    }
  }

  lemma EndsMeaning(w: World, k: nat, c: Content)
    requires c.ToolUse?
    ensures AnswerTo(w, k, c) == Answer(w, k, c)
    ensures var a, end := Answer(w, k, c), Ends(w, AnswerTo(w, k, c), c.name);
            match end
            case None => !Ending(w, a)
            case Some(HubFailed) => a == Closed
            case Some(ComputerBusy(message)) => a == Rpc(-32006, message)
            case Some(NothingApproved(message, tool)) => a == Rpc(-32005, message) && tool == c.name && w.approvalsImpossible
            case _ => false
    ensures Ending(w, Answer(w, k, c)) <==> Ends(w, AnswerTo(w, k, c), c.name).Some?
  {
  }

  // The first call whose answer ends the run, if there is one, and the calls
  // made up to it.
  lemma {:induction false} FirstOf(w: World, k: nat, cs: seq<Content>) returns (j: nat)
    ensures match FirstEnd(w, k, Uses(cs), 0)
            case None => j == |cs| && forall c :: c in cs ==> !EndingCall(w, k, c)
            case Some(r) => FirstEnding(w, k, cs, j) && Ends(w, Answer(w, k, cs[j]), cs[j].name) == Some(r)
    ensures j <= |cs| && CallsMade(w, k, Uses(cs), 0) == |UseIds(cs[..if j < |cs| then j + 1 else j])|
  {
    hide Ends, Answer, AnswerTo, Ending;
    if cs == [] {
      j := 0;
      assert cs[..0] == [];
    } else if !cs[0].ToolUse? {
      var i := FirstOf(w, k, cs[1..]);
      j := i + 1;
      NextBlock(cs, j);
      LaterEnding(w, k, cs, i);
    } else {
      EndsMeaning(w, k, cs[0]);
      if Ending(w, Answer(w, k, cs[0])) {
        j := 0;
        assert cs[..1][1..] == [];
        assert FirstEnding(w, k, cs, 0);
      } else {
        SameFrom(w, k, Uses(cs), 1);
        assert Uses(cs)[1..] == Uses(cs[1..]);
        var i := FirstOf(w, k, cs[1..]);
        j := i + 1;
        NextBlock(cs, j);
        LaterEnding(w, k, cs, i);
      }
    }
  }

  lemma NextBlock(cs: seq<Content>, j: nat)
    requires 1 <= j <= |cs|
    ensures forall n :: 0 <= n <= |cs| - 1 ==> |UseIds(cs[..n + 1])| == |UseIds(cs[1..][..n])| + if cs[0].ToolUse? then 1 else 0
  {
    forall n | 0 <= n <= |cs| - 1
      ensures |UseIds(cs[..n + 1])| == |UseIds(cs[1..][..n])| + if cs[0].ToolUse? then 1 else 0
    {
      assert cs[..n + 1][1..] == cs[1..][..n];
    }
  }

  lemma LaterEnding(w: World, k: nat, cs: seq<Content>, j: int)
    requires cs != [] && !EndingCall(w, k, cs[0])
    ensures FirstEnding(w, k, cs[1..], j) ==> FirstEnding(w, k, cs, j + 1)
    ensures (forall c :: c in cs[1..] ==> !EndingCall(w, k, c)) ==> forall c :: c in cs ==> !EndingCall(w, k, c)
  {
    hide EndingCall;
    assert cs == [cs[0]] + cs[1..];
  }

  // What the turn of a step is judged to be.
  lemma JudgedEnd(w: World, k: nat, r: FinishReason)
    requires k > 0
    ensures EndOfTurn(w.turn(k)).None? <==> AsksForTools(w, k)
    ensures EndOfTurn(w.turn(k)) == Some(r) <==> ByTheTurn(w, k, r)
  {
    hide Uses, UseIds, Distinct, SharedId, NoCall;
    if w.turn(k).Replied? {
      UsesNone(w.turn(k).turn.content);
      SharedMeaning(w.turn(k).turn.content);
    }
  }

  // A turn ends the run by itself unless it asks for tools as it should.
  lemma JudgedMeaning(w: World, k: nat, r: FinishReason)
    requires k > 0
    ensures AsksForTools(w, k) ==> TurnEnd(w, k) == FirstEnd(w, k, Uses(w.turn(k).turn.content), 0) && !ByTheTurn(w, k, r)
    ensures !AsksForTools(w, k) ==> TurnEnd(w, k).Some? && (TurnEnd(w, k) == Some(r) <==> ByTheTurn(w, k, r))
  {
    hide FirstEnd, Uses, UseIds, Distinct, SharedId, NoCall;
    if w.turn(k).Replied? {
      UsesNone(w.turn(k).turn.content);
      SharedMeaning(w.turn(k).turn.content);
    }
  }

  // A call that ends the run gives it its own reason.
  lemma CallEnds(w: World, k: nat, cs: seq<Content>, j: int, r: FinishReason)
    requires k > 0 && AsksForTools(w, k) && cs == w.turn(k).turn.content && FirstEnding(w, k, cs, j)
    ensures Ends(w, Answer(w, k, cs[j]), cs[j].name) == Some(r) <==> ByATool(w, k, r)
  {
    EndsMeaning(w, k, cs[j]);
    hide AsksForTools, Answer, AnswerTo, Ends, Ending, EndingCall;
    assert forall i :: FirstEnding(w, k, cs, i) ==> i == j;
  }

  lemma NoCallEnds(w: World, k: nat, r: FinishReason)
    requires k > 0 && GoesOn(w, k)
    ensures !ByATool(w, k, r)
  {
    hide EndingCall;
    var cs := w.turn(k).turn.content;
    assert forall j :: 0 <= j < |cs| ==> cs[j] in cs;
    assert forall j :: !FirstEnding(w, k, cs, j);
  }

  lemma ToolMeaning(w: World, k: nat, r: FinishReason)
    requires k > 0 && AsksForTools(w, k)
    ensures TurnEnd(w, k).None? <==> GoesOn(w, k)
    ensures TurnEnd(w, k) == Some(r) <==> ByATool(w, k, r)
  {
    JudgedMeaning(w, k, r);
    var cs := w.turn(k).turn.content;
    hide FirstEnd, Uses, TurnEnd, AsksForTools, Answer, AnswerTo, Ends, CallsMade, UseIds, ByATool, EndingCall;
    var j := FirstOf(w, k, cs);
    if j < |cs| {
      CallEnds(w, k, cs, j, r);
    } else {
      NoCallEnds(w, k, r);
    }
  }

  lemma TurnMeaning(w: World, k: nat, r: FinishReason)
    requires k > 0
    ensures TurnEnd(w, k).None? <==> GoesOn(w, k)
    ensures TurnEnd(w, k) == Some(r) <==> ByTheTurn(w, k, r) || ByATool(w, k, r)
  {
    JudgedMeaning(w, k, r);
    hide TurnEnd, ByTheTurn;
    if AsksForTools(w, k) {
      ToolMeaning(w, k, r);
    }
  }

  lemma BetweenMeaning(cfg: Config, w: World, k: nat, r: FinishReason)
    requires GoesOn(w, k)
    ensures StopBefore(cfg, w, k).None? <==> TurnFollows(cfg, w, k)
    ensures StopBefore(cfg, w, k) == Some(r) <==> BetweenTurns(cfg, w, k, r)
  {
    SpentIsReported(w, k);
    hide GoesOn, Spent, Tokens;
  }

  lemma AtTheStart(w: World, r: FinishReason)
    ensures GoesOn(w, 0) && !ByTheTurn(w, 0, r) && !ByATool(w, 0, r)
  {
  }

  // What keeps a step from being the last, and what makes it.
  lemma EndsHere(cfg: Config, w: World, k: nat, r: FinishReason)
    ensures (k > 0 ==> TurnEnd(w, k).None?) && StopBefore(cfg, w, k).None? <==> TurnFollows(cfg, w, k)
    ensures (if k > 0 && TurnEnd(w, k).Some? then TurnEnd(w, k) == Some(r) else StopBefore(cfg, w, k) == Some(r))
            <==> Because(cfg, w, k, r)
  {
    hide TurnEnd, StopBefore, ByTheTurn, ByATool, GoesOn, Tokens, BudgetReached;
    AtTheStart(w, r);
    if k > 0 {
      TurnMeaning(w, k, r);
    }
    if GoesOn(w, k) {
      BetweenMeaning(cfg, w, k, r);
    }
  }

  // A run ends at the first step that gives a reason, with that reason.
  lemma {:induction false} EndsBecause(cfg: Config, w: World, k: nat, r: FinishReason)
    ensures Stops(cfg, w, k, r) <==> (forall i :: 0 <= i < k ==> TurnFollows(cfg, w, i)) && Because(cfg, w, k, r)
  {
    hide TurnEnd, StopBefore, Because, TurnFollows;
    EndsHere(cfg, w, k, r);
    forall i: nat | i < k
      ensures (i > 0 ==> TurnEnd(w, i).None?) && StopBefore(cfg, w, i).None? <==> TurnFollows(cfg, w, i)
    {
      EndsHere(cfg, w, i, r);
    }
  }

  // ── the calls it makes ─────────────────────────────────────────────

  // How many of a turn's calls come up to block j, counting it.
  ghost function CallsUpTo(cs: seq<Content>, j: int): nat {
    if 0 <= j < |cs| then |UseIds(cs[..j + 1])| else |UseIds(cs)|
  }

  // A step makes its turn's calls in order, up to the first whose answer ends
  // the run, or all of them; each under its own id and the step's number.
  lemma {:induction false} CallsMadeExactly(w: World, k: nat)
    requires k > 0
    ensures var ids := CallIdsAt(w, k);
            if !AsksForTools(w, k) then ids == []
            else
              var cs := w.turn(k).turn.content;
              && (GoesOn(w, k) ==> |ids| == |UseIds(cs)|)
              && (forall j :: FirstEnding(w, k, cs, j) ==> |ids| == CallsUpTo(cs, j))
              && (forall i :: 0 <= i < |ids| ==> |ids| <= |UseIds(cs)| && ids[i] == UseIds(cs)[i] + "-" + Digits(k))
  {
    JudgedMeaning(w, k, Completed);
    JudgedEnd(w, k, Completed);
    if AsksForTools(w, k) {
      var cs := w.turn(k).turn.content;
      hide FirstEnd, CallsMade, EndingCall, UseIds, Uses, NoCall, SharedId, Digits;
      var j := FirstOf(w, k, cs);
      assert cs[..|cs|] == cs;
      assert forall c :: c in cs <==> exists i :: 0 <= i < |cs| && cs[i] == c;
    }
  }
}
