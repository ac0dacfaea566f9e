// What a run of the agent learns from outside: turns of the model, answers of
// tools, and how each of them ends it.

module Turns {
  import opened Wrappers
  import opened Sequences
  import opened Decimal
  import opened Conversation

  const RESULT_CHAR_LIMIT: nat := 8_000
  const APPROVAL_DENIED: int := -32005
  const TAKEN_OVER: int := -32006

  datatype Config = Config(maxSteps: nat, tokenBudget: Option<nat>, contextBudget: nat)

  datatype StopReason = EndTurn | WantsTools | MaxTokens | Declining

  datatype Usage = Usage(input: nat, output: nat)
  {
    function Tokens(): nat {
      input + output
    }

    function Plus(u: Usage): Usage {
      Usage(input + u.input, output + u.output)
    }
  }

  datatype Turn = Turn(content: seq<Content>, stop: StopReason, usage: Option<Usage>)

  // What comes back from the model, and from a tool.
  datatype TurnAnswer = Replied(turn: Turn) | Failed(transient: bool) | StoppedMidTurn
  datatype ToolAnswer = Output(text: string) | Closed | Rpc(code: int, message: string) | OtherError(message: string)

  // Everything the loop learns from outside. By step: whether it has been asked
  // to stop, what a person said since the last look, and the model's turn. And
  // what a tool answers to a call with an id, a tool's name and its input.
  datatype World = World(
    cancelled: nat -> bool,
    said: nat -> seq<string>,
    turn: nat -> TurnAnswer,
    tool: (string, string, string) -> ToolAnswer,
    approvalsImpossible: bool)

  datatype FinishReason =
    | Completed
    | StepLimit(maxSteps: nat)
    | Truncated
    | ModelFailed(transient: bool)
    | HubFailed
    | TokenBudget(spent: nat, budget: nat)
    | Declined
    | NothingApproved(message: string, tool: string)
    | ComputerBusy(message: string)
    | Cancelled

  datatype Outcome = Outcome(
    reason: FinishReason,
    steps: nat,
    text: string,
    transcript: seq<Message>,
    usage: Usage)

  // What a model turn adds to the bill.
  function Cost(a: TurnAnswer): Usage {
    if a.Replied? && a.turn.usage.Some? then a.turn.usage.value else Usage(0, 0)
  }

  // The bill for the first k steps.
  function Spent(w: World, k: nat): Usage {
    if k == 0 then Usage(0, 0) else Spent(w, k - 1).Plus(Cost(w.turn(k)))
  }

  // No step was started once the tokens reported had reached the budget.
  ghost predicate WithinBudget(cfg: Config, w: World, steps: nat) {
    cfg.tokenBudget.Some? ==> forall k :: 0 <= k < steps ==> Spent(w, k).Tokens() < cfg.tokenBudget.value
  }

  // A provider's turn is text and calls.
  ghost predicate NoResultsFromModel(w: World) {
    forall k :: w.turn(k).Replied? ==> ResultIds(w.turn(k).turn.content) == []
  }

  // What is checked before the turn after step k, in this order.
  function StopBefore(cfg: Config, w: World, k: nat): Option<FinishReason> {
    if w.cancelled(k) then Some(Cancelled)
    else if cfg.tokenBudget.Some? && Spent(w, k).Tokens() >= cfg.tokenBudget.value then
      Some(TokenBudget(Spent(w, k).Tokens(), cfg.tokenBudget.value))
    else if k >= cfg.maxSteps then Some(StepLimit(cfg.maxSteps))
    else None
  }

  function CallId(id: ToolUseId, step: nat): string {
    Numbered(id, step)
  }

  // Call ids of the steps so far, no two alike.
  ghost predicate Issued(issued: seq<string>, step: nat) {
    && Distinct(issued)
    && forall i :: 0 <= i < |issued| ==> IssuedBy(issued[i], step)
  }

  ghost predicate IssuedBy(x: string, step: nat) {
    exists id, k: nat :: IsCallId(x, id, k) && 1 <= k <= step
  }

  ghost predicate IsCallId(x: string, id: ToolUseId, k: nat) {
    x == CallId(id, k)
  }

  function Uses(cs: seq<Content>): (us: seq<Content>)
    ensures forall u :: u in us ==> u.ToolUse?
    ensures |us| == |UseIds(cs)|
    ensures forall i :: 0 <= i < |us| ==> us[i].id == UseIds(cs)[i]
  {
    if cs == [] then []
    else if cs[0].ToolUse? then [cs[0]] + Uses(cs[1..])
    else Uses(cs[1..])
  }

  // The text blocks of a message, one to a line.
  function TextOf(cs: seq<Content>): string {
    JoinLines(Texts(cs))
  }

  function Texts(cs: seq<Content>): seq<string> {
    if cs == [] then []
    else if cs[0].Text? then [cs[0].text] + Texts(cs[1..])
    else Texts(cs[1..])
  }

  function JoinLines(ts: seq<string>): string {
    if ts == [] then "" else if |ts| == 1 then ts[0] else ts[0] + "\n" + JoinLines(ts[1..])
  }

  // A text by itself is itself, two messages' texts together are joined by a
  // newline, and other blocks have no part in it.
  lemma {:induction false} TextOfMeaning(a: seq<Content>, b: seq<Content>, text: string)
    ensures TextOf([Text(text)]) == text
    ensures (forall c :: c in a ==> c.Text?) && (forall c :: c in b ==> c.Text?) && a != [] && b != []
            ==> TextOf(a + b) == TextOf(a) + "\n" + TextOf(b)
    ensures forall c: Content :: !c.Text? ==> TextOf(a + [c] + b) == TextOf(a + b)
  {
    assert [Text(text)][1..] == [];
    assert Texts([Text(text)]) == [text] + Texts([]);
    TextsConcat(a, b);
    if (forall c :: c in a ==> c.Text?) && (forall c :: c in b ==> c.Text?) && a != [] && b != [] {
      JoinConcat(Texts(a), Texts(b));
    }
    forall c: Content | !c.Text?
      ensures Texts(a + [c] + b) == Texts(a + b)
    {
      TextsConcat(a + [c], b);
      TextsConcat(a, [c]);
      assert [c][1..] == [] && Texts([c]) == Texts([c][1..]);
      assert Texts(a) + [] == Texts(a);
    }
  }

  lemma {:induction false} TextsConcat(a: seq<Content>, b: seq<Content>)
    ensures Texts(a + b) == Texts(a) + Texts(b)
  {
    if a == [] {
      assert a + b == b;
    } else {
      TextsConcat(a[1..], b);
      assert (a + b)[1..] == a[1..] + b && (a + b)[0] == a[0];
    }
  }

  lemma {:induction false} JoinConcat(a: seq<string>, b: seq<string>)
    requires a != [] && b != []
    ensures JoinLines(a + b) == JoinLines(a) + "\n" + JoinLines(b)
  {
    if |a| == 1 {
      assert (a + b)[1..] == b;
    } else {
      JoinConcat(a[1..], b);
      assert (a + b)[1..] == a[1..] + b;
    }
  }

  predicate Speaks(m: Message) {
    m.role == Assistant && TextOf(m.content) != ""
  }

  // The text of the last message in which the assistant said anything.
  function FinalText(ms: seq<Message>): string {
    if ms == [] then ""
    else if Speaks(ms[|ms| - 1]) then TextOf(ms[|ms| - 1].content)
    else FinalText(ms[..|ms| - 1])
  }

  // An assistant's message with some text in it.
  ghost predicate SaysSomething(m: Message) {
    m.role == Assistant && TextOf(m.content) != ""
  }

  lemma {:induction false} FinalTextMeaning(ms: seq<Message>)
    ensures FinalText(ms) == "" <==> forall m :: m in ms ==> !SaysSomething(m)
    ensures FinalText(ms) != "" ==>
              exists i :: 0 <= i < |ms| && SaysSomething(ms[i]) && FinalText(ms) == TextOf(ms[i].content)
                          && forall k :: i < k < |ms| ==> !SaysSomething(ms[k])
  {
    hide TextOf;
    if ms != [] {
      var last, front := ms[|ms| - 1], ms[..|ms| - 1];
      FinalTextMeaning(front);
      assert ms == front + [last];
      assert SaysSomething(last) ==> SaysSomething(ms[|ms| - 1]);
    }
  }

  lemma FinalTextLast(front: seq<Message>, last: Message)
    ensures FinalText(front + [last]) == if Speaks(last) then TextOf(last.content) else FinalText(front)
    ensures Speaks(last) ==> TextOf(last.content) != ""
  {
    assert (front + [last])[..|front|] == front;
  }

  const CUT_NOTE: string := "\n\U{2026} [truncated at 8000 characters]"

  // A tool's output as the model sees it, bounded; a cut is announced.
  function Render(text: string): (s: string)
    ensures |text| <= RESULT_CHAR_LIMIT ==> s == text
    ensures |text| > RESULT_CHAR_LIMIT ==> |s| == RESULT_CHAR_LIMIT + |CUT_NOTE| && s[RESULT_CHAR_LIMIT..] == CUT_NOTE
    ensures |text| > RESULT_CHAR_LIMIT ==> forall i :: 0 <= i < RESULT_CHAR_LIMIT ==> s[i] == text[i]
  {
    if |text| <= RESULT_CHAR_LIMIT then text else text[..RESULT_CHAR_LIMIT] + CUT_NOTE
  }

  // ── the tool calls of one step ─────────────────────────────────────

  // How an answer from a tool ends the run, if it does.
  function Ends(w: World, a: ToolAnswer, tool: string): (end: Option<FinishReason>)
    ensures end.Some? ==> end.value.HubFailed? || end.value.ComputerBusy?
                          || (end.value.NothingApproved? && w.approvalsImpossible)
  {
    match a
    case Closed => Some(HubFailed)
    case Rpc(code, message) =>
      if code == TAKEN_OVER then Some(ComputerBusy(message))
      else if code == APPROVAL_DENIED && w.approvalsImpossible then Some(NothingApproved(message, tool))
      else None
    case _ => None
  }

  // A result tells the model what a tool answered: its output, cut when it is
  // long, or the message of its error, marked as one.
  ghost predicate Tells(r: Content, id: ToolUseId, a: ToolAnswer) {
    && r.ToolResult? && r.id == id && (r.isError <==> !a.Output?)
    && (a.Output? && |a.text| <= 8_000 ==> r.content == a.text)
    && (a.Output? && |a.text| > 8_000 ==> |r.content| > 8_000 && r.content[..8_000] == a.text[..8_000] && r.content[8_000..] == CUT_NOTE)
    && (a.OtherError? ==> r.content == a.message)
    && (a.Rpc? ==> r.content == "[" + IntText(a.code) + "] " + a.message)
  }

  // The result that goes back to the model for an answer that does not.
  function ResultFor(id: ToolUseId, a: ToolAnswer): (r: Content)
    ensures r.ToolResult? && r.id == id && Tells(r, id, a)
  {
    match a
    case Output(text) => ToolResult(id, Render(text), false)
    case Closed => ToolResult(id, "the hub connection closed", true)
    case Rpc(code, message) => ToolResult(id, "[" + IntText(code) + "] " + message, true)
    case OtherError(message) => ToolResult(id, message, true)
  }

  // How a model turn ends the run by itself, if it does.
  ghost function EndOfTurn(a: TurnAnswer): Option<FinishReason> {
    match a
    case Failed(transient) => Some(ModelFailed(transient))
    case StoppedMidTurn => Some(Cancelled)
    case Replied(turn) =>
      match turn.stop
      case EndTurn => Some(Completed)
      case MaxTokens => Some(Truncated)
      case Declining => Some(Declined)
      case WantsTools =>
        if UseIds(turn.content) == [] || !Distinct(UseIds(turn.content)) then Some(ModelFailed(false)) else None
  }

  function Told(said: seq<string>): (ms: seq<Message>)
    ensures |ms| == |said| && forall i :: 0 <= i < |said| ==> ms[i] == UserText(said[i])
  {
    seq(|said|, i requires 0 <= i < |said| => UserText(said[i]))
  }

  // What the tool answers to one of a step's calls.
  function AnswerTo(w: World, step: nat, use: Content): ToolAnswer
    requires use.ToolUse?
  {
    w.tool(CallId(use.id, step), use.name, use.input)
  }

  // The first of a step's answers, from number i on, that ends the run.
  function FirstEnd(w: World, step: nat, uses: seq<Content>, i: nat): Option<FinishReason>
    requires forall u :: u in uses ==> u.ToolUse?
    decreases |uses| - i
  {
    if i >= |uses| then None
    else if Ends(w, AnswerTo(w, step, uses[i]), uses[i].name).Some? then Ends(w, AnswerTo(w, step, uses[i]), uses[i].name)
    else FirstEnd(w, step, uses, i + 1)
  }

  // How many of a step's calls are made: all of them, or up to the first whose
  // answer ends the run.
  function CallsMade(w: World, step: nat, uses: seq<Content>, i: nat): (n: nat)
    requires forall u :: u in uses ==> u.ToolUse?
    requires i <= |uses|
    ensures i <= n <= |uses|
    decreases |uses| - i
  {
    if i == |uses| then i
    else if Ends(w, AnswerTo(w, step, uses[i]), uses[i].name).Some? then i + 1
    else CallsMade(w, step, uses, i + 1)
  }

  // The ids of the first n calls of a step.
  function CallIds(uses: seq<Content>, step: nat, n: nat): (ids: seq<string>)
    requires forall u :: u in uses ==> u.ToolUse?
    requires n <= |uses|
    ensures |ids| == n && forall i :: 0 <= i < n ==> ids[i] == CallId(uses[i].id, step)
  {
    seq(n, i requires 0 <= i < n => CallId(uses[i].id, step))
  }

  // The ids of the calls made at step k, and of all those made by then.
  ghost function CallIdsAt(w: World, k: nat): seq<string> {
    if EndOfTurn(w.turn(k)).Some? then []
    else
      var uses := Uses(w.turn(k).turn.content);
      CallIds(uses, k, CallsMade(w, k, uses, 0))
  }

  ghost function CallIdsOf(w: World, steps: nat): seq<string> {
    if steps == 0 then [] else CallIdsOf(w, steps - 1) + CallIdsAt(w, steps)
  }

  lemma {:induction false} IssueMore(issued: seq<string>, step: nat, ids: seq<ToolUseId>, more: seq<string>)
    requires Issued(issued, step) && Distinct(ids)
    requires |more| <= |ids| && forall i :: 0 <= i < |more| ==> more[i] == CallId(ids[i], step + 1)
    ensures Issued(issued + more, step + 1)
  {
    var all := issued + more;
    forall i, j | 0 <= i < j < |all|
      ensures all[i] != all[j]
    {
      if j >= |issued| {
        var b := ids[j - |issued|];
        if i >= |issued| {
          if all[i] == all[j] {
            NumberedInjective(ids[i - |issued|], step + 1, b, step + 1);
          }
        } else {
          assert IssuedBy(issued[i], step);
          var id, k: nat :| IsCallId(issued[i], id, k) && 1 <= k <= step;
          if all[i] == all[j] {
            NumberedInjective(id, k, b, step + 1);
          }
        }
      }
    }
    forall i | 0 <= i < |all|
      ensures IssuedBy(all[i], step + 1)
    {
      if i >= |issued| {
        assert IsCallId(all[i], ids[i - |issued|], step + 1);
      } else {
        assert IssuedBy(issued[i], step);
      }
    }
  }

  // Whatever ids the model gives its calls, no call id is used twice.
  lemma {:induction false} CallIdsDistinct(w: World, steps: nat)
    ensures Distinct(CallIdsOf(w, steps)) && Issued(CallIdsOf(w, steps), steps)
  {
    hide CallIdsAt, Issued, CallId, Distinct;
    if steps == 0 {
      NothingIssued();
    } else {
      CallIdsDistinct(w, steps - 1);
      var ids := IdsOfStep(w, steps);
      IssueMore(CallIdsOf(w, steps - 1), steps - 1, ids, CallIdsAt(w, steps));
    }
    IssuedDistinct(CallIdsOf(w, steps), steps);
  }

  // The calls of a step are made under ids of the model's, all different.
  lemma IdsOfStep(w: World, k: nat) returns (ids: seq<ToolUseId>)
    ensures Distinct(ids) && |CallIdsAt(w, k)| <= |ids|
    ensures forall i :: 0 <= i < |CallIdsAt(w, k)| ==> CallIdsAt(w, k)[i] == CallId(ids[i], k)
  {
    hide CallsMade, CallId;
    ids := if EndOfTurn(w.turn(k)).Some? then [] else UseIds(w.turn(k).turn.content);
  }

  lemma NothingIssued()
    ensures Issued([], 0)
  {
  }

  lemma IssuedDistinct(issued: seq<string>, step: nat)
    requires Issued(issued, step)
    ensures Distinct(issued)
  {
  }

  // How step k ends the run, if it does: by the model's turn, or by a tool.
  ghost function TurnEnd(w: World, k: nat): Option<FinishReason> {
    var end := EndOfTurn(w.turn(k));
    if end.Some? then end else FirstEnd(w, k, Uses(w.turn(k).turn.content), 0)
  }

  // The run stops with this step and this reason: nothing stopped it earlier.
  ghost predicate Stops(cfg: Config, w: World, steps: nat, reason: FinishReason) {
    && NotBefore(cfg, w, steps)
    && (if steps > 0 && TurnEnd(w, steps).Some? then TurnEnd(w, steps) == Some(reason)
        else StopBefore(cfg, w, steps) == Some(reason))
  }

  ghost predicate NotBefore(cfg: Config, w: World, steps: nat) {
    && (forall k :: 0 <= k < steps ==> StopBefore(cfg, w, k).None?)
    && (forall k :: 1 <= k < steps ==> TurnEnd(w, k).None?)
  }

  // There is no more than one such step and reason.
  lemma {:induction false} StopsOnce(cfg: Config, w: World, m: nat, r: FinishReason, n: nat, q: FinishReason)
    requires Stops(cfg, w, m, r) && Stops(cfg, w, n, q)
    ensures m == n && r == q
  {
    hide StopBefore, TurnEnd;
  }
}
