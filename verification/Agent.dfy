// One run of the agent: turns of the model and the tool calls they ask for, up
// to the first reason to stop.

module Agent {
  import opened Wrappers
  import opened Sequences
  import opened Conversation
  import opened Compaction
  import opened Pairing
  import opened Turns
  import opened Endings
  import Window

  const KEEP_RECENT: nat := 6

  // ── the calls of one step ──────────────────────────────────────────

  lemma {:induction false} IdsOfResults(rs: seq<Content>)
    requires forall r :: r in rs ==> r.ToolResult?
    ensures |ResultIds(rs)| == |rs| && forall i :: 0 <= i < |rs| ==> ResultIds(rs)[i] == rs[i].id
  {
    if rs != [] {
      IdsOfResults(rs[1..]);
    }
  }

  // Make the calls of one step, each under its own id, until an answer ends the
  // run.
  method CallTools(uses: seq<Content>, step: nat, w: World)
    returns (results: seq<Content>, end: Option<FinishReason>, ghost issued: seq<string>)
    requires forall u :: u in uses ==> u.ToolUse?
    ensures end == FirstEnd(w, step, uses, 0)
    ensures issued == CallIds(uses, step, CallsMade(w, step, uses, 0))
    ensures end.None? ==> |issued| == |uses| && results == Results(w, step, uses)
  {
    hide ResultFor, Ends, CallId;
    results, issued := [], [];
    var i := 0;
    while i < |uses|
      invariant i <= |uses| && |results| == i
      invariant issued == CallIds(uses, step, i)
      invariant forall k :: 0 <= k < i ==> results[k] == ResultFor(uses[k].id, AnswerTo(w, step, uses[k]))
      invariant FirstEnd(w, step, uses, i) == FirstEnd(w, step, uses, 0)
      invariant CallsMade(w, step, uses, i) == CallsMade(w, step, uses, 0)
    {
      var use := uses[i];
      var callId := CallId(use.id, step);
      issued := issued + [callId];
      assert issued == CallIds(uses, step, i + 1);
      var answer := w.tool(callId, use.name, use.input);
      end := Ends(w, answer, use.name);
      if end.Some? {
        return;
      }
      results := results + [ResultFor(use.id, answer)];
      i := i + 1;
    }
    end := None;
  }

  // Whether two calls of one turn share an id.
  method SharesAnId(ids: seq<ToolUseId>) returns (b: bool)
    ensures b <==> !Distinct(ids)
  {
    var seen: set<ToolUseId> := {};
    for i := 0 to |ids|
      invariant Distinct(ids[..i])
      invariant forall k :: 0 <= k < i ==> ids[k] in seen
      invariant forall id :: id in seen ==> exists k :: 0 <= k < i && ids[k] == id
    {
      if ids[i] in seen {
        return true;
      }
      seen := seen + {ids[i]};
    }
    assert ids[..|ids|] == ids;
    return false;
  }

  // ── what a run adds ────────────────────────────────────────────────

  function Results(w: World, step: nat, uses: seq<Content>): (rs: seq<Content>)
    requires forall u :: u in uses ==> u.ToolUse?
    ensures |rs| == |uses| && forall i :: 0 <= i < |uses| ==> rs[i] == ResultFor(uses[i].id, AnswerTo(w, step, uses[i]))
  {
    seq(|uses|, i requires 0 <= i < |uses| => ResultFor(uses[i].id, AnswerTo(w, step, uses[i])))
  }

  // A model turn as a message, if there was one.
  function Reply(a: TurnAnswer): seq<Message> {
    if a.Replied? then [Message(Assistant, a.turn.content)] else []
  }

  // The task, and then, for each of the first k steps: what was said before
  // it, the model's turn, and the results of its calls.
  function AddedBy(w: World, task: string, k: nat): seq<Message> {
    if k == 0 then [UserText(task)]
    else
      var before := AddedBy(w, task, k - 1) + Told(w.said(k - 1)) + Reply(w.turn(k));
      if w.turn(k).Replied? then before + [Message(User, Results(w, k, Uses(w.turn(k).turn.content)))] else before
  }

  // Everything a run that stopped with this step had added.
  ghost function FinalAdded(w: World, task: string, steps: nat): seq<Message> {
    if steps > 0 && TurnEnd(w, steps).Some? then
      AddedBy(w, task, steps - 1) + Told(w.said(steps - 1)) + Reply(w.turn(steps))
    else if w.cancelled(steps) then AddedBy(w, task, steps)
    else AddedBy(w, task, steps) + Told(w.said(steps))
  }

  // ── what is in it ──────────────────────────────────────────────────

  // What the assistant said, message by message, and what users wrote, text by
  // text.
  function OfAssistant(ms: seq<Message>): seq<seq<Content>> {
    if ms == [] then []
    else (if ms[0].role == Assistant then [ms[0].content] else []) + OfAssistant(ms[1..])
  }

  function OfUser(ms: seq<Message>): seq<string> {
    if ms == [] then []
    else (if ms[0].role == User then Texts(ms[0].content) else []) + OfUser(ms[1..])
  }

  // The first n turns that came, and what was said before them.
  ghost function Replies(w: World, n: nat): seq<seq<Content>> {
    if n == 0 then [] else Replies(w, n - 1) + if w.turn(n).Replied? then [w.turn(n).turn.content] else []
  }

  ghost function SaidBefore(w: World, n: nat): seq<string> {
    if n == 0 then [] else SaidBefore(w, n - 1) + w.said(n - 1)
  }

  lemma PartsHead(ms: seq<Message>)
    requires ms != []
    ensures OfAssistant(ms) == (if ms[0].role == Assistant then [ms[0].content] else []) + OfAssistant(ms[1..])
    ensures OfUser(ms) == (if ms[0].role == User then Texts(ms[0].content) else []) + OfUser(ms[1..])
  {
  }

  lemma OneStepMore(w: World, task: string, k: nat)
    requires k > 0
    ensures Replies(w, k) == Replies(w, k - 1) + if w.turn(k).Replied? then [w.turn(k).turn.content] else []
    ensures [task] + SaidBefore(w, k) == [task] + SaidBefore(w, k - 1) + w.said(k - 1)
  {
  }

  lemma {:induction false} PartsConcat(a: seq<Message>, b: seq<Message>)
    ensures OfAssistant(a + b) == OfAssistant(a) + OfAssistant(b)
    ensures OfUser(a + b) == OfUser(a) + OfUser(b)
  {
    if a == [] {
      assert a + b == b;
    } else {
      assert (a + b)[1..] == a[1..] + b && (a + b)[0] == a[0];
      PartsHead(a);
      PartsHead(a + b);
      hide OfAssistant, OfUser, Texts;
      PartsConcat(a[1..], b);
      Assoc(if a[0].role == Assistant then [a[0].content] else [], OfAssistant(a[1..]), OfAssistant(b));
      Assoc(if a[0].role == User then Texts(a[0].content) else [], OfUser(a[1..]), OfUser(b));
    }
  }

  lemma {:induction false} PartsOfTold(said: seq<string>)
    ensures OfAssistant(Told(said)) == [] && OfUser(Told(said)) == said
  {
    if said != [] {
      PartsOfTold(said[1..]);
      assert Told(said)[1..] == Told(said[1..]);
      assert [Text(said[0])][1..] == [];
      assert Texts([Text(said[0])]) == [said[0]] + Texts([]);
    }
  }

  lemma {:induction false} NoTexts(cs: seq<Content>)
    requires forall c :: c in cs ==> c.ToolResult?
    ensures Texts(cs) == []
  {
    if cs != [] {
      assert cs[0] in cs;
      NoTexts(cs[1..]);
    }
  }

  lemma PartsOfOne(m: Message)
    ensures OfAssistant([m]) == if m.role == Assistant then [m.content] else []
    ensures OfUser([m]) == if m.role == User then Texts(m.content) else []
  {
    hide Texts;
    assert [m][1..] == [];
  }

  // The results a step hands back, as a message, if it came so far.
  function Returned(w: World, k: nat): seq<Message> {
    if w.turn(k).Replied? then [Message(User, Results(w, k, Uses(w.turn(k).turn.content)))] else []
  }

  lemma PartsOfReturned(w: World, k: nat)
    ensures OfAssistant(Returned(w, k)) == [] && OfUser(Returned(w, k)) == []
  {
    if w.turn(k).Replied? {
      var results := Results(w, k, Uses(w.turn(k).turn.content));
      NoTexts(results);
      PartsOfOne(Message(User, results));
    }
  }

  lemma {:induction false} AddedParts(w: World, task: string, k: nat)
    ensures OfAssistant(AddedBy(w, task, k)) == Replies(w, k)
    ensures OfUser(AddedBy(w, task, k)) == [task] + SaidBefore(w, k)
  {
    if k == 0 {
      PartsOfTold([task]);
      assert Told([task]) == [UserText(task)];
    } else {
      var before := AddedBy(w, task, k - 1);
      var asked := before + Told(w.said(k - 1)) + Reply(w.turn(k));
      AddedParts(w, task, k - 1);
      assert AddedBy(w, task, k) == asked + Returned(w, k);
      TurnParts(w, before, k);
      PartsOfReturned(w, k);
      PartsConcat(asked, Returned(w, k));
      OneStepMore(w, task, k);
      hide OfUser, OfAssistant, AddedBy, Told, Reply, Returned, SaidBefore, Replies;
    }
  }

  lemma TurnParts(w: World, before: seq<Message>, k: nat)
    requires k > 0
    ensures var all := before + Told(w.said(k - 1)) + Reply(w.turn(k));
            && OfAssistant(all) == OfAssistant(before) + (if w.turn(k).Replied? then [w.turn(k).turn.content] else [])
            && OfUser(all) == OfUser(before) + w.said(k - 1)
  {
    PartsOfTold(w.said(k - 1));
    PartsConcat(before, Told(w.said(k - 1)));
    PartsConcat(before + Told(w.said(k - 1)), Reply(w.turn(k)));
    if w.turn(k).Replied? {
      PartsOfOne(Message(Assistant, w.turn(k).turn.content));
    }
    hide Told, OfUser, OfAssistant;
  }

  lemma ToldParts(w: World, task: string, k: nat)
    ensures var all := AddedBy(w, task, k) + Told(w.said(k));
            OfAssistant(all) == Replies(w, k) && OfUser(all) == [task] + SaidBefore(w, k + 1)
  {
    AddedParts(w, task, k);
    PartsOfTold(w.said(k));
    PartsConcat(AddedBy(w, task, k), Told(w.said(k)));
    OneStepMore(w, task, k + 1);
    hide OfUser, OfAssistant, Told, AddedBy, Replies, SaidBefore;
  }

  lemma RepliedParts(w: World, task: string, k: nat)
    requires k > 0
    ensures var all := AddedBy(w, task, k - 1) + Told(w.said(k - 1)) + Reply(w.turn(k));
            OfAssistant(all) == Replies(w, k) && OfUser(all) == [task] + SaidBefore(w, k)
  {
    hide *;
    AddedParts(w, task, k - 1);
    TurnParts(w, AddedBy(w, task, k - 1), k);
    OneStepMore(w, task, k);
  }

  // A run adds every turn the model gave, in order, and, in order, the task and
  // everything said before a turn or before the run found it had to stop.
  lemma {:induction false} AddedExactly(w: World, task: string, steps: nat)
    ensures var added := FinalAdded(w, task, steps);
            && OfAssistant(added) == Replies(w, steps)
            && OfUser(added) == [task] + SaidBefore(w, if GoesOn(w, steps) && !w.cancelled(steps) then steps + 1 else steps)
  {
    AtTheStart(w, Completed);
    AddedParts(w, task, steps);
    ToldParts(w, task, steps);
    if steps > 0 {
      TurnMeaning(w, steps, Completed);
      RepliedParts(w, task, steps);
    }
    hide TurnEnd, GoesOn, OfUser, OfAssistant, Told, Reply, AddedBy, Replies, SaidBefore;
  }

  // One result for each of the calls, telling what the tool answered to it.
  ghost predicate TellsAll(w: World, k: nat, cs: seq<Content>, m: Message) {
    && m.role == User && |m.content| == |Uses(cs)|
    && forall i :: 0 <= i < |Uses(cs)| ==> Tells(m.content[i], Uses(cs)[i].id, Answer(w, k, Uses(cs)[i]))
  }

  ghost predicate TurnAt(w: World, k: nat, added: seq<Message>, p: int) {
    && 0 <= p < |added| - 1 && w.turn(k).Replied?
    && added[p] == Message(Assistant, w.turn(k).turn.content)
    && TellsAll(w, k, w.turn(k).turn.content, added[p + 1])
  }

  // Behind the turn of every step that went on come the answers to its calls.
  lemma {:induction false} EachTurnAnswered(w: World, task: string, steps: nat, k: nat)
    requires 1 <= k <= steps && GoesOn(w, k) && forall i :: k <= i < steps ==> GoesOn(w, i)
    ensures exists p :: TurnAt(w, k, FinalAdded(w, task, steps), p)
  {
    var cs := w.turn(k).turn.content;
    var before := AddedBy(w, task, k - 1) + Told(w.said(k - 1));
    var done, added := AddedBy(w, task, k), FinalAdded(w, task, steps);
    assert done == before + Reply(w.turn(k)) + [Message(User, Results(w, k, Uses(cs)))];
    ResultsTell(w, k, cs);
    DoneStays(w, task, steps, k);
    hide Told, Reply, AddedBy, FinalAdded, TellsAll, GoesOn;
    var p := |before|;
    assert done[p] == Message(Assistant, cs) && done[p + 1] == Message(User, Results(w, k, Uses(cs))) by {
      assert Reply(w.turn(k)) == [Message(Assistant, cs)] by {
        ReplyOf(w.turn(k));
      }
    }
    assert added[p] == done[p] && added[p + 1] == done[p + 1];
    assert TurnAt(w, k, added, p);
  }

  lemma ReplyOf(a: TurnAnswer)
    ensures a.Replied? ==> Reply(a) == [Message(Assistant, a.turn.content)]
  {
  }

  lemma ResultsTell(w: World, k: nat, cs: seq<Content>)
    ensures TellsAll(w, k, cs, Message(User, Results(w, k, Uses(cs))))
  {
    hide Tells, Ending;
    forall i | 0 <= i < |Uses(cs)|
      ensures AnswerTo(w, k, Uses(cs)[i]) == Answer(w, k, Uses(cs)[i])
    {
      EndsMeaning(w, k, Uses(cs)[i]);
    }
  }

  lemma {:induction false} DoneStays(w: World, task: string, steps: nat, k: nat)
    requires k <= steps && GoesOn(w, k)
    ensures AddedBy(w, task, k) <= FinalAdded(w, task, steps)
    decreases steps - k
  {
    if k < steps {
      AddedGrows(w, task, k, steps - 1);
    } else if k > 0 {
      TurnMeaning(w, k, Completed);
    }
    hide TurnEnd, GoesOn, Told, Reply, AddedBy;
  }

  lemma {:induction false} AddedGrows(w: World, task: string, k: nat, n: nat)
    requires k <= n
    ensures AddedBy(w, task, k) <= AddedBy(w, task, n)
    decreases n - k
  {
    hide Results, Told, Reply;
    if k < n {
      AddedGrows(w, task, k, n - 1);
    }
  }

  // ── what the transcript is ─────────────────────────────────────────

  // A conversation cut down to its budget.
  function Shrunk(cfg: Config, ms: seq<Message>): seq<Message> {
    DropFirst(ms, Reach(ms, cfg.contextBudget, KEEP_RECENT))
  }

  // The messages once k steps are done, before they are cut down again.
  function AfterSteps(cfg: Config, w: World, history: seq<Message>, task: string, k: nat): seq<Message> {
    if k == 0 then history + [UserText(task)]
    else
      var asked := Shrunk(cfg, AfterSteps(cfg, w, history, task, k - 1)) + Told(w.said(k - 1)) + Reply(w.turn(k));
      if w.turn(k).Replied? then asked + [Message(User, Results(w, k, Uses(w.turn(k).turn.content)))] else asked
  }

  // What the model is asked after k steps.
  function Asked(cfg: Config, w: World, history: seq<Message>, task: string, k: nat): seq<Message> {
    Shrunk(cfg, AfterSteps(cfg, w, history, task, k)) + Told(w.said(k))
  }

  // Every request so far was a legal window.
  ghost predicate RequestsLegal(cfg: Config, w: World, history: seq<Message>, task: string, steps: nat) {
    forall k :: 0 <= k < steps ==> Window.Legal(Asked(cfg, w, history, task, k))
  }

  // What is left of the conversation before a request fits the budget, or its
  // results but for those of the last six messages are all gone.
  lemma {:induction false} RequestsFit(cfg: Config, w: World, history: seq<Message>, task: string, k: nat)
    ensures var left := AfterSteps(cfg, w, history, task, k);
            exists cut :: Asked(cfg, w, history, task, k) == cut + Told(w.said(k)) && |cut| == |left| && SameShape(left, cut)
                          && (Size(cut) <= cfg.contextBudget || (|cut| > 6 ==> Live(cut[..|cut| - 6]) == 0))
  {
    var left := AfterSteps(cfg, w, history, task, k);
    CompactEnds(left, cfg.contextBudget, 6);
    DropFirstShape(left, Reach(left, cfg.contextBudget, 6));
    hide SameShape, Size, Live, AfterSteps;
    assert Asked(cfg, w, history, task, k) == Shrunk(cfg, left) + Told(w.said(k));
  }

  // How many results a cut replaces, and how many the first n cuts of a run.
  function DroppedFrom(cfg: Config, ms: seq<Message>): nat {
    Live(ms[..Reach(ms, cfg.contextBudget, KEEP_RECENT)])
  }

  function DroppedIn(cfg: Config, w: World, history: seq<Message>, task: string, n: nat): nat {
    if n == 0 then 0
    else DroppedIn(cfg, w, history, task, n - 1) + DroppedFrom(cfg, AfterSteps(cfg, w, history, task, n - 1))
  }

  // How many cuts a run that stopped with this step made.
  ghost function CutsMade(w: World, steps: nat): nat {
    if steps > 0 && TurnEnd(w, steps).Some? then steps else steps + 1
  }

  ghost function FinalTranscript(cfg: Config, w: World, history: seq<Message>, task: string, steps: nat): seq<Message> {
    if steps > 0 && TurnEnd(w, steps).Some? then Asked(cfg, w, history, task, steps - 1) + Reply(w.turn(steps))
    else if w.cancelled(steps) then Shrunk(cfg, AfterSteps(cfg, w, history, task, steps))
    else Asked(cfg, w, history, task, steps)
  }

  function Last(ms: seq<Message>): Option<Message> {
    if ms == [] then None else Some(ms[|ms| - 1])
  }

  // ── the loop ───────────────────────────────────────────────────────

  // One run in progress.
  class Run {
    const cfg: Config
    const w: World
    const task: string
    const history: seq<Message>
    const transcript: Transcript
    var step: nat
    var spent: Usage
    // Every message this run has pushed, as it was pushed.
    ghost var added: seq<Message>
    // Every call id it has used, in order, and how many results it has dropped.
    ghost var issued: seq<string>
    ghost var dropped: nat

    ghost predicate Valid()
      reads this, transcript
    {
      && SameShape(history + added, transcript.messages)
      && RunShape(added)
      && added != [] && added[0] == UserText(task)
      && step <= cfg.maxSteps
      && spent == Spent(w, step)
      && WithinBudget(cfg, w, step)
      && dropped + Live(transcript.messages) == Live(history + added)
      && NoResultsFromModel(w)
    }

    constructor (cfg: Config, w: World, task: string, history: seq<Message>)
      requires NoResultsFromModel(w)
      ensures Valid() && fresh(transcript)
      ensures this.cfg == cfg && this.w == w && this.task == task && this.history == history
      ensures step == 0 && added == [UserText(task)] && issued == [] && dropped == 0
      ensures !Waiting(added) && transcript.messages == history + [UserText(task)]
    {
      var first := UserText(task);
      PlainText(task);
      this.cfg, this.w, this.task, this.history := cfg, w, task, history;
      transcript := new Transcript(history + [first]);
      step, spent := 0, Usage(0, 0);
      added, issued, dropped := [first], [], 0;
      new;
      SameShapeItself(history + [first]);
    }

    method Push(m: Message)
      requires Valid()
      requires RunShape(added + [m])
      modifies this, transcript
      ensures Valid()
      ensures added == old(added) + [m] && transcript.messages == old(transcript.messages) + [m]
      ensures step == old(step) && issued == old(issued) && dropped == old(dropped)
    {
      SameShapePush(history + added, transcript.messages, m);
      assert history + (added + [m]) == history + added + [m];
      transcript.Push(m);
      added := added + [m];
    }

    // The top of a step: everything that is checked before money is spent.
    method BeforeTurn() returns (end: Option<FinishReason>)
      requires Valid() && !Waiting(added) && NoneEmpty(added)
      requires added == AddedBy(w, task, step) && transcript.messages == AfterSteps(cfg, w, history, task, step)
      modifies this, transcript
      ensures Valid() && !Waiting(added) && NoneEmpty(added)
      ensures step == old(step) && issued == old(issued)
      ensures dropped == old(dropped) + DroppedFrom(cfg, AfterSteps(cfg, w, history, task, step))
      ensures end == StopBefore(cfg, w, step)
      ensures added == if w.cancelled(step) then old(added) else old(added) + Told(w.said(step))
      ensures transcript.messages == if w.cancelled(step) then Shrunk(cfg, AfterSteps(cfg, w, history, task, step))
                                     else Asked(cfg, w, history, task, step)
      ensures end == None ==> step < cfg.maxSteps && WithinBudget(cfg, w, step + 1)
      ensures end == None && Window.Legal(history) ==> Window.Legal(transcript.messages)
    {
      hide SameShape, RunShape, Live, AddedBy, NoResultsFromModel, Waiting, Spent, WithinBudget, Shrunk, AfterSteps, NoneEmpty,
        DroppedFrom;
      Shrink();
      if w.cancelled(step) {
        return Some(Cancelled);
      }
      Hear(w.said(step));
      if cfg.tokenBudget.Some? && spent.Tokens() >= cfg.tokenBudget.value {
        return Some(TokenBudget(spent.Tokens(), cfg.tokenBudget.value));
      }
      BudgetLeft(cfg, w, step);
      if step >= cfg.maxSteps {
        return Some(StepLimit(cfg.maxSteps));
      }
      RequestIsLegal();
      end := None;
    }

    // What goes to the model is a legal window, if the run began with one.
    lemma RequestIsLegal()
      requires Valid() && !Waiting(added) && NoneEmpty(added)
      ensures Window.Legal(history) ==> Window.Legal(transcript.messages)
    {
      if Window.Legal(history) {
        LegalRequest(history, added);
        ShapeKeepsLegal(history + added, transcript.messages);
      }
    }

    method Shrink()
      requires Valid()
      modifies this, transcript
      ensures Valid()
      ensures step == old(step) && issued == old(issued) && added == old(added)
      ensures transcript.messages == Shrunk(cfg, old(transcript.messages))
      ensures dropped == old(dropped) + DroppedFrom(cfg, old(transcript.messages))
    {
      ghost var was := transcript.messages;
      var n := transcript.Compact(cfg.contextBudget, KEEP_RECENT);
      SameShapeTrans(history + added, was, transcript.messages);
      CompactCounts(was, Reach(was, cfg.contextBudget, KEEP_RECENT));
      dropped := dropped + n;
    }

    // Things a person said become part of the conversation.
    method Hear(said: seq<string>)
      requires Valid() && !Waiting(added)
      modifies this, transcript
      ensures Valid() && !Waiting(added)
      ensures step == old(step) && issued == old(issued) && dropped == old(dropped)
      ensures added == old(added) + Told(said) && transcript.messages == old(transcript.messages) + Told(said)
      ensures NoneEmpty(old(added)) ==> NoneEmpty(added)
    {
      hide Valid;
      var i := 0;
      while i < |said|
        invariant i <= |said|
        invariant Valid() && !Waiting(added)
        invariant step == old(step) && issued == old(issued) && dropped == old(dropped)
        invariant added == old(added) + Told(said[..i]) && transcript.messages == old(transcript.messages) + Told(said[..i])
      {
        HearOne(said[i]);
        ToldOneMore(said, i);
        i := i + 1;
      }
      assert said[..i] == said;
    }

    method HearOne(text: string)
      requires Valid() && !Waiting(added)
      modifies this, transcript
      ensures Valid() && !Waiting(added)
      ensures step == old(step) && issued == old(issued) && dropped == old(dropped)
      ensures added == old(added) + [UserText(text)] && transcript.messages == old(transcript.messages) + [UserText(text)]
    {
      PlainText(text);
      PushPlain(added, UserText(text));
      Push(UserText(text));
    }

    // One model turn. The tools it asks for, or how the run ends.
    method ModelTurn() returns (uses: seq<Content>, end: Option<FinishReason>)
      requires Valid() && !Waiting(added) && NoneEmpty(added)
      requires step < cfg.maxSteps && WithinBudget(cfg, w, step + 1)
      modifies this, transcript
      ensures Valid()
      ensures step == old(step) + 1 && issued == old(issued) && dropped == old(dropped)
      ensures added == old(added) + Reply(w.turn(step))
      ensures transcript.messages == old(transcript.messages) + Reply(w.turn(step))
      ensures end == EndOfTurn(w.turn(step))
      ensures forall r :: end == Some(r) <==> ByTheTurn(w, step, r)
      ensures Waiting(added) ==> w.turn(step).Replied?
      ensures end == None ==> w.turn(step).Replied? && Last(added) == Some(Message(Assistant, w.turn(step).turn.content))
      ensures end == None ==> NoneEmpty(added)
      ensures end == None ==> uses == Uses(w.turn(step).turn.content) && uses != []
                              && Distinct(UseIds(w.turn(step).turn.content))
    {
      hide SameShape, RunShape, Live, Distinct, WithinBudget;
      var answer := w.turn(step + 1);
      step := step + 1;
      spent := spent.Plus(Cost(answer));
      uses := [];
      if answer.Replied? {
        var assistant := Message(Assistant, answer.turn.content);
        PushPlain(added, assistant);
        Push(assistant);
        if answer.turn.stop == WantsTools {
          uses := Uses(answer.turn.content);
        }
      }
      end := Judged(answer, uses);
      hide ByTheTurn;
      forall r
        ensures EndOfTurn(w.turn(step)) == Some(r) <==> ByTheTurn(w, step, r)
      {
        JudgedEnd(w, step, r);
      }
    }

    // Run the tools the last message asks for and hand their results back.
    method ToolTurn(uses: seq<Content>) returns (end: Option<FinishReason>)
      requires Valid() && step > 0
      requires w.turn(step).Replied? && Last(added) == Some(Message(Assistant, w.turn(step).turn.content))
      requires uses == Uses(w.turn(step).turn.content) && uses != []
      requires Distinct(UseIds(w.turn(step).turn.content)) && NoneEmpty(added)
      modifies this, transcript
      ensures Valid() && step == old(step) && dropped == old(dropped)
      ensures issued == old(issued) + CallIds(uses, step, CallsMade(w, step, uses, 0))
      ensures end == FirstEnd(w, step, uses, 0)
      ensures end.None? ==> !Waiting(added) && NoneEmpty(added)
      ensures end.None? ==> added == old(added) + [Message(User, Results(w, step, uses))]
                            && transcript.messages == old(transcript.messages) + [Message(User, Results(w, step, uses))]
      ensures end.Some? ==> added == old(added) && transcript.messages == old(transcript.messages)
    {
      var results: seq<Content>;
      ghost var more: seq<string>;
      hide SameShape, RunShape, Live, Distinct, IsAnswer, NoResultsFromModel, Spent, WithinBudget, UseIds, ResultIds,
        ResultFor, Ends, Results, FirstEnd, CallIds, CallsMade;
      results, end, more := CallTools(uses, step, w);
      issued := issued + more;
      if end.Some? {
        return;
      }
      MakesAnswer(added[|added| - 1], uses, results);
      PushAnswer(added, Message(User, results));
      Push(Message(User, results));
    }

    // Steps until one of them ends the run.
    method Go() returns (end: FinishReason)
      requires Valid() && !Waiting(added) && NoneEmpty(added) && step == 0 && issued == [] && dropped == 0
      requires added == AddedBy(w, task, 0) && transcript.messages == AfterSteps(cfg, w, history, task, 0)
      modifies this, transcript
      ensures Valid()
      ensures Stops(cfg, w, step, end)
      ensures added == FinalAdded(w, task, step) && transcript.messages == FinalTranscript(cfg, w, history, task, step)
      ensures issued == CallIdsOf(w, step) && dropped == DroppedIn(cfg, w, history, task, CutsMade(w, step))
      ensures Window.Legal(history) ==> RequestsLegal(cfg, w, history, task, step)
      ensures Waiting(added) ==> step > 0 && w.turn(step).Replied? && TurnEnd(w, step) == Some(end)
    {
      hide *;
      var stop: Option<FinishReason>;
      NothingBefore(cfg, w, history, task);
      while true
        invariant Valid() && !Waiting(added) && NoneEmpty(added)
        invariant added == AddedBy(w, task, step) && transcript.messages == AfterSteps(cfg, w, history, task, step)
        invariant issued == CallIdsOf(w, step) && dropped == DroppedIn(cfg, w, history, task, step)
        invariant Window.Legal(history) ==> RequestsLegal(cfg, w, history, task, step)
        invariant NotBefore(cfg, w, step) && (step > 0 ==> TurnEnd(w, step).None?)
        decreases cfg.maxSteps - step
      {
        stop := BeforeTurn();
        OneMoreCut(cfg, w, history, task, step);
        if stop.Some? {
          StoppedBeforeTurn(cfg, w, history, task, step, stop.value);
          return stop.value;
        }
        AskedIs(cfg, w, history, task, step);
        NotBeforeNext(cfg, w, step);
        var uses: seq<Content>;
        uses, stop := ModelTurn();
        EndedByModel(w, step);
        if stop.Some? {
          StoppedInTurn(cfg, w, history, task, step, stop.value);
          return stop.value;
        }
        stop := ToolTurn(uses);
        if stop.Some? {
          StoppedInTurn(cfg, w, history, task, step, stop.value);
          return stop.value;
        }
        StepDone(cfg, w, history, task, step);
      }
    }
  }

  lemma OneMoreCut(cfg: Config, w: World, history: seq<Message>, task: string, k: nat)
    ensures DroppedIn(cfg, w, history, task, k + 1)
            == DroppedIn(cfg, w, history, task, k) + DroppedFrom(cfg, AfterSteps(cfg, w, history, task, k))
    ensures RequestsLegal(cfg, w, history, task, k) && Window.Legal(Asked(cfg, w, history, task, k))
            ==> RequestsLegal(cfg, w, history, task, k + 1)
  {
    hide DroppedFrom, AfterSteps, Asked, Window.Legal;
  }

  lemma NothingBefore(cfg: Config, w: World, history: seq<Message>, task: string)
    ensures NotBefore(cfg, w, 0) && RequestsLegal(cfg, w, history, task, 0)
    ensures CallIdsOf(w, 0) == [] && DroppedIn(cfg, w, history, task, 0) == 0
  {
  }

  lemma NotBeforeNext(cfg: Config, w: World, k: nat)
    requires NotBefore(cfg, w, k) && (k > 0 ==> TurnEnd(w, k).None?) && StopBefore(cfg, w, k).None?
    ensures NotBefore(cfg, w, k + 1) && !w.cancelled(k)
  {
    hide TurnEnd;
  }

  lemma AskedIs(cfg: Config, w: World, history: seq<Message>, task: string, k: nat)
    ensures Asked(cfg, w, history, task, k) == Shrunk(cfg, AfterSteps(cfg, w, history, task, k)) + Told(w.said(k))
  {
  }

  lemma StoppedBeforeTurn(cfg: Config, w: World, history: seq<Message>, task: string, k: nat, reason: FinishReason)
    requires NotBefore(cfg, w, k) && (k > 0 ==> TurnEnd(w, k).None?) && StopBefore(cfg, w, k) == Some(reason)
    ensures Stops(cfg, w, k, reason)
    ensures FinalAdded(w, task, k)
            == if w.cancelled(k) then AddedBy(w, task, k) else AddedBy(w, task, k) + Told(w.said(k))
    ensures FinalTranscript(cfg, w, history, task, k)
            == if w.cancelled(k) then Shrunk(cfg, AfterSteps(cfg, w, history, task, k)) else Asked(cfg, w, history, task, k)
    ensures CutsMade(w, k) == k + 1
  {
    hide NotBefore, TurnEnd, AddedBy, AfterSteps, Shrunk, Asked;
  }

  lemma StoppedInTurn(cfg: Config, w: World, history: seq<Message>, task: string, k: nat, reason: FinishReason)
    requires k > 0 && NotBefore(cfg, w, k) && TurnEnd(w, k) == Some(reason)
    ensures Stops(cfg, w, k, reason)
    ensures FinalAdded(w, task, k) == AddedBy(w, task, k - 1) + Told(w.said(k - 1)) + Reply(w.turn(k))
    ensures FinalTranscript(cfg, w, history, task, k) == Asked(cfg, w, history, task, k - 1) + Reply(w.turn(k))
    ensures CutsMade(w, k) == k
  {
    hide NotBefore, TurnEnd, AddedBy, AfterSteps, Shrunk, Asked;
  }

  lemma EndedByModel(w: World, k: nat)
    ensures EndOfTurn(w.turn(k)).Some? ==> TurnEnd(w, k) == EndOfTurn(w.turn(k))
    ensures EndOfTurn(w.turn(k)).None? ==> w.turn(k).Replied?
                                           && TurnEnd(w, k) == FirstEnd(w, k, Uses(w.turn(k).turn.content), 0)
    ensures k > 0 ==>
              var uses := if EndOfTurn(w.turn(k)).Some? then [] else Uses(w.turn(k).turn.content);
              CallIdsOf(w, k) == CallIdsOf(w, k - 1) + CallIds(uses, k, CallsMade(w, k, uses, 0))
  {
    hide FirstEnd;
  }

  lemma StepDone(cfg: Config, w: World, history: seq<Message>, task: string, k: nat)
    requires k > 0 && w.turn(k).Replied?
    ensures var results := [Message(User, Results(w, k, Uses(w.turn(k).turn.content)))];
            && AddedBy(w, task, k) == AddedBy(w, task, k - 1) + Told(w.said(k - 1)) + Reply(w.turn(k)) + results
            && AfterSteps(cfg, w, history, task, k) == Asked(cfg, w, history, task, k - 1) + Reply(w.turn(k)) + results
  {
    hide Shrunk;
  }

  lemma ToldOneMore(said: seq<string>, i: nat)
    requires i < |said|
    ensures Told(said[..i + 1]) == Told(said[..i]) + [UserText(said[i])]
  {
  }

  lemma BudgetLeft(cfg: Config, w: World, step: nat)
    requires WithinBudget(cfg, w, step)
    requires cfg.tokenBudget.Some? ==> Spent(w, step).Tokens() < cfg.tokenBudget.value
    ensures WithinBudget(cfg, w, step + 1)
  {
  }

  // Whether a model turn ends the run, and why.
  method Judged(answer: TurnAnswer, uses: seq<Content>) returns (end: Option<FinishReason>)
    requires answer.Replied? && answer.turn.stop == WantsTools ==> uses == Uses(answer.turn.content)
    ensures end == EndOfTurn(answer)
  {
    match answer {
      case Failed(transient) => return Some(ModelFailed(transient));
      case StoppedMidTurn => return Some(Cancelled);
      case Replied(turn) =>
        match turn.stop {
          case EndTurn => return Some(Completed);
          case MaxTokens => return Some(Truncated);
          case Declining => return Some(Declined);
          case WantsTools =>
            if |uses| == 0 {
              return Some(ModelFailed(false));
            }
            var twice := SharesAnId(UseIds(turn.content));
            return if twice then Some(ModelFailed(false)) else None;
        }
    }
  }

  lemma MakesAnswer(q: Message, uses: seq<Content>, results: seq<Content>)
    requires uses == Uses(q.content) && uses != []
    requires |results| == |uses|
    requires forall i :: 0 <= i < |uses| ==> results[i].ToolResult? && results[i].id == uses[i].id
    ensures IsAnswer(q, Message(User, results))
  {
    IdsOfResults(results);
    assert ResultIds(results) == UseIds(q.content);
  }

  lemma PlainText(text: string)
    ensures UseIds(UserText(text).content) == [] && ResultIds(UserText(text).content) == []
    ensures RunShape([UserText(text)]) && !Waiting([UserText(text)])
    ensures LiveBlocks(UserText(text).content) == 0
  {
    var cs := UserText(text).content;
    assert cs[1..] == [];
    assert UseIds(cs) == UseIds(cs[1..]);
    assert ResultIds(cs) == ResultIds(cs[1..]);
    assert LiveBlocks(cs) == LiveBlocks(cs[1..]);
  }

  lemma SameShapeItself(ms: seq<Message>)
    ensures SameShape(ms, ms)
  {
    forall i | 0 <= i < |ms|
      ensures SameMessage(ms[i], ms[i])
    {
      assert forall j :: 0 <= j < |ms[i].content| ==> SameBlock(ms[i].content[j], ms[i].content[j]);
    }
  }

  lemma SameShapePush(a: seq<Message>, b: seq<Message>, m: Message)
    requires SameShape(a, b)
    ensures SameShape(a + [m], b + [m])
    ensures Live(b + [m]) - Live(b) == Live(a + [m]) - Live(a)
  {
    SameShapeItself([m]);
    forall i | 0 <= i < |a| + 1
      ensures SameMessage((a + [m])[i], (b + [m])[i])
    {
      if i < |a| {
        assert SameMessage(a[i], b[i]);
      } else {
        assert SameMessage([m][0], [m][0]);
      }
    }
    LiveConcat(a, [m]);
    LiveConcat(b, [m]);
  }

  // Run a task to its end. Whatever the model, the tools and the person do:
  // - the run stops at the first step that has a reason to, with that reason;
  // - the transcript is the history and what the run added, cut down to the
  //   budget before every turn, so what was added is in it, in order, but for
  //   results that lost their text;
  // - the calls of every message it added are answered by the message right
  //   after, except those of the last message when a tool or the model's own
  //   turn ended the run;
  // - no more than `maxSteps` model turns are started, and none once the
  //   tokens spent have reached the budget;
  // - the calls made are the run's calls, in order, up to the one that ended
  //   it, and no call id is used twice;
  // - the results replaced are those each cut replaced, none of them twice;
  // - every request was a legal window, if the history was one;
  // - the text is the last thing the assistant said in the run, or, when it
  //   said nothing, the last thing it had said before.
  method Drive(cfg: Config, w: World, history: seq<Message>, task: string)
    returns (out: Outcome, ghost added: seq<Message>, ghost issued: seq<string>)
    requires NoResultsFromModel(w)
    ensures forall i :: 0 <= i < out.steps ==> TurnFollows(cfg, w, i)
    ensures forall r :: out.reason == r <==> Because(cfg, w, out.steps, r)
    ensures Stops(cfg, w, out.steps, out.reason)
    ensures out.transcript == FinalTranscript(cfg, w, history, task, out.steps)
    ensures added == FinalAdded(w, task, out.steps)
    ensures SameShape(history + added, out.transcript)
    ensures added != [] && added[0] == UserText(task)
    ensures RunShape(added)
    ensures Waiting(added) ==> out.steps > 0 && w.turn(out.steps).Replied? && TurnEnd(w, out.steps) == Some(out.reason)
    ensures out.steps <= cfg.maxSteps && WithinBudget(cfg, w, out.steps)
    ensures out.usage == Usage(InputTokens(w, out.steps), OutputTokens(w, out.steps))
    ensures issued == CallIdsOf(w, out.steps) && Distinct(issued)
    ensures DroppedIn(cfg, w, history, task, CutsMade(w, out.steps)) + Live(out.transcript) == Live(history + added)
    ensures Window.Legal(history) ==> RequestsLegal(cfg, w, history, task, out.steps)
    ensures out.text == if exists m :: m in added && SaysSomething(m) then FinalText(added) else FinalText(history)
  {
    hide Stops, FinalTranscript, FinalAdded, RunShape, Waiting, TurnEnd, WithinBudget, Spent, CallIdsOf, DroppedIn, CutsMade,
      Live, RequestsLegal, Speaks, SaysSomething, FinalText, Distinct, NoneEmpty, AddedBy, AfterSteps, SameShape, Because, TurnFollows,
      InputTokens, OutputTokens;
    NoneEmptyAtFirst(task);
    FirstOfAll(cfg, w, history, task);
    var run := new Run(cfg, w, task, history);
    var end := run.Go();
    out := Outcome(end, run.step, FinalText(run.transcript.messages), run.transcript.messages, run.spent);
    added, issued := run.added, run.issued;
    CallIdsDistinct(w, run.step);
    SpentIsReported(w, run.step);
    ItsReasons(cfg, w, out.steps, out.reason);
    ShapeKeepsText(history + added, out.transcript);
    LastSaid(history, added);
    FinalTextMeaning(added);
  }

  lemma ItsReasons(cfg: Config, w: World, steps: nat, reason: FinishReason)
    requires Stops(cfg, w, steps, reason)
    ensures forall i :: 0 <= i < steps ==> TurnFollows(cfg, w, i)
    ensures forall r :: reason == r <==> Because(cfg, w, steps, r)
  {
    hide Stops, TurnFollows, Because;
    EndsBecause(cfg, w, steps, reason);
    forall r
      ensures reason == r <==> Because(cfg, w, steps, r)
    {
      EndsBecause(cfg, w, steps, r);
      if Because(cfg, w, steps, r) {
        StopsOnce(cfg, w, steps, reason, steps, r);
      }
    }
  }

  lemma NoneEmptyAtFirst(task: string)
    ensures NoneEmpty([UserText(task)])
  {
  }

  lemma FirstOfAll(cfg: Config, w: World, history: seq<Message>, task: string)
    ensures AddedBy(w, task, 0) == [UserText(task)]
    ensures AfterSteps(cfg, w, history, task, 0) == history + [UserText(task)]
  {
  }

  // Compaction leaves what was said alone.
  lemma {:induction false} SameTexts(a: seq<Content>, b: seq<Content>)
    requires |a| == |b| && forall j :: 0 <= j < |a| ==> SameBlock(a[j], b[j])
    ensures Texts(a) == Texts(b)
  {
    if a != [] {
      assert SameBlock(a[0], b[0]);
      forall j | 0 <= j < |a[1..]|
        ensures SameBlock(a[1..][j], b[1..][j])
      {
        assert SameBlock(a[j + 1], b[j + 1]);
      }
      SameTexts(a[1..], b[1..]);
    }
  }

  lemma {:induction false} ShapeKeepsText(a: seq<Message>, b: seq<Message>)
    requires SameShape(a, b)
    ensures FinalText(a) == FinalText(b)
  {
    if a != [] {
      var last := |a| - 1;
      assert SameMessage(a[last], b[last]);
      SameTexts(a[last].content, b[last].content);
      assert Speaks(a[last]) == Speaks(b[last]) && TextOf(a[last].content) == TextOf(b[last].content);
      hide Speaks, TextOf, FinalText;
      ShapeOfFront(a, b);
      ShapeKeepsText(a[..last], b[..last]);
      assert a == a[..last] + [a[last]] && b == b[..last] + [b[last]];
      FinalTextLast(a[..last], a[last]);
      FinalTextLast(b[..last], b[last]);
    }
  }

  lemma ShapeOfFront(a: seq<Message>, b: seq<Message>)
    requires SameShape(a, b) && a != []
    ensures SameShape(a[..|a| - 1], b[..|a| - 1])
  {
    hide SameMessage;
    var x, y := a[..|a| - 1], b[..|a| - 1];
    forall i | 0 <= i < |x|
      ensures SameMessage(x[i], y[i])
    {
      assert SameMessage(a[i], b[i]);
    }
  }

  // A run that says nothing reports the last thing said before it.
  lemma {:induction false} LastSaid(history: seq<Message>, added: seq<Message>)
    ensures FinalText(history + added) == if FinalText(added) != "" then FinalText(added) else FinalText(history)
    decreases |added|
  {
    if added == [] {
      assert history + added == history;
    } else {
      var last, front := added[|added| - 1], added[..|added| - 1];
      LastSaid(history, front);
      hide Speaks, TextOf, FinalText;
      assert added == front + [last] && history + added == (history + front) + [last];
      FinalTextLast(front, last);
      FinalTextLast(history + front, last);
    }
  }

  // A run overshoots its token budget by less than what its last turn cost.
  lemma {:induction false} OvershootsByOneTurn(cfg: Config, w: World, steps: nat)
    requires cfg.tokenBudget.Some? && steps > 0 && TurnFollows(cfg, w, steps - 1)
    ensures Tokens(w, steps) < cfg.tokenBudget.value + InputOf(w.turn(steps)) + OutputOf(w.turn(steps))
  {
    hide GoesOn;
    assert Tokens(w, steps) == Tokens(w, steps - 1) + InputOf(w.turn(steps)) + OutputOf(w.turn(steps));
  }
}
