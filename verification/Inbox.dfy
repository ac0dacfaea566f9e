// A Bot's inbox: handing work over, taking all of it, and putting back what a
// process that died in the middle had taken.

module Inbox {
  import opened Wrappers
  import opened Sequences
  import opened Lines
  import opened Codec

  datatype Handoff = Handoff(from: Option<string>, text: string, no: nat)

  // The three files an inbox is made of; None is a file that does not exist.
  datatype Files = Files(inbox: Option<Bytes>, taken: Option<Bytes>, recovering: Option<Bytes>)

  function Text(f: Option<Bytes>): Bytes {
    if f.None? then [] else f.value
  }

  // The handoffs a reader finds in a file.
  function Held(c: Codec<Handoff>, f: Option<Bytes>): seq<Handoff> {
    ParseFile(c, Text(f))
  }

  // A file of whole lines, each one a handoff.
  ghost predicate Whole(c: Codec<Handoff>, f: Option<Bytes>) {
    Text(f) == FileOf(c, Held(c, f))
  }

  lemma WholeFile(c: Codec<Handoff>, hs: seq<Handoff>)
    requires c.Sound()
    ensures Whole(c, Some(FileOf(c, hs))) && Held(c, Some(FileOf(c, hs))) == hs
  {
    ParseFileOf(c, hs);
  }

  lemma NoFile(c: Codec<Handoff>)
    ensures Whole(c, None) && Held(c, None) == []
  {
    assert LinesOf([]) == [];
  }

  lemma Glued(c: Codec<Handoff>, a: Option<Bytes>, b: Option<Bytes>)
    requires c.Sound() && Whole(c, a) && Whole(c, b)
    ensures Whole(c, Some(Text(a) + Text(b)))
    ensures Held(c, Some(Text(a) + Text(b))) == Held(c, a) + Held(c, b)
    ensures Text(a) <= Text(b) <==> Held(c, a) <= Held(c, b)
  {
    FileOfConcat(c, Held(c, a), Held(c, b));
    WholeFile(c, Held(c, a) + Held(c, b));
    FileOfPrefix(c, Held(c, a), Held(c, b));
  }

  // The number the next handoff gets.
  function NextNo(c: Codec<Handoff>, f: Option<Bytes>): nat {
    var hs := Held(c, f);
    if hs == [] then 0 else hs[|hs| - 1].no + 1
  }

  function Sent(c: Codec<Handoff>, f: Files, from: Option<string>, text: string): Handoff {
    Handoff(from, text, NextNo(c, f.inbox))
  }

  // One line appended to the inbox in a single write.
  function Delivered(c: Codec<Handoff>, f: Files, h: Handoff): Files {
    f.(inbox := Some(Text(f.inbox) + FileOf(c, [h])))
  }

  // Whether recovery will take the batch in `taken` to be in the inbox already.
  predicate LooksMerged(f: Files) {
    Text(f.taken) <= Text(f.inbox)
  }

  // ── one process at a time ──────────────────────────────────────────

  // What is left after recovery: nothing taken, and the taken bytes in front
  // of the inbox unless they were there already.
  function Recovered(f: Files): Files {
    if f.taken.None? then f
    else if LooksMerged(f) then f.(taken := None)
    else Files(Some(Text(f.taken) + Text(f.inbox)), None, None)
  }

  function Drained(f: Files): Files {
    if f.inbox.None? then f else f.(inbox := None, taken := None)
  }

  datatype SendError = NoSuchBot | SelfHandoff

  class Store {
    const codec: Codec<Handoff>
    const bots: set<string>
    const owner: string
    var files: Files

    constructor (codec: Codec<Handoff>, bots: set<string>, owner: string, files: Files)
      ensures this.codec == codec && this.bots == bots && this.owner == owner && this.files == files
    {
      this.codec, this.bots, this.owner, this.files := codec, bots, owner, files;
    }

    // Hand work to this Bot.
    method Send(from: Option<string>, text: string) returns (r: Result<Handoff, SendError>)
      modifies this
      ensures r.Err? ==> files == old(files)
      ensures r == Err(NoSuchBot) <==> owner !in bots
      ensures r == Err(SelfHandoff) <==> owner in bots && from == Some(owner)
      ensures r.Ok? ==> r.value == Sent(codec, old(files), from, text)
                        && files == Delivered(codec, old(files), r.value)
    {
      if owner !in bots {
        return Err(NoSuchBot);
      }
      if from == Some(owner) {
        return Err(SelfHandoff);
      }
      var h := Handoff(from, text, NextNo(codec, files.inbox));
      files := files.(inbox := Some(Text(files.inbox) + FileOf(codec, [h])));
      return Ok(h);
    }

    // Put back what a drain that died had taken.
    method RecoverInbox()
      modifies this
      ensures files == Recovered(old(files))
    {
      if files.taken.None? {
        return;
      }
      var recovered := files.taken.value;
      var current := if files.inbox.Some? then files.inbox.value else [];
      if !(recovered <= current) {
        files := files.(recovering := Some(recovered + current));
        files := files.(inbox := files.recovering, recovering := None);
      }
      files := files.(taken := None);
    }

    // Take everything waiting.
    method DrainInbox() returns (out: seq<Handoff>)
      modifies this
      ensures out == Held(codec, old(files).inbox)
      ensures files == Drained(old(files))
      ensures Held(codec, files.inbox) == []
    {
      NoFile(codec);
      if files.inbox.None? {
        return [];
      }
      files := files.(taken := None);
      files := files.(inbox := None, taken := files.inbox);
      out := Parse(codec, LinesOf(files.taken.value));
      files := files.(taken := None);
    }
  }

  // ── many processes, and a crash between any two file operations ────

  // Where the process that owns the inbox is. Each step but the first does one
  // file operation; `Merging` reads both files before it decides, so the model
  // lets no handoff arrive between that read and the rename.
  datatype Stage =
    | Idle
    | Recovering
    | Writing(text: Bytes)
    | Renaming
    | Unlinking
    | Draining
    | Clearing
    | Taking
    | Reading
    | Dropping(batch: seq<Handoff>)
    | Returning(batch: seq<Handoff>)

  // `sent` and `got` are every handoff accepted and every handoff returned by
  // a drain; `merged` says the taken bytes are in the inbox too; `lost` counts
  // handoffs that nobody will see. None of the four is read by a step's effect
  // on the files.
  datatype State = State(
    files: Files,
    stage: Stage,
    sent: seq<Handoff>,
    got: seq<Handoff>,
    merged: bool,
    lost: nat)

  datatype Action =
    | Send(from: Option<string>, text: string)
    | Step
    | Crash
    | CrashWriting(upTo: nat)

  const START := State(Files(None, None, None), Idle, [], [], false, 0)

  function Step1(c: Codec<Handoff>, s: State): State {
    match s.stage
    case Idle => s.(stage := Recovering)
    case Recovering =>
      if s.files.taken.None? then s.(stage := Draining)
      else if LooksMerged(s.files) then s.(stage := Unlinking)
      else s.(stage := Writing(Text(s.files.taken) + Text(s.files.inbox)))
    case Writing(text) => s.(files := s.files.(recovering := Some(text)), stage := Renaming)
    case Renaming =>
      s.(files := s.files.(inbox := s.files.recovering, recovering := None), merged := true, stage := Unlinking)
    case Unlinking =>
      var gone := if s.merged then 0 else |Held(c, s.files.taken)|;
      s.(files := s.files.(taken := None), merged := false, lost := s.lost + gone, stage := Draining)
    case Draining => s.(stage := if s.files.inbox.None? then Idle else Clearing)
    case Clearing => s.(files := s.files.(taken := None), stage := Taking)
    case Taking => s.(files := s.files.(inbox := None, taken := s.files.inbox), stage := Reading)
    case Reading => s.(stage := Dropping(Held(c, s.files.taken)))
    case Dropping(batch) => s.(files := s.files.(taken := None), stage := Returning(batch))
    case Returning(batch) => s.(got := s.got + batch, stage := Idle)
  }

  // The handoffs held only in a process's memory.
  function InMemory(s: State): seq<Handoff> {
    if s.stage.Returning? then s.stage.batch else []
  }

  function Next(c: Codec<Handoff>, s: State, a: Action): State {
    match a
    case Send(from, text) =>
      if s.stage.Writing? || s.stage.Renaming? then s
      else
        var h := Sent(c, s.files, from, text);
        s.(files := Delivered(c, s.files, h), sent := s.sent + [h])
    case Step => Step1(c, s)
    case Crash => s.(stage := Idle, lost := s.lost + |InMemory(s)|)
    case CrashWriting(n) =>
      if s.stage.Writing? && n <= |s.stage.text| then
        s.(files := s.files.(recovering := Some(s.stage.text[..n])), stage := Idle)
      else s
  }

  function Run(c: Codec<Handoff>, s: State, actions: seq<Action>): State
    decreases |actions|
  {
    if actions == [] then s else Run(c, Next(c, s, actions[0]), actions[1..])
  }

  // What is still to be delivered, in order.
  function Pending(c: Codec<Handoff>, s: State): seq<Handoff> {
    InMemory(s) + (if s.merged then [] else Held(c, s.files.taken)) + Held(c, s.files.inbox)
  }

  ghost predicate StageOk(c: Codec<Handoff>, s: State) {
    match s.stage
    case Idle => true
    case Recovering => true
    case Writing(text) => s.files.taken.Some? && !s.merged && text == Text(s.files.taken) + Text(s.files.inbox)
    case Renaming => s.files.taken.Some? && !s.merged
                     && s.files.recovering == Some(Text(s.files.taken) + Text(s.files.inbox))
    case Unlinking => s.files.taken.Some? && Held(c, s.files.taken) <= Held(c, s.files.inbox)
    case Draining => s.files.taken.None?
    case Clearing => s.files.taken.None? && s.files.inbox.Some?
    case Taking => s.files.taken.None? && s.files.inbox.Some?
    case Reading => s.files.taken.Some? && !s.merged
    case Dropping(batch) => s.files.taken.Some? && !s.merged && batch == Held(c, s.files.taken)
    case Returning(batch) => s.files.taken.None?
  }

  ghost predicate Inv(c: Codec<Handoff>, s: State) {
    && Whole(c, s.files.inbox)
    && Whole(c, s.files.taken)
    && StageOk(c, s)
    && (s.merged ==> s.files.taken.Some? && Held(c, s.files.taken) <= Held(c, s.files.inbox))
    && |s.got| + |Pending(c, s)| + s.lost == |s.sent|
    && (s.lost == 0 ==> s.got + Pending(c, s) == s.sent)
  }

  // The two ways a handoff goes missing: a crash once the taken file is gone
  // and before the batch is in the caller's hands, and a recovery misled by an
  // inbox that begins with the very bytes that were taken from it.
  predicate Loses(c: Codec<Handoff>, s: State, a: Action) {
    || (a.Crash? && InMemory(s) != [])
    || (a.Step? && s.stage.Unlinking? && !s.merged && Held(c, s.files.taken) != [])
  }

  ghost predicate NeverLoses(c: Codec<Handoff>, s: State, actions: seq<Action>)
    decreases |actions|
  {
    actions == [] || (!Loses(c, s, actions[0]) && NeverLoses(c, Next(c, s, actions[0]), actions[1..]))
  }

  lemma {:induction false} StartInv(c: Codec<Handoff>)
    ensures Inv(c, START)
  {
    NoFile(c);
  }

  lemma {:induction false} SendKeepsInv(c: Codec<Handoff>, s: State, from: Option<string>, text: string)
    requires c.Sound() && Inv(c, s)
    ensures Inv(c, Next(c, s, Send(from, text)))
  {
    hide Held, Whole, FileOf, Sent;
    if !s.stage.Writing? && !s.stage.Renaming? {
      var h := Sent(c, s.files, from, text);
      WholeFile(c, [h]);
      Glued(c, s.files.inbox, Some(FileOf(c, [h])));
      var t := Next(c, s, Send(from, text));
      assert Held(c, t.files.inbox) == Held(c, s.files.inbox) + [h];
      assert Pending(c, t) == Pending(c, s) + [h];
      assert t.got + Pending(c, t) == s.got + Pending(c, s) + [h];
    }
  }

  lemma {:induction false} MergeKeepsInv(c: Codec<Handoff>, s: State)
    requires c.Sound() && Inv(c, s) && s.stage.Renaming?
    ensures Inv(c, Next(c, s, Step))
  {
    hide Held, Whole, FileOf;
    Glued(c, s.files.taken, s.files.inbox);
    var t := Next(c, s, Step);
    assert Pending(c, t) == Pending(c, s);
  }

  lemma {:induction false} UnlinkKeepsInv(c: Codec<Handoff>, s: State)
    requires c.Sound() && Inv(c, s) && s.stage.Unlinking?
    ensures Inv(c, Next(c, s, Step))
  {
    hide Held, Whole, FileOf;
    NoFile(c);
    var t := Next(c, s, Step);
    var taken, left := Held(c, s.files.taken), Held(c, s.files.inbox);
    PendingOf(c, s);
    PendingOf(c, t);
    hide Pending;
    if !s.merged && taken == [] {
      assert taken + left == left;
    }
  }

  lemma PendingOf(c: Codec<Handoff>, s: State)
    requires !s.stage.Returning?
    ensures Pending(c, s) == if s.merged then Held(c, s.files.inbox) else Held(c, s.files.taken) + Held(c, s.files.inbox)
  {
    hide Held;
  }

  lemma {:induction false} DrainKeepsInv(c: Codec<Handoff>, s: State)
    requires c.Sound() && Inv(c, s)
    requires s.stage.Clearing? || s.stage.Taking? || s.stage.Dropping? || s.stage.Returning?
    ensures Inv(c, Next(c, s, Step))
  {
    hide Held, Whole, FileOf;
    NoFile(c);
    var t := Next(c, s, Step);
    if s.stage.Returning? {
      assert s.got + Pending(c, s) == t.got + Pending(c, t);
    } else {
      assert Pending(c, s) == Pending(c, t);
    }
  }

  lemma {:induction false} CrashKeepsInv(c: Codec<Handoff>, s: State, a: Action)
    requires Inv(c, s) && (a.Crash? || a.CrashWriting?)
    ensures Inv(c, Next(c, s, a))
  {
    hide Held, Whole, FileOf;
    var t := Next(c, s, a);
    assert Pending(c, s) == InMemory(s) + Pending(c, t) || t == s;
    if InMemory(s) == [] {
      assert Pending(c, t) == Pending(c, s);
    }
  }

  lemma {:induction false} NextKeepsInv(c: Codec<Handoff>, s: State, a: Action)
    requires c.Sound() && Inv(c, s)
    ensures Inv(c, Next(c, s, a))
    ensures Next(c, s, a).lost == s.lost <==> !Loses(c, s, a)
    ensures Next(c, s, a).lost >= s.lost
  {
    hide Held, Whole, FileOf;
    match a
    case Send(from, text) => SendKeepsInv(c, s, from, text);
    case Crash => CrashKeepsInv(c, s, a);
    case CrashWriting(_) => CrashKeepsInv(c, s, a);
    case Step =>
      match s.stage
      case Renaming => MergeKeepsInv(c, s);
      case Unlinking => UnlinkKeepsInv(c, s);
      case Clearing => DrainKeepsInv(c, s);
      case Taking => DrainKeepsInv(c, s);
      case Dropping(_) => DrainKeepsInv(c, s);
      case Returning(_) => DrainKeepsInv(c, s);
      case Recovering =>
        Glued(c, s.files.taken, s.files.inbox);
        assert Pending(c, Next(c, s, a)) == Pending(c, s);
      case _ =>
        assert Pending(c, Next(c, s, a)) == Pending(c, s);
  }

  lemma {:induction false} RunKeepsInv(c: Codec<Handoff>, s: State, actions: seq<Action>)
    requires c.Sound() && Inv(c, s)
    ensures Inv(c, Run(c, s, actions))
    ensures Run(c, s, actions).lost >= s.lost
    ensures Run(c, s, actions).lost == s.lost <==> NeverLoses(c, s, actions)
    decreases |actions|
  {
    if actions != [] {
      NextKeepsInv(c, s, actions[0]);
      RunKeepsInv(c, Next(c, s, actions[0]), actions[1..]);
    }
  }

  // Whatever is sent, whenever processes run, and wherever they die: what was
  // returned followed by what is still waiting is what was sent, in order and
  // once each, exactly when neither losing step was taken.
  lemma {:induction false} ExactlyOnce(c: Codec<Handoff>, actions: seq<Action>)
    requires c.Sound()
    ensures var s := Run(c, START, actions);
            s.got + Pending(c, s) == s.sent <==> NeverLoses(c, START, actions)
  {
    StartInv(c);
    RunKeepsInv(c, START, actions);
    var s := Run(c, START, actions);
    assert |s.got + Pending(c, s)| == |s.got| + |Pending(c, s)|;
  }

  // ── the numbers ────────────────────────────────────────────────────

  // Each number is one more than that of the handoff before it, or 0.
  ghost predicate Rising(hs: seq<Handoff>) {
    forall i: nat :: i < |hs| ==> RisesAt(hs, i)
  }

  ghost predicate RisesAt(hs: seq<Handoff>, i: nat)
    requires i < |hs|
  {
    hs[i].no == 0 || (i > 0 && hs[i].no == hs[i - 1].no + 1)
  }

  ghost predicate Counted(hs: seq<Handoff>) {
    forall i :: 0 <= i < |hs| ==> hs[i].no == i
  }

  ghost predicate RisingFiles(c: Codec<Handoff>, s: State) {
    Rising(Held(c, s.files.inbox)) && Rising(Held(c, s.files.taken))
  }

  lemma RisingConcat(a: seq<Handoff>, b: seq<Handoff>)
    requires Rising(a) && Rising(b)
    ensures Rising(a + b)
  {
    forall i: nat | i < |a + b|
      ensures RisesAt(a + b, i)
    {
      assert if i < |a| then RisesAt(a, i) else RisesAt(b, i - |a|);
    }
  }

  lemma SentRises(c: Codec<Handoff>, s: State, from: Option<string>, text: string)
    requires c.Sound() && Inv(c, s)
    ensures var h, hs := Sent(c, s.files, from, text), Held(c, s.files.inbox);
            && Held(c, Delivered(c, s.files, h).inbox) == hs + [h]
            && (Rising(hs) ==> Rising(hs + [h])) && (Counted(hs) ==> Counted(hs + [h]))
  {
    var h := Sent(c, s.files, from, text);
    hide Held, Whole, FileOf;
    WholeFile(c, [h]);
    Glued(c, s.files.inbox, Some(FileOf(c, [h])));
    var hs := Held(c, s.files.inbox);
    if Rising(hs) {
      forall i: nat | i < |hs + [h]|
        ensures RisesAt(hs + [h], i)
      {
        assert i < |hs| ==> RisesAt(hs, i);
      }
    }
  }

  lemma StepRises(c: Codec<Handoff>, s: State, a: Action)
    requires c.Sound() && Inv(c, s) && RisingFiles(c, s)
    ensures RisingFiles(c, Next(c, s, a))
  {
    hide Held, Whole, FileOf, Sent, Delivered;
    NoFile(c);
    match a
    case Send(from, text) =>
      SentRises(c, s, from, text);
      SentTaken(c, s, from, text);
    case Step =>
      if s.stage.Renaming? {
        Glued(c, s.files.taken, s.files.inbox);
        RisingConcat(Held(c, s.files.taken), Held(c, s.files.inbox));
      }
    case _ =>
  }

  lemma SentTaken(c: Codec<Handoff>, s: State, from: Option<string>, text: string)
    ensures Delivered(c, s.files, Sent(c, s.files, from, text)).taken == s.files.taken
  {
  }

  // No crash among these actions.
  predicate NoCrash(actions: seq<Action>) {
    forall a :: a in actions ==> !a.Crash? && !a.CrashWriting?
  }

  // While nothing has crashed nothing is recovered either.
  ghost predicate Undisturbed(c: Codec<Handoff>, s: State) {
    && !s.merged && Counted(Held(c, s.files.inbox)) && Counted(Held(c, s.files.taken))
    && (s.stage.Idle? || s.stage.Recovering? ==> s.files.taken.None?)
    && !s.stage.Writing? && !s.stage.Renaming? && !s.stage.Unlinking?
  }

  lemma StepUndisturbed(c: Codec<Handoff>, s: State, a: Action)
    requires c.Sound() && Inv(c, s) && Undisturbed(c, s) && !a.Crash? && !a.CrashWriting?
    ensures Undisturbed(c, Next(c, s, a))
  {
    hide Held, Whole, FileOf, Sent, Delivered;
    NoFile(c);
    if a.Send? {
      SentRises(c, s, a.from, a.text);
      SentTaken(c, s, a.from, a.text);
    }
  }

  lemma {:induction false} RunNumbers(c: Codec<Handoff>, s: State, actions: seq<Action>)
    requires c.Sound() && Inv(c, s) && RisingFiles(c, s)
    ensures RisingFiles(c, Run(c, s, actions))
    ensures Undisturbed(c, s) && NoCrash(actions) ==> Undisturbed(c, Run(c, s, actions))
    decreases |actions|
  {
    hide Inv, Next, RisingFiles, Undisturbed;
    if actions != [] {
      NextKeepsInv(c, s, actions[0]);
      StepRises(c, s, actions[0]);
      if Undisturbed(c, s) && NoCrash(actions) {
        assert actions[0] in actions;
        assert forall a :: a in actions[1..] ==> a in actions;
        StepUndisturbed(c, s, actions[0]);
      }
      RunNumbers(c, Next(c, s, actions[0]), actions[1..]);
    }
  }

  // Handoffs that wait together are numbered one after the other, from 0 on;
  // behind a batch that was put back after a crash the numbers begin again.
  lemma {:induction false} NumbersRise(c: Codec<Handoff>, actions: seq<Action>)
    requires c.Sound()
    ensures var s := Run(c, START, actions);
            && Rising(Held(c, s.files.inbox))
            && (NoCrash(actions) ==> Counted(Held(c, s.files.inbox)))
  {
    hide Held;
    StartInv(c);
    NoFile(c);
    RunNumbers(c, START, actions);
  }

  // ── when handoffs differ ───────────────────────────────────────────

  // When no two handoffs are the same, the only step that loses one is a crash
  // with a batch in hand.
  lemma {:induction false} OnlyACrashLoses(c: Codec<Handoff>, s: State, a: Action)
    requires Inv(c, s) && s.lost == 0 && Distinct(s.sent)
    ensures Loses(c, s, a) <==> a.Crash? && InMemory(s) != []
  {
    hide Held, Whole, FileOf;
    if s.stage.Unlinking? && !s.merged && Held(c, s.files.taken) != [] {
      var taken, left := Held(c, s.files.taken), Held(c, s.files.inbox);
      PendingOf(c, s);
      SameAtBothEnds(s.got, taken, left);
    }
  }

  lemma SameAtBothEnds(a: seq<Handoff>, b: seq<Handoff>, d: seq<Handoff>)
    requires b != [] && b <= d
    ensures !Distinct(a + (b + d))
  {
    var all := a + (b + d);
    assert all[|a|] == b[0] && all[|a| + |b|] == d[0] && b[0] == d[0];
  }

  ghost predicate NeverDropsABatch(c: Codec<Handoff>, s: State, actions: seq<Action>)
    decreases |actions|
  {
    actions == []
    || (!(actions[0].Crash? && InMemory(s) != []) && NeverDropsABatch(c, Next(c, s, actions[0]), actions[1..]))
  }

  lemma {:induction false} SentGrows(c: Codec<Handoff>, s: State, actions: seq<Action>)
    ensures s.sent <= Run(c, s, actions).sent
    decreases |actions|
  {
    if actions != [] {
      assert s.sent <= Next(c, s, actions[0]).sent;
      hide Next;
      SentGrows(c, Next(c, s, actions[0]), actions[1..]);
    }
  }

  lemma {:induction false} OnlyCrashesLose(c: Codec<Handoff>, s: State, actions: seq<Action>)
    requires c.Sound() && Inv(c, s) && s.lost == 0 && Distinct(Run(c, s, actions).sent)
    ensures NeverLoses(c, s, actions) <==> NeverDropsABatch(c, s, actions)
    decreases |actions|
  {
    hide Next, Inv, Loses, InMemory, Distinct;
    if actions != [] {
      SentGrows(c, s, actions);
      DistinctPrefix(s.sent, Run(c, s, actions).sent);
      OnlyACrashLoses(c, s, actions[0]);
      NextKeepsInv(c, s, actions[0]);
      if !Loses(c, s, actions[0]) {
        OnlyCrashesLose(c, Next(c, s, actions[0]), actions[1..]);
      }
    }
  }

  // So when no two handoffs are the same, everything is delivered once and in
  // order if and only if no process dies between removing the taken file and
  // handing over what was in it.
  lemma {:induction false} ExactlyOnceWhenDistinct(c: Codec<Handoff>, actions: seq<Action>)
    requires c.Sound() && Distinct(Run(c, START, actions).sent)
    ensures var s := Run(c, START, actions);
            s.got + Pending(c, s) == s.sent <==> NeverDropsABatch(c, START, actions)
  {
    hide Next, Inv, Distinct;
    StartInv(c);
    ExactlyOnce(c, actions);
    OnlyCrashesLose(c, START, actions);
  }

  // What senders have to see to: that no two of them say the same.
  function Words(hs: seq<Handoff>): (ws: seq<(Option<string>, string)>)
    ensures |ws| == |hs| && forall i :: 0 <= i < |hs| ==> ws[i] == (hs[i].from, hs[i].text)
  {
    seq(|hs|, i requires 0 <= i < |hs| => (hs[i].from, hs[i].text))
  }

  function Said(actions: seq<Action>): seq<(Option<string>, string)> {
    if actions == [] then []
    else if actions[0].Send? then [(actions[0].from, actions[0].text)] + Said(actions[1..])
    else Said(actions[1..])
  }

  lemma {:induction false} DifferentWords(c: Codec<Handoff>, s: State, actions: seq<Action>)
    requires Distinct(Words(s.sent) + Said(actions))
    ensures Distinct(Words(Run(c, s, actions).sent))
    decreases |actions|
  {
    if actions == [] {
      assert Words(s.sent) + [] == Words(s.sent);
    } else {
      var t := Next(c, s, actions[0]);
      assert t.sent == s.sent || (actions[0].Send? && Words(t.sent) == Words(s.sent) + [(actions[0].from, actions[0].text)]);
      hide Next, Words, Run;
      if actions[0].Send? {
        var said := (actions[0].from, actions[0].text);
        Assoc(Words(s.sent), [said], Said(actions[1..]));
        DistinctWithout(Words(s.sent), said, Said(actions[1..]));
      }
      DifferentWords(c, t, actions[1..]);
      RunStep(c, s, actions);
    }
  }

  lemma RunStep(c: Codec<Handoff>, s: State, actions: seq<Action>)
    requires actions != []
    ensures Run(c, s, actions) == Run(c, Next(c, s, actions[0]), actions[1..])
  {
    hide Next;
  }

  lemma DistinctWithout<T>(a: seq<T>, x: T, b: seq<T>)
    requires Distinct(a + ([x] + b))
    ensures Distinct(a + b)
  {
    var all := a + ([x] + b);
    forall i, j | 0 <= i < j < |a + b|
      ensures (a + b)[i] != (a + b)[j]
    {
      var k, l := if i < |a| then i else i + 1, if j < |a| then j else j + 1;
      assert (a + b)[i] == all[k] && (a + b)[j] == all[l];
    }
  }

  lemma {:induction false} ExactlyOnceWhenSaidOnce(c: Codec<Handoff>, actions: seq<Action>)
    requires c.Sound() && Distinct(Said(actions))
    ensures var s := Run(c, START, actions);
            s.got + Pending(c, s) == s.sent <==> NeverDropsABatch(c, START, actions)
  {
    hide Next, Run, Pending;
    assert Words([]) + Said(actions) == Said(actions);
    DifferentWords(c, START, actions);
    var sent := Run(c, START, actions).sent;
    assert forall i, j :: 0 <= i < j < |sent| && sent[i] == sent[j] ==> Words(sent)[i] == Words(sent)[j];
    ExactlyOnceWhenDistinct(c, actions);
  }

  // The sends that can mislead a recovery: ones that leave the inbox beginning
  // with the bytes a dead process took from it.
  predicate Ambiguous(c: Codec<Handoff>, s: State) {
    s.files.taken.Some? && !s.merged && Held(c, s.files.taken) != [] && LooksMerged(s.files)
  }

  // There is none while no two handoffs are the same.
  lemma {:induction false} DistinctNotAmbiguous(c: Codec<Handoff>, s: State)
    requires c.Sound() && Inv(c, s) && s.stage.Idle? && s.lost == 0 && Distinct(s.sent)
    ensures !Ambiguous(c, s)
  {
    hide Held, Whole, FileOf;
    if Ambiguous(c, s) {
      Glued(c, s.files.taken, s.files.inbox);
      PendingOf(c, s);
      SameAtBothEnds(s.got, Held(c, s.files.taken), Held(c, s.files.inbox));
    }
  }

  // The process run on its own for n steps.
  function Steps(c: Codec<Handoff>, s: State, n: nat): State
    decreases n
  {
    if n == 0 then s else Steps(c, Step1(c, s), n - 1)
  }

  lemma {:induction false} StepsAdd(c: Codec<Handoff>, s: State, m: nat, n: nat)
    ensures Steps(c, s, m + n) == Steps(c, Steps(c, s, m), n)
    decreases m
  {
    hide Step1;
    if m > 0 {
      StepsAdd(c, Step1(c, s), m - 1, n);
    }
  }

  lemma TwoSteps(c: Codec<Handoff>, s: State, n: nat)
    ensures Steps(c, s, n + 2) == Steps(c, Step1(c, Step1(c, s)), n)
  {
    hide Step1;
    assert Steps(c, s, n + 2) == Steps(c, Step1(c, s), n + 1);
  }

  lemma {:induction false} RecoverAlone(c: Codec<Handoff>, s: State) returns (n: nat)
    requires c.Sound() && Inv(c, s) && s.stage.Idle?
    ensures var t := Steps(c, s, n);
            t.stage.Draining? && t.got == s.got && t.sent == s.sent && t.files == Recovered(s.files)
  {
    hide Held, Whole;
    n := if s.files.taken.None? then 2 else if LooksMerged(s.files) then 3 else 5;
    var s2 := Step1(c, Step1(c, s));
    TwoSteps(c, s, n - 2);
    if n == 3 {
      assert Steps(c, s2, 1) == Steps(c, Step1(c, s2), 0);
    } else if n == 5 {
      TwoSteps(c, s2, 1);
      var s4 := Step1(c, Step1(c, s2));
      assert Steps(c, s4, 1) == Steps(c, Step1(c, s4), 0);
    }
  }

  lemma {:induction false} DrainAlone(c: Codec<Handoff>, s: State) returns (n: nat)
    requires s.stage.Draining? && s.files.taken.None?
    ensures var t := Steps(c, s, n);
            t.stage.Idle? && t.got == s.got + Held(c, s.files.inbox) && t.sent == s.sent
            && t.files == Drained(s.files)
  {
    hide Held, Whole, FileOf;
    NoFile(c);
    if s.files.inbox.None? {
      n := 1;
      assert Steps(c, s, 1) == Steps(c, Step1(c, s), 0);
    } else {
      n := 6;
      var s2 := Step1(c, Step1(c, s));
      var s4 := Step1(c, Step1(c, s2));
      TwoSteps(c, s, 4);
      TwoSteps(c, s2, 2);
      TwoSteps(c, s4, 0);
    }
  }

  // A process left alone, from any state a run can reach, does what the store's
  // two methods do, and returns everything pending unless the inbox is
  // ambiguous.
  lemma {:induction false} LeftAlone(c: Codec<Handoff>, s: State) returns (n: nat)
    requires c.Sound() && Inv(c, s) && s.stage.Idle?
    ensures var t := Steps(c, s, n);
            t.stage.Idle? && t.files == Drained(Recovered(s.files))
            && t.got == s.got + Held(c, Recovered(s.files).inbox)
            && (t.got == s.got + Pending(c, s) <==> !Ambiguous(c, s))
  {
    var m := RecoverAlone(c, s);
    var k := DrainAlone(c, Steps(c, s, m));
    StepsAdd(c, s, m, k);
    n := m + k;
    PutBack(c, s);
  }

  lemma RecoveredHolds(c: Codec<Handoff>, f: Files)
    requires c.Sound() && Whole(c, f.inbox) && Whole(c, f.taken)
    ensures LooksMerged(f) <==> Held(c, f.taken) <= Held(c, f.inbox)
    ensures Held(c, Recovered(f).inbox)
            == if f.taken.None? || LooksMerged(f) then Held(c, f.inbox) else Held(c, f.taken) + Held(c, f.inbox)
  {
    hide Held, Whole, FileOf;
    Glued(c, f.taken, f.inbox);
  }

  lemma {:induction false} PutBack(c: Codec<Handoff>, s: State)
    requires c.Sound() && Inv(c, s) && s.stage.Idle?
    ensures s.got + Held(c, Recovered(s.files).inbox) == s.got + Pending(c, s) <==> !Ambiguous(c, s)
  {
    hide Held, Whole, FileOf, Recovered, LooksMerged, StageOk;
    RecoveredHolds(c, s.files);
    NoFile(c);
    var taken, left, back := Held(c, s.files.taken), Held(c, s.files.inbox), Held(c, Recovered(s.files).inbox);
    if s.merged {
      assert Pending(c, s) == left == back;
    } else {
      assert Pending(c, s) == taken + left;
      if Ambiguous(c, s) {
        assert |s.got + back| < |s.got + Pending(c, s)|;
      } else {
        assert taken == [] ==> taken + left == left;
      }
    }
  }

  // The same words sent twice, with a crash between: the second handoff gets
  // the number of the first, recovery takes it for the first, and one is lost.
  lemma {:induction false} SameWordsTwice(c: Codec<Handoff>, text: string)
    requires c.Sound()
    ensures var drainDies := [Step, Step, Step, Step, Step, Crash];
            var s := Run(c, START, [Send(None, text)] + drainDies + [Send(None, text)]);
            && s.sent == [Handoff(None, text, 0), Handoff(None, text, 0)]
            && s.got == []
            && Ambiguous(c, s)
            && Held(c, Recovered(s.files).inbox) == [Handoff(None, text, 0)]
  {
    var say, h := Send(None, text), Handoff(None, text, 0);
    var file := FileOf(c, [h]);
    WholeFile(c, [h]);
    hide Held, Whole, FileOf, Next;
    assert [say] + [Step, Step, Step, Step, Step, Crash] + [say]
        == [say, Step, Step, Step] + [Step, Step, Crash, say];
    RunSplit(c, START, [say, Step, Step, Step], [Step, Step, Crash, say]);
    FirstHalf(c, text);
    SecondHalf(c, text);
  }

  lemma FirstHalf(c: Codec<Handoff>, text: string)
    requires c.Sound()
    ensures var h := Handoff(None, text, 0);
            Run(c, START, [Send(None, text), Step, Step, Step])
            == State(Files(Some(FileOf(c, [h])), None, None), Clearing, [h], [], false, 0)
  {
    var h := Handoff(None, text, 0);
    NoFile(c);
    hide Held, Whole, FileOf;
    assert [] + FileOf(c, [h]) == FileOf(c, [h]);
    FourSteps(c, START, Send(None, text), Step, Step, Step);
  }

  lemma SecondHalf(c: Codec<Handoff>, text: string)
    requires c.Sound()
    ensures var h := Handoff(None, text, 0);
            var f := Some(FileOf(c, [h]));
            Run(c, State(Files(f, None, None), Clearing, [h], [], false, 0), [Step, Step, Crash, Send(None, text)])
            == State(Files(f, f, None), Idle, [h, h], [], false, 0)
  {
    var h := Handoff(None, text, 0);
    var s := State(Files(Some(FileOf(c, [h])), None, None), Clearing, [h], [], false, 0);
    NoFile(c);
    hide Held, Whole, FileOf;
    assert [] + FileOf(c, [h]) == FileOf(c, [h]);
    FourSteps(c, s, Step, Step, Crash, Send(None, text));
  }

  lemma FourSteps(c: Codec<Handoff>, s: State, a0: Action, a1: Action, a2: Action, a3: Action)
    ensures Run(c, s, [a0, a1, a2, a3]) == Next(c, Next(c, Next(c, Next(c, s, a0), a1), a2), a3)
  {
    hide Next;
    var s1 := Next(c, s, a0);
    var s2 := Next(c, s1, a1);
    var s3 := Next(c, s2, a2);
    assert [a0, a1, a2, a3][1..] == [a1, a2, a3];
    assert [a1, a2, a3][1..] == [a2, a3];
    assert [a2, a3][1..] == [a3];
    assert [a3][1..] == [];
    assert Run(c, s3, [a3]) == Next(c, s3, a3);
    assert Run(c, s2, [a2, a3]) == Run(c, s3, [a3]);
    assert Run(c, s1, [a1, a2, a3]) == Run(c, s2, [a2, a3]);
  }

  lemma {:induction false} RunSplit(c: Codec<Handoff>, s: State, a: seq<Action>, b: seq<Action>)
    ensures Run(c, s, a + b) == Run(c, Run(c, s, a), b)
    decreases |a|
  {
    hide Next;
    if a == [] {
      assert a + b == b;
    } else {
      RunSplit(c, Next(c, s, a[0]), a[1..], b);
      assert (a + b)[1..] == a[1..] + b;
    }
  }
}
