// One connection, many calls at once: a reader hands each response to the call
// that waits on its id.

module Hub {
  import opened Wrappers
  import opened Decimal

  datatype RpcId = Num(n: int) | Str(s: string)

  // What a response is matched by.
  function IdKey(id: RpcId): string {
    match id
    case Num(n) => IntText(n)
    case Str(s) => s
  }

  datatype Outcome = Result(value: string) | Error(code: int, message: string)

  datatype Response = Response(id: RpcId, outcome: Outcome)

  // The one-shot channel between the reader and a call: its sender is in the
  // table, or was used for response number `which`, or was dropped.
  datatype Slot = Open | Filled(which: nat) | Dropped

  // A call has drawn its id; has put its sender in the table; has sent its
  // request and waits; or has returned.
  datatype Call = Drawn | Registered | Waiting | Returned(outcome: Option<Outcome>)

  // The shared state, with what the other side has sent so far. `late` holds
  // the calls that registered after the reader's final clear.
  datatype State = State(
    nextId: nat,
    pending: map<string, nat>,
    calls: map<nat, Call>,
    slots: map<nat, Slot>,
    received: seq<Response>,
    reading: bool,
    cleared: bool,
    writing: bool,
    late: set<nat>)

  // Each action holds the table's lock once or not at all.
  datatype Action =
    | Draw
    | Register(n: nat)
    | Send(n: nat)
    | Receive(r: Response)
    | StopReading
    | Clear
    | StopWriting
    | Wake(n: nat)

  const START := State(1, map[], map[], map[], [], true, false, true, {})

  function Key(n: nat): string {
    IdKey(Num(n))
  }

  predicate CallIs(s: State, n: nat, c: Call) {
    n in s.calls && s.calls[n] == c
  }

  predicate Enabled(s: State, a: Action) {
    match a
    case Draw => true
    case Register(n) => CallIs(s, n, Drawn)
    case Send(n) => CallIs(s, n, Registered)
    case Receive(_) => s.reading
    case StopReading => s.reading
    case Clear => !s.reading && !s.cleared
    case StopWriting => s.writing
    case Wake(n) => CallIs(s, n, Waiting) && n in s.slots && s.slots[n] != Open
  }

  function Next(s: State, a: Action): State {
    if !Enabled(s, a) then s
    else
      match a
      case Draw => s.(nextId := s.nextId + 1, calls := s.calls[s.nextId := Drawn])
      case Register(n) =>
        s.(pending := s.pending[Key(n) := n],
           calls := s.calls[n := Registered],
           slots := s.slots[n := Open],
           late := if s.cleared then s.late + {n} else s.late)
      case Send(n) => s.(calls := s.calls[n := if s.writing then Waiting else Returned(None)])
      case Receive(r) =>
        var t := s.(received := s.received + [r]);
        var key := IdKey(r.id);
        if key !in s.pending then t
        else t.(pending := s.pending - {key}, slots := s.slots[s.pending[key] := Filled(|s.received|)])
      case StopReading => s.(reading := false)
      case Clear =>
        s.(pending := map[], cleared := true, slots := map n | n in s.slots :: if s.slots[n] == Open then Dropped else s.slots[n])
      case StopWriting => s.(writing := false)
      case Wake(n) =>
        s.(calls := s.calls[n := Returned(
          match s.slots[n]
          case Filled(i) => if i < |s.received| then Some(s.received[i].outcome) else None
          case _ => None)])
  }

  function Run(s: State, trace: seq<Action>): State
    decreases |trace|
  {
    if trace == [] then s else Run(Next(s, trace[0]), trace[1..])
  }

  ghost predicate Inv(s: State) {
    CallsOk(s) && TableOk(s) && AnswersOk(s) && LateOk(s)
  }

  // A call gets its slot when it registers.
  ghost predicate CallsOk(s: State) {
    && (forall n :: n in s.calls ==> n < s.nextId)
    && (forall n :: n in s.slots ==> n in s.calls)
    && (forall n :: n in s.calls ==> (s.calls[n] == Drawn <==> n !in s.slots))
  }

  // The table holds the open slots, each under its own key.
  ghost predicate TableOk(s: State) {
    && (forall k :: k in s.pending ==> s.pending[k] in s.slots && k == Key(s.pending[k]))
    && (forall n :: n in s.slots ==> (s.slots[n] == Open <==> Key(n) in s.pending))
  }

  ghost predicate AnswersOk(s: State) {
    && (forall n :: n in s.slots && s.slots[n].Filled? ==> Own(s, n, s.slots[n].which))
    && (forall n :: n in s.calls && s.calls[n].Returned? && s.calls[n].outcome.Some? ==> Got(s, n))
  }

  ghost predicate LateOk(s: State) {
    && (s.cleared ==> !s.reading)
    && (s.cleared ==> forall n :: n in s.slots && s.slots[n] == Open ==> n in s.late)
    && (forall n :: n in s.late ==> s.cleared && n in s.slots && s.slots[n] == Open)
  }

  // Response i carries this call's key.
  ghost predicate Own(s: State, n: nat, i: nat) {
    i < |s.received| && IdKey(s.received[i].id) == Key(n)
  }

  // The call returned the outcome of the response its slot was filled from.
  ghost predicate Got(s: State, n: nat)
    requires n in s.calls && s.calls[n].Returned? && s.calls[n].outcome.Some?
  {
    && n in s.slots && s.slots[n].Filled? && s.slots[n].which < |s.received|
    && s.calls[n].outcome.value == s.received[s.slots[n].which].outcome
  }

  // A response carries a call's id as a number or as text.
  predicate Carries(r: Response, n: nat) {
    r.id == Num(n) || r.id == Str(IntText(n))
  }

  lemma CarriesMeaning(r: Response, n: nat)
    ensures Carries(r, n) <==> IdKey(r.id) == Key(n)
  {
    if r.id.Num? && IdKey(r.id) == Key(n) {
      IntTextInjective(r.id.n, n);
    }
  }

  lemma KeyInjective(m: nat, n: nat)
    requires Key(m) == Key(n)
    ensures m == n
  {
    IntTextInjective(m, n);
  }

  lemma RegisterKeepsTable(s: State, n: nat)
    requires TableOk(s) && Enabled(s, Register(n))
    ensures TableOk(Next(s, Register(n)))
  {
    hide IntText, IdKey;
    var t := Next(s, Register(n));
    forall m | m in t.slots
      ensures t.slots[m] == Open <==> Key(m) in t.pending
    {
      if Key(m) == Key(n) {
        KeyInjective(m, n);
      }
    }
  }

  lemma RegisterKeepsRest(s: State, n: nat)
    requires CallsOk(s) && LateOk(s) && Enabled(s, Register(n))
    ensures CallsOk(Next(s, Register(n))) && LateOk(Next(s, Register(n)))
  {
    hide Key;
  }

  lemma RegisterKeepsInv(s: State, n: nat)
    requires Inv(s) && Enabled(s, Register(n))
    ensures Inv(Next(s, Register(n)))
  {
    hide TableOk, LateOk, AnswersOk, Key;
    RegisterKeepsTable(s, n);
    RegisterKeepsRest(s, n);
    KeepsAnswers(s, Next(s, Register(n)));
    hide CallsOk;
  }

  // Nothing here touches a filled slot or a returned call.
  lemma KeepsAnswers(s: State, t: State)
    requires AnswersOk(s) && s.received <= t.received
    requires forall n :: n in t.slots && t.slots[n].Filled? ==> n in s.slots && t.slots[n] == s.slots[n]
    requires forall n :: n in s.slots && s.slots[n].Filled? ==> n in t.slots && t.slots[n] == s.slots[n]
    requires forall n :: n in t.calls && t.calls[n].Returned? && t.calls[n].outcome.Some? ==> n in s.calls && t.calls[n] == s.calls[n]
    ensures AnswersOk(t)
  {
    hide IntText, IdKey;
    forall m | m in t.slots && t.slots[m].Filled?
      ensures Own(t, m, t.slots[m].which)
    {
      assert Own(s, m, s.slots[m].which);
    }
    forall m | m in t.calls && t.calls[m].Returned? && t.calls[m].outcome.Some?
      ensures Got(t, m)
    {
      assert Got(s, m);
    }
  }

  lemma ReceiveKeepsInv(s: State, r: Response)
    requires Inv(s) && Enabled(s, Receive(r))
    ensures Inv(Next(s, Receive(r)))
  {
    hide IntText, IdKey;
    var t := Next(s, Receive(r));
    var key := IdKey(r.id);
    if key in s.pending {
      ReceiveKeepsTable(s, r);
      ReceiveKeepsAnswers(s, r);
    } else {
      KeepsAnswers(s, t);
    }
  }

  lemma ReceiveKeepsTable(s: State, r: Response)
    requires TableOk(s) && Enabled(s, Receive(r)) && IdKey(r.id) in s.pending
    ensures TableOk(Next(s, Receive(r)))
  {
    hide IntText, IdKey;
    var t := Next(s, Receive(r));
    var n := s.pending[IdKey(r.id)];
    forall m | m in t.slots
      ensures t.slots[m] == Open <==> Key(m) in t.pending
    {
      if Key(m) == Key(n) {
        KeyInjective(m, n);
      }
    }
  }

  lemma ReceiveKeepsAnswers(s: State, r: Response)
    requires TableOk(s) && AnswersOk(s) && Enabled(s, Receive(r)) && IdKey(r.id) in s.pending
    ensures AnswersOk(Next(s, Receive(r)))
  {
    hide IntText, IdKey;
    var t := Next(s, Receive(r));
    var n := s.pending[IdKey(r.id)];
    assert t.received[|s.received|] == r;
    assert s.slots[n] == Open;
    forall m | m in t.slots && t.slots[m].Filled?
      ensures Own(t, m, t.slots[m].which)
    {
      if m != n {
        assert Own(s, m, s.slots[m].which);
      }
    }
    forall m | m in t.calls && t.calls[m].Returned? && t.calls[m].outcome.Some?
      ensures Got(t, m)
    {
      assert Got(s, m);
    }
  }

  lemma {:induction false} NextKeepsInv(s: State, a: Action)
    requires Inv(s)
    ensures Inv(Next(s, a))
  {
    hide Inv, CallsOk, TableOk, AnswersOk, LateOk, IntText, IdKey;
    if Enabled(s, a) {
      match a
      case Register(n) => RegisterKeepsInv(s, n);
      case Receive(r) => ReceiveKeepsInv(s, r);
      case Wake(n) => WakeKeepsInv(s, n);
      case Clear => ClearKeepsInv(s);
      case _ => OthersKeepInv(s, a);
    }
  }

  lemma OthersKeepAnswers(s: State, a: Action)
    requires CallsOk(s) && AnswersOk(s) && (a.Draw? || a.Send? || a.StopReading? || a.StopWriting?)
    ensures AnswersOk(Next(s, a))
  {
    hide IntText, IdKey, Own, Got, AnswersOk, Key;
    KeepsAnswers(s, Next(s, a));
  }

  lemma OthersKeepInv(s: State, a: Action)
    requires Inv(s) && (a.Draw? || a.Send? || a.StopReading? || a.StopWriting?)
    ensures Inv(Next(s, a))
  {
    hide IntText, IdKey, Own, Got, AnswersOk;
    var t := Next(s, a);
    assert CallsOk(t) by {
      hide TableOk, LateOk;
    }
    assert TableOk(t) by {
      hide CallsOk, LateOk;
    }
    assert LateOk(t) by {
      hide CallsOk, TableOk;
    }
    OthersKeepAnswers(s, a);
  }

  lemma WakeKeepsInv(s: State, n: nat)
    requires Inv(s) && Enabled(s, Wake(n))
    ensures Inv(Next(s, Wake(n)))
  {
    hide Key, AnswersOk;
    WakeKeepsAnswers(s, n);
  }

  lemma WakeKeepsAnswers(s: State, n: nat)
    requires AnswersOk(s) && Enabled(s, Wake(n))
    ensures AnswersOk(Next(s, Wake(n)))
  {
    hide IntText, IdKey;
    var t := Next(s, Wake(n));
    forall m | m in t.slots && t.slots[m].Filled?
      ensures Own(t, m, t.slots[m].which)
    {
      assert Own(s, m, s.slots[m].which);
    }
    forall m | m in t.calls && t.calls[m].Returned? && t.calls[m].outcome.Some?
      ensures Got(t, m)
    {
      if m != n {
        assert Got(s, m);
      }
    }
  }

  lemma ClearKeepsInv(s: State)
    requires Inv(s) && Enabled(s, Clear)
    ensures Inv(Next(s, Clear))
  {
    hide IntText, IdKey, Own, Got, AnswersOk, Key;
    KeepsAnswers(s, Next(s, Clear));
  }

  lemma {:induction false} RunKeepsInv(s: State, trace: seq<Action>)
    requires Inv(s)
    ensures Inv(Run(s, trace))
    decreases |trace|
  {
    hide Inv, Next;
    if trace != [] {
      NextKeepsInv(s, trace[0]);
      RunKeepsInv(Next(s, trace[0]), trace[1..]);
    }
  }

  // In every interleaving: a call that returns an outcome returns that of a
  // response carrying its own key, and no two calls return the same response's.
  lemma {:induction false} EachResponseToItsOwnCall(trace: seq<Action>, m: nat, n: nat)
    requires var s := Run(START, trace);
             && m in s.calls && s.calls[m].Returned? && s.calls[m].outcome.Some?
             && n in s.calls && s.calls[n].Returned? && s.calls[n].outcome.Some?
    ensures var s := Run(START, trace);
            && m in s.slots && s.slots[m].Filled? && Own(s, m, s.slots[m].which)
            && s.calls[m].outcome.value == s.received[s.slots[m].which].outcome
            && n in s.slots && s.slots[n].Filled?
            && (s.slots[m].which == s.slots[n].which ==> m == n)
  {
    hide Next, IntText;
    RunKeepsInv(START, trace);
    var s := Run(START, trace);
    assert Got(s, m) && Got(s, n);
    assert Own(s, m, s.slots[m].which) && Own(s, n, s.slots[n].which);
    if s.slots[m].which == s.slots[n].which {
      KeyInjective(m, n);
    }
  }

  // Once the reader has cleared the table, a call that waits can return if and
  // only if it registered before the clear.
  lemma {:induction false} WhoCanStillReturn(trace: seq<Action>, n: nat)
    requires var s := Run(START, trace); s.cleared && CallIs(s, n, Waiting)
    ensures var s := Run(START, trace);
            && (Enabled(s, Wake(n)) <==> n !in s.late)
            && (Enabled(s, Wake(n)) ==> exists o :: CallIs(Next(s, Wake(n)), n, Returned(o)))
  {
    RunKeepsInv(START, trace);
    WakeReturns(Run(START, trace), n);
  }

  lemma WakeReturns(s: State, n: nat)
    requires Inv(s) && s.cleared && CallIs(s, n, Waiting)
    ensures Enabled(s, Wake(n)) <==> n !in s.late
    ensures Enabled(s, Wake(n)) ==> exists o :: CallIs(Next(s, Wake(n)), n, Returned(o))
  {
    hide IntText, IdKey;
    if Enabled(s, Wake(n)) {
      assert CallIs(Next(s, Wake(n)), n, Returned(Next(s, Wake(n)).calls[n].outcome));
    }
  }

  // One that registered later waits for ever, whatever happens next.
  lemma {:induction false} LateWaitsForever(s: State, more: seq<Action>, n: nat)
    requires Inv(s) && s.cleared && n in s.late && CallIs(s, n, Waiting)
    ensures CallIs(Run(s, more), n, Waiting)
    decreases |more|
  {
    if more != [] {
      NextKeepsInv(s, more[0]);
      LateStaysLate(s, more[0], n);
      LateWaitsForever(Next(s, more[0]), more[1..], n);
    }
  }

  lemma LateStaysLate(s: State, a: Action, n: nat)
    requires Inv(s) && s.cleared && n in s.late && CallIs(s, n, Waiting)
    ensures var t := Next(s, a); t.cleared && n in t.late && CallIs(t, n, Waiting)
  {
    hide IntText;
  }

  // And it can come to that: the reader stops, clears, and a call is made while
  // requests can still be written.
  lemma {:induction false} ALateCall()
    ensures var s := Run(START, [StopReading, Clear, Draw, Register(1), Send(1)]);
            Inv(s) && s.cleared && 1 in s.late && CallIs(s, 1, Waiting)
  {
    var trace := [StopReading, Clear, Draw, Register(1), Send(1)];
    RunKeepsInv(START, trace);
    hide IntText;
    var s1 := Next(START, StopReading);
    var s2 := Next(s1, Clear);
    var s3 := Next(s2, Draw);
    var s4 := Next(s3, Register(1));
    assert trace[1..] == [Clear, Draw, Register(1), Send(1)];
    assert trace[1..][1..] == [Draw, Register(1), Send(1)];
    assert [Draw, Register(1), Send(1)][1..] == [Register(1), Send(1)];
    assert [Register(1), Send(1)][1..] == [Send(1)];
    assert [Send(1)][1..] == [];
    assert Run(START, trace) == Run(s2, [Draw, Register(1), Send(1)]);
    assert Run(s2, [Draw, Register(1), Send(1)]) == Run(s3, [Register(1), Send(1)]);
    assert Run(s3, [Register(1), Send(1)]) == Run(s4, [Send(1)]);
    assert Run(s4, [Send(1)]) == Next(s4, Send(1));
  }

  // ── what one call sees ─────────────────────────────────────────────

  // A call by itself, without the table and the other calls: how many ids were
  // drawn, how far the call has come, and what has become of its wait: nothing
  // yet, an outcome, or the end of the connection.
  datatype Alone = Alone(
    drawn: nat,
    call: Option<Call>,
    wait: Option<Option<Outcome>>,
    reading: bool,
    cleared: bool,
    writing: bool)

  const AT_FIRST := Alone(0, None, None, true, false, true)

  // The call numbered n is the nth to draw an id. The first response that
  // carries it, from its registration until reading stops, is its answer.
  function AloneNext(t: Alone, n: nat, a: Action): Alone {
    var registered := t.call.Some? && t.call != Some(Drawn);
    match a
    case Draw => t.(drawn := t.drawn + 1, call := if t.drawn + 1 == n then Some(Drawn) else t.call)
    case Register(m) => if m == n && t.call == Some(Drawn) then t.(call := Some(Registered)) else t
    case Send(m) =>
      if m == n && t.call == Some(Registered) then t.(call := Some(if t.writing then Waiting else Returned(None))) else t
    case Receive(r) =>
      if t.reading && registered && t.wait.None? && Carries(r, n) then t.(wait := Some(Some(r.outcome))) else t
    case StopReading => t.(reading := false)
    case Clear =>
      if t.reading || t.cleared then t
      else t.(cleared := true, wait := if registered && t.wait.None? then Some(None) else t.wait)
    case StopWriting => t.(writing := false)
    case Wake(m) => if m == n && t.call == Some(Waiting) && t.wait.Some? then t.(call := Some(Returned(t.wait.value))) else t
  }

  function RunAlone(t: Alone, n: nat, trace: seq<Action>): Alone
    decreases |trace|
  {
    if trace == [] then t else RunAlone(AloneNext(t, n, trace[0]), n, trace[1..])
  }

  // What there is of one call in the shared state.
  ghost function Seen(s: State, n: nat): Alone
    requires Inv(s)
  {
    Alone(if s.nextId > 0 then s.nextId - 1 else 0,
          if n in s.calls then Some(s.calls[n]) else None,
          if n !in s.slots then None else WaitOf(s, s.slots[n]),
          s.reading, s.cleared, s.writing)
  }

  ghost function WaitOf(s: State, slot: Slot): Option<Option<Outcome>> {
    match slot
    case Open => None
    case Filled(i) => Some(if i < |s.received| then Some(s.received[i].outcome) else None)
    case Dropped => Some(None)
  }

  lemma {:induction false} SeesAlone(s: State, n: nat, a: Action)
    requires Inv(s) && s.nextId > 0 && n > 0
    ensures Inv(Next(s, a)) && Next(s, a).nextId > 0
    ensures Seen(Next(s, a), n) == AloneNext(Seen(s, n), n, a)
  {
    NextKeepsInv(s, a);
    hide IntText, IdKey, Carries;
    match a
    case Receive(r) => SeesResponse(s, n, r);
    case Clear => SeesClear(s, n);
    case Register(m) => SeesRegister(s, n, m);
    case Wake(m) => SeesWake(s, n, m);
    case _ => SeesOthers(s, n, a);
  }

  lemma SeesClear(s: State, n: nat)
    requires Inv(s) && Inv(Next(s, Clear))
    ensures Seen(Next(s, Clear), n) == AloneNext(Seen(s, n), n, Clear)
  {
    hide IntText, IdKey, Carries, TableOk, AnswersOk, LateOk, Key;
  }

  lemma SeesRegister(s: State, n: nat, m: nat)
    requires Inv(s) && Inv(Next(s, Register(m)))
    ensures Seen(Next(s, Register(m)), n) == AloneNext(Seen(s, n), n, Register(m))
  {
    hide IntText, IdKey, Carries, TableOk, AnswersOk, LateOk, Key;
  }

  lemma SeesWake(s: State, n: nat, m: nat)
    requires Inv(s) && Inv(Next(s, Wake(m)))
    ensures Seen(Next(s, Wake(m)), n) == AloneNext(Seen(s, n), n, Wake(m))
  {
    hide IntText, IdKey, Carries, TableOk, AnswersOk, LateOk, Key;
  }

  lemma SeesOthers(s: State, n: nat, a: Action)
    requires Inv(s) && s.nextId > 0 && (a.Draw? || a.Send? || a.StopReading? || a.StopWriting?) && Inv(Next(s, a))
    ensures Seen(Next(s, a), n) == AloneNext(Seen(s, n), n, a)
  {
    hide IntText, IdKey, Carries, TableOk, AnswersOk, LateOk, Key;
  }

  lemma SeesResponse(s: State, n: nat, r: Response)
    requires Inv(s) && Inv(Next(s, Receive(r)))
    ensures Seen(Next(s, Receive(r)), n) == AloneNext(Seen(s, n), n, Receive(r))
  {
    CarriesMeaning(r, n);
    hide IntText, IdKey, Carries;
    var key := IdKey(r.id);
    if s.reading && key in s.pending && s.pending[key] != n && n in s.slots {
      assert Key(n) == key ==> Key(s.pending[key]) == Key(n);
      if Key(n) == key {
        KeyInjective(s.pending[key], n);
      }
    }
  }

  lemma {:induction false} SeesAloneRun(s: State, n: nat, trace: seq<Action>)
    requires Inv(s) && s.nextId > 0 && n > 0
    ensures Inv(Run(s, trace)) && Seen(Run(s, trace), n) == RunAlone(Seen(s, n), n, trace)
    decreases |trace|
  {
    hide Inv, Next, AloneNext, Seen;
    if trace != [] {
      SeesAlone(s, n, trace[0]);
      SeesAloneRun(Next(s, trace[0]), n, trace[1..]);
    }
  }

  // In every interleaving each call fares as it would alone: whatever the other
  // calls do and however the responses are mixed, it is as far as it would be,
  // and has returned what it would have.
  lemma {:induction false} AsIfAlone(n: nat, trace: seq<Action>)
    requires n > 0
    ensures var s, t := Run(START, trace), RunAlone(AT_FIRST, n, trace);
            && (n in s.calls <==> t.call.Some?)
            && (n in s.calls ==> s.calls[n] == t.call.value)
            && (CallIs(s, n, Waiting) ==> (Enabled(s, Wake(n)) <==> t.wait.Some?))
  {
    hide Next, AloneNext, IntText, IdKey;
    SeesAloneRun(START, n, trace);
  }

  // A response to a call in the table goes to that call and to no other.
  lemma {:induction false} ResponseFillsItsSlot(s: State, r: Response, n: nat)
    requires Inv(s) && s.reading && n in s.slots && s.slots[n] == Open && Carries(r, n)
    ensures var t := Next(s, Receive(r));
            && t.slots == s.slots[n := Filled(|s.received|)] && t.received == s.received + [r]
            && t.calls == s.calls
  {
    CarriesMeaning(r, n);
    hide IntText, IdKey, Carries;
    KeyInjective(n, s.pending[Key(n)]);
  }

  // One that no call in the table waits for changes nothing.
  lemma {:induction false} StrayResponse(s: State, r: Response)
    requires Inv(s) && forall n :: n in s.slots && s.slots[n] == Open ==> !Carries(r, n)
    ensures var t := Next(s, Receive(r)); t.slots == s.slots && t.calls == s.calls && t.pending == s.pending
  {
    hide IntText, IdKey, Carries;
    forall k | k in s.pending
      ensures k != IdKey(r.id)
    {
      CarriesMeaning(r, s.pending[k]);
      assert s.slots[s.pending[k]] == Open;
    }
  }

  lemma GoesWhere(s: State, r: Response)
    requires Inv(s) && s.reading
    ensures forall n :: n in s.slots && s.slots[n] == Open && Carries(r, n)
                        ==> Next(s, Receive(r)).slots == s.slots[n := Filled(|s.received|)]
    ensures (forall n :: n in s.slots && s.slots[n] == Open ==> !Carries(r, n)) ==> Next(s, Receive(r)).slots == s.slots
  {
    forall n | n in s.slots && s.slots[n] == Open && Carries(r, n)
      ensures Next(s, Receive(r)).slots == s.slots[n := Filled(|s.received|)]
    {
      ResponseFillsItsSlot(s, r, n);
    }
    if forall n :: n in s.slots && s.slots[n] == Open ==> !Carries(r, n) {
      StrayResponse(s, r);
    }
  }

  // A call returns what became of its wait, or nothing because its request
  // could not be written.
  ghost predicate Returns(t: Alone) {
    t.call.Some? && t.call.value.Returned? ==>
      t.wait == Some(t.call.value.outcome) || (t.call.value.outcome.None? && !t.writing)
  }

  lemma {:induction false} AnswerStays(t: Alone, n: nat, trace: seq<Action>)
    requires Returns(t) && t.call.Some? && t.call != Some(Drawn) && t.wait.Some? && t.drawn >= n
    ensures var u := RunAlone(t, n, trace);
            && Returns(u) && u.call.Some? && u.call != Some(Drawn) && u.wait == t.wait
            && (t.call == Some(Waiting) ==> u.call == t.call || u.call == Some(Returned(t.wait.value)))
    decreases |trace|
  {
    hide Carries;
    if trace != [] {
      var next := AloneNext(t, n, trace[0]);
      AnswerStays(next, n, trace[1..]);
      if next.call != t.call && t.call == Some(Waiting) {
        ReturnedStays(next, n, trace[1..]);
      }
    }
  }

  lemma {:induction false} ReturnedStays(t: Alone, n: nat, trace: seq<Action>)
    requires t.call.Some? && t.call.value.Returned? && t.drawn >= n
    ensures RunAlone(t, n, trace).call == t.call
    decreases |trace|
  {
    hide Carries;
    if trace != [] {
      ReturnedStays(AloneNext(t, n, trace[0]), n, trace[1..]);
    }
  }

  lemma {:induction false} AlwaysReturns(t: Alone, n: nat, trace: seq<Action>)
    requires Returns(t)
    ensures Returns(RunAlone(t, n, trace)) && RunAlone(t, n, trace).drawn >= t.drawn
    decreases |trace|
  {
    hide Carries;
    if trace != [] {
      AlwaysReturns(AloneNext(t, n, trace[0]), n, trace[1..]);
    }
  }

  lemma {:induction false} RunSplit(s: State, a: seq<Action>, b: seq<Action>)
    ensures Run(s, a + b) == Run(Run(s, a), b)
    decreases |a|
  {
    hide Next;
    if a == [] {
      assert a + b == b;
    } else {
      RunSplit(Next(s, a[0]), a[1..], b);
      assert (a + b)[1..] == a[1..] + b;
    }
  }

  // From a state on in which the call waits in the table.
  lemma AnsweredFrom(s: State, r: Response, later: seq<Action>, n: nat)
    requires Inv(s) && s.nextId > 0 && n > 0 && Returns(Seen(s, n))
    requires s.reading && n in s.slots && s.slots[n] == Open && Carries(r, n)
    ensures var t := Run(Next(s, Receive(r)), later);
            && n in t.calls && t.calls[n] != Drawn
            && (CallIs(t, n, Waiting) ==> CallIs(Next(t, Wake(n)), n, Returned(Some(r.outcome))))
            && (CallIs(s, n, Waiting) ==> CallIs(t, n, Waiting) || CallIs(t, n, Returned(Some(r.outcome))))
            && (t.calls[n].Returned? ==> t.calls[n].outcome == Some(r.outcome) || (t.calls[n].outcome.None? && !t.writing))
  {
    var u := Next(s, Receive(r));
    SeesAlone(s, n, Receive(r));
    SlotOfCall(s, n);
    SeenParts(s, n);
    hide IntText, IdKey, Carries, Next, Inv, Run, RunAlone, Seen;
    AnswerStays(Seen(u, n), n, later);
    SeesAloneRun(u, n, later);
    Answered(Run(u, later), r.outcome, n);
    SeenParts(Run(u, later), n);
  }

  // A call whose wait is over returns what it got.
  lemma Answered(t: State, o: Outcome, n: nat)
    requires Inv(t) && t.nextId > 0 && n > 0 && Seen(t, n).wait == Some(Some(o))
    ensures CallIs(t, n, Waiting) ==> CallIs(Next(t, Wake(n)), n, Returned(Some(o)))
  {
    hide IntText, IdKey, Carries, TableOk, LateOk, CallsOk;
  }

  lemma SeenParts(t: State, n: nat)
    requires Inv(t)
    ensures Seen(t, n).call == if n in t.calls then Some(t.calls[n]) else None
    ensures Seen(t, n).writing == t.writing
  {
    hide Inv;
  }

  lemma SlotOfCall(s: State, n: nat)
    requires Inv(s) && n in s.slots
    ensures n in s.calls && s.calls[n] != Drawn && n < s.nextId
  {
  }

  // A call whose response arrives between its registration and the end of
  // reading returns that response's outcome, whatever happens before and after:
  // when it waits it can be woken and returns it, and it returns nothing only if
  // it was not yet waiting and its request could not be written.
  lemma {:induction false} AnsweredCallReturns(before: seq<Action>, r: Response, later: seq<Action>, n: nat)
    requires n > 0
    requires var s := Run(START, before); s.reading && n in s.slots && s.slots[n] == Open && Carries(r, n)
    ensures var s, t := Run(START, before), Run(START, before + [Receive(r)] + later);
            && n in t.calls && t.calls[n] != Drawn
            && (CallIs(t, n, Waiting) ==> CallIs(Next(t, Wake(n)), n, Returned(Some(r.outcome))))
            && (CallIs(s, n, Waiting) ==> CallIs(t, n, Waiting) || CallIs(t, n, Returned(Some(r.outcome))))
            && (t.calls[n].Returned? ==> t.calls[n].outcome == Some(r.outcome) || (t.calls[n].outcome.None? && !t.writing))
  {
    var s := Run(START, before);
    RunSplit(START, before + [Receive(r)], later);
    RunSplit(START, before, [Receive(r)]);
    assert Run(s, [Receive(r)]) == Run(Next(s, Receive(r)), []);
    hide IntText, IdKey, Carries, Next, AloneNext, Inv;
    SeenAtFirst(n);
    SeesAloneRun(START, n, before);
    AlwaysReturns(AT_FIRST, n, before);
    AnsweredFrom(s, r, later, n);
  }

  lemma SeenAtFirst(n: nat)
    requires n > 0
    ensures Inv(START) && Seen(START, n) == AT_FIRST && Returns(AT_FIRST) && START.nextId > 0
  {
  }

  // ── the client itself ──────────────────────────────────────────────

  // The shared state of a connection. Each method is one turn of a caller or
  // of the reader.
  class Connection {
    var nextId: nat
    var pending: map<string, nat>
    var calls: map<nat, Call>
    var slots: map<nat, Slot>
    var received: seq<Response>
    var reading: bool
    var cleared: bool
    var writing: bool
    ghost var late: set<nat>

    ghost function View(): State
      reads this
    {
      State(nextId, pending, calls, slots, received, reading, cleared, writing, late)
    }

    constructor ()
      ensures View() == START && Inv(View())
    {
      nextId, pending, calls, slots := 1, map[], map[], map[];
      received, reading, cleared, writing, late := [], true, false, true, {};
    }

    method DrawId() returns (n: nat)
      requires Inv(View())
      modifies this
      ensures View() == Next(old(View()), Draw) && Inv(View())
      ensures n == old(nextId) && n !in old(calls)
    {
      NextKeepsInv(View(), Draw);
      n := nextId;
      nextId := nextId + 1;
      calls := calls[n := Drawn];
    }

    method RegisterCall(n: nat)
      requires Inv(View()) && CallIs(View(), n, Drawn)
      modifies this
      ensures View() == Next(old(View()), Register(n)) && Inv(View())
    {
      NextKeepsInv(View(), Register(n));
      pending := pending[Key(n) := n];
      slots := slots[n := Open];
      calls := calls[n := Registered];
      if cleared {
        late := late + {n};
      }
    }

    method SendRequest(n: nat)
      requires Inv(View()) && CallIs(View(), n, Registered)
      modifies this
      ensures View() == Next(old(View()), Send(n)) && Inv(View())
    {
      NextKeepsInv(View(), Send(n));
      if writing {
        calls := calls[n := Waiting];
      } else {
        calls := calls[n := Returned(None)];
      }
    }

    // What the reader does with a response: at most one call is answered, the
    // one registered under its id.
    method ReceiveResponse(r: Response)
      requires Inv(View()) && reading
      modifies this
      ensures View() == Next(old(View()), Receive(r)) && Inv(View())
      ensures forall n :: n in old(slots) && old(slots)[n] == Open && Carries(r, n)
                          ==> slots == old(slots)[n := Filled(|old(received)|)] && received == old(received) + [r]
      ensures (forall n :: n in old(slots) && old(slots)[n] == Open ==> !Carries(r, n)) ==> slots == old(slots)
    {
      ghost var was := View();
      NextKeepsInv(was, Receive(r));
      hide Inv, Carries, IdKey, IntText, Key;
      var key := IdKey(r.id);
      if key in pending {
        slots := slots[pending[key] := Filled(|received|)];
        pending := pending - {key};
      }
      received := received + [r];
      assert View() == Next(was, Receive(r));
      hide Next;
      GoesWhere(was, r);
    }

    // The reader's last act: fail every waiter.
    method ClearTable()
      requires Inv(View()) && !reading && !cleared
      modifies this
      ensures View() == Next(old(View()), Clear) && Inv(View())
      ensures pending == map[] && forall n :: n in slots ==> slots[n] != Open
    {
      NextKeepsInv(View(), Clear);
      pending, cleared := map[], true;
      slots := map n | n in slots :: if slots[n] == Open then Dropped else slots[n];
    }

    // A waiting call finds its slot used or dropped.
    method WakeCall(n: nat) returns (outcome: Option<Outcome>)
      requires Inv(View()) && Enabled(View(), Wake(n))
      modifies this
      ensures View() == Next(old(View()), Wake(n)) && Inv(View())
      ensures CallIs(View(), n, Returned(outcome))
      ensures outcome.Some? <==> slots[n].Filled?
    {
      NextKeepsInv(View(), Wake(n));
      assert slots[n].Filled? ==> Own(View(), n, slots[n].which);
      outcome := match slots[n]
        case Filled(i) => Some(received[i].outcome)
        case _ => None;
      calls := calls[n := Returned(outcome)];
    }
  }
}
