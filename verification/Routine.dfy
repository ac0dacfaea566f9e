// Recurring work: when it is owed, and what recording a run changes.

module Routine {
  import opened Wrappers
  import opened Sequences
  import opened Division
  import opened Calendar
  import opened Cron
  import opened Schedule

  const MAX_RUNS_KEPT: nat := 20
  const RETRY_COOLOFF_MINUTES: int := 10
  const RETRY_BACKOFF_STEPS: nat := 5

  datatype Run = Run(at: Instant, ok: bool, retryable: bool, manual: bool)

  datatype Trigger = OnSchedule(fields: Fields, offset: int) | OnEvent

  datatype Record = Record(
    trigger: Trigger,
    enabled: bool,
    lastRun: Option<Instant>,
    retryAfter: Option<Instant>,
    runs: seq<Run>)
  {
    function NextAfter(at: Instant): Option<Instant> {
      if trigger.OnEvent? then None else Next(trigger.fields, at, trigger.offset)
    }

    // Whether a run is owed now.
    predicate IsDue(now: Instant) {
      if !enabled then false
      else if trigger.OnEvent? then false
      else if retryAfter.Some? then now >= retryAfter.value
      else
        var from := if lastRun.Some? then lastRun.value else now - MINUTE;
        NextAfter(from).Some? && NextAfter(from).value <= now
    }

    ghost predicate FiresAt(at: Instant) {
      trigger.OnSchedule? && Firing(trigger.fields, trigger.offset, at)
    }

    // Some firing lies after one instant and not after another.
    ghost predicate FiresBetween(after: Instant, upTo: Instant) {
      exists g: Instant :: FiresAt(g) && after < g <= upTo
    }
  }

  function Min(a: nat, b: nat): nat {
    if a < b then a else b
  }

  function Pow2(n: nat): nat {
    if n == 0 then 1 else 2 * Pow2(n - 1)
  }

  // How many runs at the end of the history were all to be tried again.
  function Streak(runs: seq<Run>): (n: nat)
    ensures n <= |runs|
  {
    if runs == [] || !runs[|runs| - 1].retryable then 0 else 1 + Streak(runs[..|runs| - 1])
  }

  function Trim(runs: seq<Run>): seq<Run> {
    if |runs| > MAX_RUNS_KEPT then runs[|runs| - MAX_RUNS_KEPT..] else runs
  }

  function Wait(streak: nat): int {
    RETRY_COOLOFF_MINUTES * Pow2(Min(streak, RETRY_BACKOFF_STEPS))
  }

  function AfterRun(r: Record, run: Run): Record {
    var runs := Trim(r.runs + [run]);
    if run.retryable then r.(runs := runs, retryAfter := Some(run.at + Wait(Streak(r.runs)) * MINUTE))
    else r.(runs := runs, lastRun := Some(run.at), retryAfter := None)
  }

  function AfterManualRun(r: Record, run: Run): Record {
    r.(runs := Trim(r.runs + [run.(manual := true)]))
  }

  method CountStreak(runs: seq<Run>) returns (n: nat)
    ensures n == Streak(runs)
  {
    n := 0;
    assert runs[..|runs|] == runs;
    while n < |runs| && runs[|runs| - 1 - n].retryable
      invariant n <= |runs|
      invariant Streak(runs) == n + Streak(runs[..|runs| - n])
    {
      assert runs[..|runs| - n][..|runs| - n - 1] == runs[..|runs| - n - 1];
      n := n + 1;
    }
  }

  // The firings stepped over from one to the next, up to a limit.
  function Steps(r: Record, from: Instant, now: Instant, n: nat): nat
    decreases 1001 - n
  {
    var next := r.NextAfter(from);
    if next.None? || next.value > now || n > 1000 then n else Steps(r, next.value, now, n + 1)
  }

  function MissedSince(r: Record, now: Instant): nat {
    if r.trigger.OnEvent? || r.lastRun.None? then 0
    else
      var n := Steps(r, r.lastRun.value, now, 0);
      if n == 0 then 0 else n - 1
  }

  // The stored routine, as the recorders change it.
  class Stored {
    const trigger: Trigger
    var enabled: bool
    var lastRun: Option<Instant>
    var retryAfter: Option<Instant>
    var runs: seq<Run>

    constructor (trigger: Trigger)
      ensures Value() == Record(trigger, true, None, None, [])
    {
      this.trigger, enabled, lastRun, retryAfter, runs := trigger, true, None, None, [];
    }

    function Value(): Record
      reads this
    {
      Record(trigger, enabled, lastRun, retryAfter, runs)
    }

    // Pause the routine, or start it again.
    method Enable(on: bool)
      modifies `enabled
      ensures Value() == old(Value()).(enabled := on)
    {
      enabled := on;
    }

    method RecordRun(run: Run)
      modifies this
      ensures Value() == AfterRun(old(Value()), run)
    {
      if run.retryable {
        var consecutive := CountStreak(runs);
        var wait := RETRY_COOLOFF_MINUTES * Pow2(Min(consecutive, RETRY_BACKOFF_STEPS));
        retryAfter := Some(run.at + wait * MINUTE);
      } else {
        lastRun := Some(run.at);
        retryAfter := None;
      }
      runs := runs + [run];
      TrimRuns();
    }

    method RecordManualRun(run: Run)
      modifies this
      ensures Value() == AfterManualRun(old(Value()), run)
    {
      runs := runs + [run.(manual := true)];
      TrimRuns();
    }

    method TrimRuns()
      modifies this
      ensures Value() == old(Value()).(runs := Trim(old(runs)))
    {
      if |runs| > MAX_RUNS_KEPT {
        var drop := |runs| - MAX_RUNS_KEPT;
        runs := runs[drop..];
      }
    }

    // The count of firings that went by unserved.
    method Missed(now: Instant) returns (n: nat)
      ensures n == MissedSince(Value(), now)
    {
      if trigger.OnEvent? || lastRun.None? {
        return 0;
      }
      var t := lastRun.value;
      n := 0;
      while true
        invariant n <= 1001
        invariant Steps(Value(), t, now, n) == Steps(Value(), lastRun.value, now, 0)
        decreases 1001 - n
      {
        var next := NextAfter(trigger.fields, t, trigger.offset);
        if next.None? || next.value > now || n > 1000 {
          break;
        }
        n := n + 1;
        t := next.value;
      }
      n := if n == 0 then 0 else n - 1;
    }
  }

  // ── when a run is owed ─────────────────────────────────────────────

  // A routine that has completed a run is owed another exactly when it is
  // enabled, runs on a schedule, a firing has come since, and the search from
  // the last run finds one; with a retry pending, exactly from the time set for
  // it.
  lemma {:induction false} DueExactly(r: Record, now: Instant)
    requires r.lastRun.Some? || r.retryAfter.Some?
    ensures r.IsDue(now) <==>
              r.enabled && r.trigger.OnSchedule?
              && if r.retryAfter.Some? then now >= r.retryAfter.value
                 else r.NextAfter(r.lastRun.value).Some? && r.FiresBetween(r.lastRun.value, now)
  {
    hide Next, Firing;
    if r.trigger.OnSchedule? && r.retryAfter.None? {
      NextIsLeast(r.trigger.fields, r.lastRun.value, r.trigger.offset);
      if r.NextAfter(r.lastRun.value).Some? {
        var n := r.NextAfter(r.lastRun.value).value;
        assert r.FiresAt(n);
        if r.FiresBetween(r.lastRun.value, now) {
          var g: Instant :| r.FiresAt(g) && r.lastRun.value < g <= now;
          assert n <= g;
        }
      }
    }
  }

  // One that never has is owed a run only in the very minute of a firing.
  lemma {:induction false} NeverRunDueExactly(r: Record, now: Instant)
    requires r.lastRun.None? && r.retryAfter.None?
    ensures r.IsDue(now)
            <==> r.enabled && r.trigger.OnSchedule? && Fires(r.trigger.fields, LocalMinute(now, r.trigger.offset))
  {
    hide Fires;
    if r.trigger.OnSchedule? {
      var f, offset := r.trigger.fields, r.trigger.offset;
      var t := LocalMinute(now, offset);
      AddDivisor(now - MINUTE, MINUTE);
      FirstFromMeaning(f, t, t + WINDOW);
      var m := NextMinute(f, now - MINUTE, offset);
      if m.Some? {
        InstantOfMinute(m.value, offset, now);
      }
    }
  }

  // ── runs of the scheduler ──────────────────────────────────────────

  // A tick runs the routine if it is due and records how that went; a person
  // may run it at any time, pause it, and start it again. A tick's result is
  // whether the attempt is to be repeated.
  datatype Event = Tick(now: Instant, retryable: bool, ok: bool) | Manual(run: Run) | Enable(on: bool)

  // `done` is when each scheduled run completed.
  datatype Sys = Sys(r: Record, clock: Instant, done: seq<Instant>)

  predicate Attempts(s: Sys, e: Event) {
    e.Tick? && s.r.IsDue(e.now)
  }

  function Step(s: Sys, e: Event): Sys {
    match e
    case Manual(run) => s.(r := AfterManualRun(s.r, run))
    case Enable(on) => s.(r := s.r.(enabled := on))
    case Tick(now, retryable, ok) =>
      if !s.r.IsDue(now) then s.(clock := now)
      else Sys(AfterRun(s.r, Run(now, ok, retryable, false)), now, if retryable then s.done else s.done + [now])
  }

  function After(s: Sys, es: seq<Event>): Sys
    decreases |es|
  {
    if es == [] then s else After(Step(s, es[0]), es[1..])
  }

  // A routine just made.
  function Fresh(trigger: Trigger, clock: Instant): Sys {
    Sys(Record(trigger, true, None, None, []), clock, [])
  }

  // The scheduler's part of it: ticks of one stored routine, and what a person
  // does to it.
  class Scheduler {
    const routine: Stored
    var clock: Instant
    ghost var done: seq<Instant>

    ghost function View(): Sys
      reads this, routine
    {
      Sys(routine.Value(), clock, done)
    }

    constructor (trigger: Trigger, clock: Instant)
      ensures View() == Fresh(trigger, clock) && fresh(routine)
    {
      routine := new Stored(trigger);
      this.clock, done := clock, [];
    }

    // `retryable` and `ok` are how the attempt goes, if one is made.
    method TickAt(now: Instant, retryable: bool, ok: bool) returns (ran: bool)
      modifies this, routine
      ensures View() == Step(old(View()), Tick(now, retryable, ok))
      ensures ran == Attempts(old(View()), Tick(now, retryable, ok))
      ensures !old(routine.enabled) ==> !ran && routine.Value() == old(routine.Value())
    {
      hide Next, AfterRun;
      clock := now;
      ran := routine.Value().IsDue(now);
      if ran {
        routine.RecordRun(Run(now, ok, retryable, false));
        if !retryable {
          done := done + [now];
        }
      }
    }

    method RunByHand(run: Run)
      modifies routine
      ensures View() == Step(old(View()), Manual(run))
    {
      routine.RecordManualRun(run);
    }

    method Switch(on: bool)
      modifies routine
      ensures View() == Step(old(View()), Enable(on))
    {
      routine.Enable(on);
    }
  }

  // The clock never goes back.
  predicate InOrder(s: Sys, es: seq<Event>)
    decreases |es|
  {
    es == [] || ((es[0].Tick? ==> es[0].now > s.clock) && InOrder(Step(s, es[0]), es[1..]))
  }

  ghost predicate Inv(s: Sys) {
    && s.r.trigger.OnSchedule?
    && (forall i :: 0 <= i < |s.done| - 1 ==> s.r.FiresBetween(s.done[i], s.done[i + 1]))
    && (forall i :: 0 <= i < |s.done| ==> s.done[i] <= s.clock)
    && s.r.lastRun == (if s.done == [] then None else Some(s.done[|s.done| - 1]))
    && (s.r.retryAfter.Some? ==> Unserved(s))
  }

  // A firing that no completed run came after.
  ghost predicate Unserved(s: Sys) {
    exists g: Instant :: s.r.FiresAt(g) && g <= s.clock && (s.r.lastRun.Some? ==> g > s.r.lastRun.value)
  }

  lemma DueIsUnserved(s: Sys, now: Instant)
    requires Inv(s) && s.r.IsDue(now) && now > s.clock
    ensures exists g: Instant :: s.r.FiresAt(g) && g <= now && (s.r.lastRun.Some? ==> g > s.r.lastRun.value)
  {
    hide Next, Firing;
    if s.r.retryAfter.Some? {
      var g: Instant :| s.r.FiresAt(g) && g <= s.clock && (s.r.lastRun.Some? ==> g > s.r.lastRun.value);
      assert g <= now;
    } else {
      var from := if s.r.lastRun.Some? then s.r.lastRun.value else now - MINUTE;
      NextIsLeast(s.r.trigger.fields, from, s.r.trigger.offset);
      assert s.r.FiresAt(s.r.NextAfter(from).value);
    }
  }

  lemma StepKeepsInv(s: Sys, e: Event)
    requires Inv(s) && (e.Tick? ==> e.now > s.clock)
    ensures Inv(Step(s, e))
  {
    hide Next, Firing, Record.IsDue, Trim, Wait, Streak;
    var t := Step(s, e);
    if Attempts(s, e) {
      DueIsUnserved(s, e.now);
      var g: Instant :| s.r.FiresAt(g) && g <= e.now && (s.r.lastRun.Some? ==> g > s.r.lastRun.value);
      assert t.r.FiresAt(g);
      forall i | 0 <= i < |t.done| - 1
        ensures t.r.FiresBetween(t.done[i], t.done[i + 1])
      {
        if i + 1 < |s.done| {
          SameFirings(s.r, t.r, s.done[i], s.done[i + 1]);
        }
      }
    } else {
      forall i | 0 <= i < |s.done| - 1
        ensures t.r.FiresBetween(s.done[i], s.done[i + 1])
      {
        SameFirings(s.r, t.r, s.done[i], s.done[i + 1]);
      }
      if s.r.retryAfter.Some? {
        var g: Instant :| s.r.FiresAt(g) && g <= s.clock && (s.r.lastRun.Some? ==> g > s.r.lastRun.value);
        assert t.r.FiresAt(g);
      }
    }
  }

  lemma SameFirings(r: Record, q: Record, after: Instant, upTo: Instant)
    requires r.trigger == q.trigger && r.FiresBetween(after, upTo)
    ensures q.FiresBetween(after, upTo)
  {
    var g: Instant :| r.FiresAt(g) && after < g <= upTo;
    assert q.FiresAt(g);
  }

  lemma {:induction false} EventsKeepInv(s: Sys, es: seq<Event>)
    requires Inv(s) && InOrder(s, es)
    ensures Inv(After(s, es))
    decreases |es|
  {
    hide Inv, Step;
    if es != [] {
      StepKeepsInv(s, es[0]);
      EventsKeepInv(Step(s, es[0]), es[1..]);
    }
  }

  lemma FreshInv(trigger: Trigger, clock: Instant)
    requires trigger.OnSchedule?
    ensures Inv(Fresh(trigger, clock))
  {
  }

  // From a new routine on, over any ticks and any manual runs: a firing lies
  // between any two completed scheduled runs that follow one another, and a
  // pending retry stands for a firing that no completed run has served.
  lemma {:induction false} EveryRunServesAFiring(trigger: Trigger, clock: Instant, es: seq<Event>)
    requires trigger.OnSchedule? && InOrder(Fresh(trigger, clock), es)
    ensures var t := After(Fresh(trigger, clock), es);
            && (forall i :: 0 <= i < |t.done| - 1 ==> t.r.FiresBetween(t.done[i], t.done[i + 1]))
            && t.r.lastRun == (if t.done == [] then None else Some(t.done[|t.done| - 1]))
            && (t.r.retryAfter.Some? ==> Unserved(t))
  {
    hide Step, After, InOrder, Unserved, Record.FiresBetween;
    FreshInv(trigger, clock);
    EventsKeepInv(Fresh(trigger, clock), es);
  }

  // No scheduled run completes during these events.
  predicate NothingDone(s: Sys, es: seq<Event>)
    decreases |es|
  {
    es == [] || (!(Attempts(s, es[0]) && !es[0].retryable) && NothingDone(Step(s, es[0]), es[1..]))
  }

  // Once a run has completed, a firing that comes stays owed until a run
  // completes, whatever ticks and manual runs happen in between: the routine is
  // due at every time from the firing on, or from the end of a pending wait. A
  // schedule for leap days alone has to have one in the window after the run.
  lemma {:induction false} OwedUntilDone(s: Sys, es: seq<Event>, g: Instant, now: Instant)
    requires s.r.trigger.OnSchedule? && s.r.trigger.fields.WellFormed() && s.r.lastRun.Some?
    requires NothingDone(s, es)
    requires s.r.FiresAt(g) && g > s.r.lastRun.value && now >= g
    ensures var t, f := After(s, es), s.r.trigger.fields;
            && t.r.lastRun == s.r.lastRun
            && (t.r.IsDue(now) <==>
                  t.r.enabled
                  && if t.r.retryAfter.Some? then now >= t.r.retryAfter.value
                     else LeapDayOnly(f) ==> LeapDayInWindow(f, LocalMinute(s.r.lastRun.value, s.r.trigger.offset) + 1))
  {
    hide Next, Firing, LeapDayOnly, LeapDayInWindow, Fields.WellFormed;
    Unchanged(s, es);
    var t := After(s, es);
    assert t.r.FiresAt(g);
    DueExactly(t.r, now);
    FoundWhenFiring(s.r.trigger.fields, s.r.lastRun.value, s.r.trigger.offset, g);
  }

  lemma FoundWhenFiring(f: Fields, after: Instant, offset: int, g: Instant)
    requires f.WellFormed() && Firing(f, offset, g)
    ensures Next(f, after, offset).Some? <==> (LeapDayOnly(f) ==> LeapDayInWindow(f, LocalMinute(after, offset) + 1))
  {
    hide Next, Fires, LeapDayOnly, LeapDayInWindow, NamesADay, Fields.WellFormed;
    var t: int :| IsMinute(g, t, offset) && Fires(f, t);
    assert Satisfiable(f);
    SatisfiableExactly(f);
    FoundExactly(f, after, offset);
  }

  lemma {:induction false} Unchanged(s: Sys, es: seq<Event>)
    requires NothingDone(s, es)
    ensures var t := After(s, es);
            t.r.trigger == s.r.trigger && t.r.lastRun == s.r.lastRun
    decreases |es|
  {
    hide Record.IsDue;
    if es != [] {
      Unchanged(Step(s, es[0]), es[1..]);
    }
  }

  // How far a history has taken the waits, up to where they stop growing.
  function Waited(r: Record): nat {
    Min(Streak(r.runs), RETRY_BACKOFF_STEPS)
  }

  predicate SameSchedule(s: Sys, q: Sys) {
    s.clock == q.clock && s.done == q.done && s.r.(runs := []) == q.r.(runs := []) && Waited(s.r) == Waited(q.r)
  }

  function WithoutManual(es: seq<Event>): seq<Event> {
    if es == [] then []
    else if es[0].Manual? then WithoutManual(es[1..])
    else [es[0]] + WithoutManual(es[1..])
  }

  // A run by hand that leaves the next wait as it is: one that is not to be
  // repeated when no attempt waits to be, or one that is when the waits have
  // stopped growing.
  predicate Harmless(r: Record, run: Run) {
    if run.retryable then Waited(r) == RETRY_BACKOFF_STEPS else Waited(r) == 0
  }

  predicate ManualRunsHarmless(s: Sys, es: seq<Event>)
    decreases |es|
  {
    es == [] || ((es[0].Manual? ==> Harmless(s.r, es[0].run)) && ManualRunsHarmless(Step(s, es[0]), es[1..]))
  }

  lemma WaitedAfter(r: Record, run: Run)
    ensures Waited(r.(runs := Trim(r.runs + [run]))) == if run.retryable then Min(Waited(r) + 1, RETRY_BACKOFF_STEPS) else 0
  {
    hide Trim;
    StreakAfter(r, run);
  }

  lemma WaitOf(streak: nat)
    ensures Wait(streak) == Wait(Min(streak, RETRY_BACKOFF_STEPS))
  {
  }

  // Manual runs leave the schedule as it would be without them, attempts that
  // are repeated or not, as long as each falls where it is harmless.
  lemma {:induction false} ManualRunsInvisible(s: Sys, q: Sys, es: seq<Event>)
    requires SameSchedule(s, q) && ManualRunsHarmless(s, es)
    ensures SameSchedule(After(s, es), After(q, WithoutManual(es)))
    decreases |es|
  {
    if es != [] {
      StepUnseen(s, q, es[0]);
      hide Step, Waited, Harmless, SameSchedule;
      var q' := if es[0].Manual? then q else Step(q, es[0]);
      ManualRunsInvisible(Step(s, es[0]), q', es[1..]);
      if !es[0].Manual? {
        assert WithoutManual(es)[1..] == WithoutManual(es[1..]);
      }
    }
  }

  lemma StepUnseen(s: Sys, q: Sys, e: Event)
    requires SameSchedule(s, q) && (e.Manual? ==> Harmless(s.r, e.run))
    ensures SameSchedule(Step(s, e), if e.Manual? then q else Step(q, e))
  {
    hide Record.NextAfter, Record.IsDue, Streak, Trim, Wait;
    SameDue(s.r, q.r);
    match e
    case Manual(run) => WaitedAfter(s.r, run.(manual := true));
    case Enable(_) =>
    case Tick(now, retryable, ok) =>
      var run := Run(now, ok, retryable, false);
      WaitedAfter(s.r, run);
      WaitedAfter(q.r, run);
      WaitOf(Streak(s.r.runs));
      WaitOf(Streak(q.r.runs));
  }

  lemma SameDue(r: Record, q: Record)
    requires r.(runs := []) == q.(runs := [])
    ensures forall now: Instant :: r.IsDue(now) == q.IsDue(now)
  {
    hide Next;
  }

  // The other side: a leap-day routine whose last run fell in the gap before
  // 2100 is never due again, at any tick, whatever is run by hand.
  lemma {:induction false} NeverDueAgain(s: Sys, es: seq<Event>, now: Instant)
    requires s.r.trigger.OnSchedule? && s.r.lastRun.Some? && s.r.retryAfter.None?
    requires s.r.NextAfter(s.r.lastRun.value).None?
    ensures !After(s, es).r.IsDue(now)
    decreases |es|
  {
    hide Next;
    if es != [] {
      assert !Attempts(s, es[0]);
      NeverDueAgain(Step(s, es[0]), es[1..], now);
    }
  }

  // An attempt that is to be repeated is owed again, from the end of its wait,
  // exactly when the routine is enabled and runs on a schedule.
  lemma {:induction false} RetryOwedExactly(r: Record, failed: Run, now: Instant)
    requires failed.retryable
    ensures AfterRun(r, failed).IsDue(now)
            <==> r.enabled && r.trigger.OnSchedule? && now >= failed.at + Wait(Streak(r.runs)) * MINUTE
  {
    hide Streak, Wait, Trim, Next;
  }

  // Whether a routine is switched on after these events: as it was last
  // switched, or as it was.
  function SwitchedOn(on: bool, es: seq<Event>): bool {
    if es == [] then on
    else if es[|es| - 1].Enable? then es[|es| - 1].on
    else SwitchedOn(on, es[..|es| - 1])
  }

  lemma AfterOneMore(s: Sys, es: seq<Event>, e: Event)
    ensures After(s, es + [e]) == Step(After(s, es), e)
    decreases |es|
  {
    hide Step;
    if es == [] {
      assert [] + [e] == [e] && [e][1..] == [];
      assert After(Step(s, e), []) == Step(s, e);
    } else {
      AfterOneMore(Step(s, es[0]), es[1..], e);
      assert (es + [e])[1..] == es[1..] + [e];
    }
  }

  lemma {:induction false} EnabledAfter(s: Sys, es: seq<Event>)
    ensures After(s, es).r.enabled == SwitchedOn(s.r.enabled, es)
    decreases |es|
  {
    if es != [] {
      var front, last := es[..|es| - 1], es[|es| - 1];
      EnabledAfter(s, front);
      assert es == front + [last];
      AfterOneMore(s, front, last);
      hide Record.IsDue, After;
    }
  }

  // While it is paused a routine is attempted at no tick, whatever happened
  // before, and a tick leaves it as it is.
  lemma {:induction false} PausedNotAttempted(s: Sys, es: seq<Event>, now: Instant, retryable: bool, ok: bool)
    requires !SwitchedOn(s.r.enabled, es)
    ensures !Attempts(After(s, es), Tick(now, retryable, ok))
    ensures After(s, es + [Tick(now, retryable, ok)]) == After(s, es).(clock := now)
  {
    hide After, SwitchedOn, AfterRun, Record.NextAfter;
    EnabledAfter(s, es);
    AfterOneMore(s, es, Tick(now, retryable, ok));
  }

  // The runs that events record, in order: those a tick attempts, and those
  // made by hand, marked so.
  function Recorded(s: Sys, es: seq<Event>): seq<Run>
    decreases |es|
  {
    if es == [] then []
    else
      var now := match es[0]
        case Manual(run) => [Run(run.at, run.ok, run.retryable, true)]
        case Enable(_) => []
        case Tick(at, retryable, ok) => if s.r.IsDue(at) then [Run(at, ok, retryable, false)] else [];
      now + Recorded(Step(s, es[0]), es[1..])
  }

  // The last twenty of a list, or all of it when it is shorter.
  ghost predicate LastTwenty(runs: seq<Run>, all: seq<Run>) {
    |runs| == Min(|all|, 20) && runs == all[|all| - |runs|..]
  }

  lemma RecordedNow(s: Sys, es: seq<Event>)
    requires es != []
    ensures Recorded(s, es) == Recorded(s, [es[0]]) + Recorded(Step(s, es[0]), es[1..])
    ensures After(s, es) == After(Step(s, es[0]), es[1..])
  {
    assert [es[0]][1..] == [];
    hide Step, Record.IsDue;
  }

  lemma OneMoreRun(runs: seq<Run>, all: seq<Run>, run: Run)
    requires LastTwenty(runs, all)
    ensures LastTwenty(Trim(runs + [run]), all + [run])
  {
  }

  lemma HistoryStep(s: Sys, e: Event, all: seq<Run>)
    requires LastTwenty(s.r.runs, all)
    ensures LastTwenty(Step(s, e).r.runs, all + Recorded(s, [e]))
  {
    hide Record.IsDue, Streak, Wait, Trim, LastTwenty;
    RecordedOne(s, e);
    match e
    case Manual(run) => OneMoreRun(s.r.runs, all, Run(run.at, run.ok, run.retryable, true));
    case Enable(_) => assert all + [] == all;
    case Tick(now, retryable, ok) =>
      OneMoreRun(s.r.runs, all, Run(now, ok, retryable, false));
      assert all + [] == all;
  }

  lemma RecordedOne(s: Sys, e: Event)
    ensures Recorded(s, [e])
            == match e
               case Manual(run) => [Run(run.at, run.ok, run.retryable, true)]
               case Enable(_) => []
               case Tick(at, retryable, ok) => if s.r.IsDue(at) then [Run(at, ok, retryable, false)] else []
  {
    hide Record.IsDue, Step;
    assert [e][1..] == [];
  }

  // A history is the last twenty runs recorded, whatever they were.
  lemma {:induction false} HistoryIsTheLast(s: Sys, es: seq<Event>, all: seq<Run>)
    requires LastTwenty(s.r.runs, all)
    ensures LastTwenty(After(s, es).r.runs, all + Recorded(s, es))
    decreases |es|
  {
    if es == [] {
      assert all + Recorded(s, es) == all;
    } else {
      var now := Recorded(s, [es[0]]);
      RecordedNow(s, es);
      HistoryStep(s, es[0], all);
      hide *;
      HistoryIsTheLast(Step(s, es[0]), es[1..], all + now);
      assert all + now + Recorded(Step(s, es[0]), es[1..]) == all + Recorded(s, es);
    }
  }

  // One that waits for events is never owed a run, whatever happens.
  lemma {:induction false} EventNeverDue(s: Sys, es: seq<Event>, now: Instant)
    requires s.r.trigger.OnEvent?
    ensures !After(s, es).r.IsDue(now)
    decreases |es|
  {
    if es != [] {
      EventNeverDue(Step(s, es[0]), es[1..], now);
    }
  }

  // ── how long it waits ──────────────────────────────────────────────

  // The streak a history shows is the streak there was, as far as waiting is
  // concerned: trimming never shortens a streak below the cap.
  lemma {:induction false} StreakOfSuffix(runs: seq<Run>, k: nat)
    requires k <= |runs|
    ensures Streak(runs[k..]) == Min(Streak(runs), |runs| - k)
    decreases |runs| - k
  {
    if k < |runs| {
      var last := |runs| - 1;
      assert runs[k..][..last - k] == runs[..last][k..];
      StreakOfSuffix(runs[..last], k);
    }
  }

  lemma StreakAfter(r: Record, run: Run)
    requires Min(Streak(r.runs), RETRY_BACKOFF_STEPS) == Streak(r.runs) || Streak(r.runs) >= RETRY_BACKOFF_STEPS
    ensures var all := r.runs + [run];
            Min(Streak(Trim(all)), RETRY_BACKOFF_STEPS)
            == if run.retryable then Min(Streak(r.runs) + 1, RETRY_BACKOFF_STEPS) else 0
  {
    var all := r.runs + [run];
    assert all[..|all| - 1] == r.runs;
    if |all| > MAX_RUNS_KEPT {
      StreakOfSuffix(all, |all| - MAX_RUNS_KEPT);
    }
  }

  // The first n attempts of an outage, at these times.
  function AfterFailures(r: Record, ats: seq<Instant>): Record {
    if ats == [] then r
    else AfterRun(AfterFailures(r, ats[..|ats| - 1]), Run(ats[|ats| - 1], false, true, false))
  }

  // The nth attempt in a row that has to be repeated is followed by a wait of
  // 10, 20, 40, 80, 160 and from then on 320 minutes.
  lemma {:induction false} NthWait(r: Record, ats: seq<Instant>)
    requires Streak(r.runs) == 0
    ensures Min(Streak(AfterFailures(r, ats).runs), RETRY_BACKOFF_STEPS) == Min(|ats|, RETRY_BACKOFF_STEPS)
    ensures ats != [] ==> AfterFailures(r, ats).retryAfter == Some(ats[|ats| - 1] + Wait(|ats| - 1) * MINUTE)
    decreases |ats|
  {
    hide Trim, Streak;
    if ats != [] {
      var last := |ats| - 1;
      NthWait(r, ats[..last]);
      StreakAfter(AfterFailures(r, ats[..last]), Run(ats[last], false, true, false));
      hide Pow2;
    }
  }

  lemma Waits()
    ensures Wait(0) == 10 && Wait(1) == 20 && Wait(2) == 40 && Wait(3) == 80 && Wait(4) == 160
    ensures forall n: nat :: n >= 5 ==> Wait(n) == 320
  {
    assert Pow2(1) == 2 && Pow2(2) == 4 && Pow2(3) == 8;
    assert Pow2(4) == 16 && Pow2(5) == 32;
  }

  // Attempts a scheduler could have made: each one when the routine was due.
  ghost predicate EachWhenDue(r: Record, ats: seq<Instant>) {
    forall i :: 0 <= i < |ats| ==> AfterFailures(r, ats[..i]).IsDue(ats[i])
  }

  function WaitsBefore(n: nat): int {
    if n <= 1 then 0 else WaitsBefore(n - 1) + Wait(n - 2)
  }

  lemma {:induction false} AttemptsSpread(r: Record, ats: seq<Instant>)
    requires Streak(r.runs) == 0 && EachWhenDue(r, ats) && ats != []
    ensures ats[|ats| - 1] - ats[0] >= WaitsBefore(|ats|) * MINUTE
    decreases |ats|
  {
    hide Next, Wait, Streak, AfterFailures, Trim;
    var last := |ats| - 1;
    if last > 0 {
      var before := ats[..last];
      forall i | 0 <= i < |before|
        ensures AfterFailures(r, before[..i]).IsDue(before[i])
      {
        assert before[..i] == ats[..i];
      }
      AttemptsSpread(r, before);
      NthWait(r, before);
      assert AfterFailures(r, ats[..last]).IsDue(ats[last]);
    }
  }

  lemma {:induction false} WaitsAddUp(n: nat)
    requires n >= 6
    ensures WaitsBefore(n) == 310 + 320 * (n - 6)
    decreases n
  {
    Waits();
    if n == 6 {
      assert WaitsBefore(1) == 0;
      assert WaitsBefore(2) == 10;
      assert WaitsBefore(3) == 30;
      assert WaitsBefore(4) == 70;
      assert WaitsBefore(5) == 150;
    } else {
      WaitsAddUp(n - 1);
    }
  }

  // An outage of at least 310 minutes sees no more than 6 attempts and one
  // more for every further 320 minutes.
  lemma {:induction false} OutageAttempts(r: Record, ats: seq<Instant>, minutes: nat)
    requires Streak(r.runs) == 0 && EachWhenDue(r, ats)
    requires minutes >= 310 && ats != [] && ats[|ats| - 1] - ats[0] <= minutes * MINUTE
    ensures |ats| <= 6 + (minutes - 310) / 320
  {
    hide WaitsBefore, EachWhenDue, Streak;
    AttemptsSpread(r, ats);
    if |ats| >= 6 {
      WaitsAddUp(|ats|);
      assert WaitsBefore(|ats|) <= minutes;
    }
  }

  // A run by hand leaves the wait after the next failure as it is exactly when
  // it is harmless.
  lemma {:induction false} ManualRunWait(r: Record, run: Run, failed: Run)
    requires failed.retryable
    ensures AfterRun(AfterManualRun(r, run), failed).retryAfter == AfterRun(r, failed).retryAfter <==> Harmless(r, run)
  {
    hide Streak, Trim, Wait;
    WaitedAfter(r, run.(manual := true));
    var q := AfterManualRun(r, run);
    WaitOf(Streak(r.runs));
    WaitOf(Streak(q.runs));
    WaitsDiffer(Waited(r), Waited(q));
  }

  lemma WaitsDiffer(a: nat, b: nat)
    requires a <= RETRY_BACKOFF_STEPS && b <= RETRY_BACKOFF_STEPS
    ensures Wait(a) == Wait(b) <==> a == b
  {
    Waits();
  }

  // For instance a rehearsal in the middle of an outage starts the waits over.
  lemma {:induction false} RehearsalResetsWait(r: Record, run: Run, failed: Run)
    requires failed.retryable && !run.retryable && Streak(r.runs) > 0
    ensures AfterRun(AfterManualRun(r, run), failed).retryAfter == Some(failed.at + 10 * MINUTE)
    ensures AfterRun(r, failed).retryAfter != Some(failed.at + 10 * MINUTE)
  {
    hide Streak, Trim, Wait;
    var q := AfterManualRun(r, run);
    WaitedAfter(r, run.(manual := true));
    WaitOf(Streak(q.runs));
    WaitOf(Streak(r.runs));
    Waits();
    WaitsDiffer(Waited(r), 0);
  }

  // ── how many were missed ───────────────────────────────────────────

  function FiringMinutes(f: Fields, after: int, upTo: int): set<int> {
    set m: int | after < m <= upTo && Fires(f, m)
  }

  // A window without a firing, and one after it that counts.
  ghost predicate BlindStretch(f: Fields, x: int, upTo: int) {
    && (forall m :: x <= m < x + WINDOW ==> !Fires(f, m))
    && exists m :: x + WINDOW <= m <= upTo && Fires(f, m)
  }

  // The next firing splits off from those after it.
  lemma CountFrom(f: Fields, after: int, m: int, upTo: int)
    requires after < m && Fires(f, m) && forall u :: after < u < m ==> !Fires(f, u)
    ensures m <= upTo ==> |FiringMinutes(f, after, upTo)| == 1 + |FiringMinutes(f, m, upTo)|
    ensures m > upTo ==> FiringMinutes(f, after, upTo) == {}
  {
    hide Fires;
    if m <= upTo {
      assert FiringMinutes(f, after, upTo) == {m} + FiringMinutes(f, m, upTo);
    }
  }

  // What one step of the search does, in minutes.
  lemma StepInMinutes(r: Record, from: Instant, now: Instant)
    requires r.trigger.OnSchedule?
    ensures var f, offset := r.trigger.fields, r.trigger.offset;
            var a, next := LocalMinute(from, offset), r.NextAfter(from);
            if next.None? then forall u :: a < u <= a + WINDOW ==> !Fires(f, u)
            else
              var m := LocalMinute(next.value, offset);
              && a < m <= a + WINDOW && Fires(f, m) && (forall u :: a < u < m ==> !Fires(f, u))
              && (next.value <= now <==> m <= LocalMinute(now, offset))
  {
    hide Fires;
    var t := LocalMinute(from, r.trigger.offset) + 1;
    FirstFromMeaning(r.trigger.fields, t, t + WINDOW);
    var m := NextMinute(r.trigger.fields, from, r.trigger.offset);
    if m.Some? {
      InstantOfMinute(m.value, r.trigger.offset, now);
    }
  }

  // A blind stretch is never stepped over.
  lemma {:induction false} StepsStop(r: Record, from: Instant, now: Instant, n: nat, x: int)
    requires r.trigger.OnSchedule? && n <= 1001
    requires x > LocalMinute(from, r.trigger.offset) && BlindStretch(r.trigger.fields, x, LocalMinute(now, r.trigger.offset))
    ensures Steps(r, from, now, n) <= n + |FiringMinutes(r.trigger.fields, LocalMinute(from, r.trigger.offset), x)|
    decreases 1001 - n
  {
    hide Fires, FiringMinutes, Next;
    StepInMinutes(r, from, now);
    var f, offset := r.trigger.fields, r.trigger.offset;
    var next := r.NextAfter(from);
    if next.Some? && next.value <= now && n <= 1000 {
      var m := LocalMinute(next.value, offset);
      assert m < x;
      CountFrom(f, LocalMinute(from, offset), m, x);
      StepsStop(r, next.value, now, n + 1, x);
    }
  }

  lemma {:induction false} StepsMeetAll(r: Record, from: Instant, now: Instant, n: nat)
    requires r.trigger.OnSchedule? && n <= 1001
    requires forall x :: x > LocalMinute(from, r.trigger.offset)
                         && BlindStretch(r.trigger.fields, x, LocalMinute(now, r.trigger.offset))
                         ==> n + |FiringMinutes(r.trigger.fields, LocalMinute(from, r.trigger.offset), x)| >= 1001
    ensures Steps(r, from, now, n)
            == Min(n + |FiringMinutes(r.trigger.fields, LocalMinute(from, r.trigger.offset), LocalMinute(now, r.trigger.offset))|, 1001)
    decreases 1001 - n
  {
    hide Fires, FiringMinutes, Next, BlindStretch;
    StepInMinutes(r, from, now);
    var f, offset := r.trigger.fields, r.trigger.offset;
    var a, b := LocalMinute(from, offset), LocalMinute(now, offset);
    var next := r.NextAfter(from);
    if next.None? {
      NothingOrBlind(f, a, b);
    } else {
      var m := LocalMinute(next.value, offset);
      CountFrom(f, a, m, b);
      if next.value <= now && n <= 1000 {
        forall x | x > m && BlindStretch(f, x, b)
          ensures n + 1 + |FiringMinutes(f, m, x)| >= 1001
        {
          CountFrom(f, a, m, x);
        }
        StepsMeetAll(r, next.value, now, n + 1);
      }
    }
  }

  lemma NothingOrBlind(f: Fields, a: int, b: int)
    requires forall u :: a < u <= a + WINDOW ==> !Fires(f, u)
    ensures FiringMinutes(f, a, b) == {} || BlindStretch(f, a + 1, b)
    ensures FiringMinutes(f, a, a + 1) == {}
  {
    hide Fires;
    if FiringMinutes(f, a, b) != {} {
      var m :| m in FiringMinutes(f, a, b);
      assert a + 1 + WINDOW <= m <= b && Fires(f, m);
    }
  }

  lemma FewerBefore(f: Fields, a: int, x: int, b: int)
    requires BlindStretch(f, x, b)
    ensures |FiringMinutes(f, a, x)| < |FiringMinutes(f, a, b)| || x < a
  {
    hide Fires;
    if x >= a {
      var m :| x + WINDOW <= m <= b && Fires(f, m);
      var early, all := FiringMinutes(f, a, x), FiringMinutes(f, a, b);
      assert m in all && m !in early;
      assert early <= all - {m};
      SubsetSmaller(early, all - {m});
    }
  }

  // No blind stretch begins after a minute before 1,001 firings have come.
  ghost predicate NoneBlind(f: Fields, after: int, upTo: int) {
    forall x :: x > after && BlindStretch(f, x, upTo) ==> |FiringMinutes(f, after, x)| >= 1001
  }

  // Stepping with the search meets every firing once, up to 1,001 of them, if
  // and only if no blind stretch lies before the last of those.
  lemma {:induction false} StepsExactly(r: Record, from: Instant, now: Instant)
    requires r.trigger.OnSchedule?
    ensures var f, a, b := r.trigger.fields, LocalMinute(from, r.trigger.offset), LocalMinute(now, r.trigger.offset);
            Steps(r, from, now, 0) == Min(|FiringMinutes(f, a, b)|, 1001) <==> NoneBlind(f, a, b)
  {
    hide Fires, FiringMinutes, Next, BlindStretch, Steps;
    var f, a, b := r.trigger.fields, LocalMinute(from, r.trigger.offset), LocalMinute(now, r.trigger.offset);
    if NoneBlind(f, a, b) {
      StepsMeetAll(r, from, now, 0);
    } else {
      var x :| x > a && BlindStretch(f, x, b) && |FiringMinutes(f, a, x)| <= 1000;
      StepsStop(r, from, now, 0, x);
      FewerBefore(f, a, x, b);
    }
  }

  // What is reported as missed is one less than the firings since the last
  // run, counted up to 1,001, exactly then; or when it comes to none either way.
  lemma {:induction false} MissedExactly(r: Record, now: Instant)
    requires r.trigger.OnSchedule? && r.lastRun.Some?
    ensures var f, a, b := r.trigger.fields, LocalMinute(r.lastRun.value, r.trigger.offset), LocalMinute(now, r.trigger.offset);
            var count := |FiringMinutes(f, a, b)|;
            MissedSince(r, now) == (if count == 0 then 0 else Min(count, 1001) - 1) <==> NoneBlind(f, a, b) || count == 1
  {
    hide Fires, FiringMinutes, Next, NoneBlind, Steps;
    StepsExactly(r, r.lastRun.value, now);
    StepsAtMostAll(r, r.lastRun.value, now, 0);
  }

  lemma {:induction false} StepsAtMostAll(r: Record, from: Instant, now: Instant, n: nat)
    requires r.trigger.OnSchedule? && n <= 1001
    ensures Steps(r, from, now, n)
            <= Min(n + |FiringMinutes(r.trigger.fields, LocalMinute(from, r.trigger.offset), LocalMinute(now, r.trigger.offset))|, 1001)
    decreases 1001 - n
  {
    hide Fires, FiringMinutes, Next;
    StepInMinutes(r, from, now);
    var f, offset := r.trigger.fields, r.trigger.offset;
    var next := r.NextAfter(from);
    if next.Some? && next.value <= now && n <= 1000 {
      CountFrom(f, LocalMinute(from, offset), LocalMinute(next.value, offset), LocalMinute(now, offset));
      StepsAtMostAll(r, next.value, now, n + 1);
    }
  }

  // There is none for a schedule that names other days than leap days, and none
  // for one that does not while no leap day is skipped.
  lemma {:induction false} SeesUnlessSkipped(f: Fields, from: int, upTo: int)
    requires f.WellFormed()
    requires LeapDayOnly(f) ==> NoLeapDaySkipped(from / DAY, upTo / DAY)
    ensures NoneBlind(f, from, upTo)
  {
    hide Fires, LeapDayOnly, NoLeapDaySkipped, FiringMinutes, NamesADay;
    forall x | x > from && BlindStretch(f, x, upTo)
      ensures false
    {
      var m :| x + WINDOW <= m <= upTo && Fires(f, m);
      var u := FindsOne(f, x, m, from, upTo);
    }
  }

  lemma FindsOne(f: Fields, x: int, m: int, from: int, upTo: int) returns (u: int)
    requires f.WellFormed() && Fires(f, m) && from < x <= m <= upTo
    requires LeapDayOnly(f) ==> NoLeapDaySkipped(from / DAY, upTo / DAY)
    ensures InWindow(x, u) && Fires(f, u)
  {
    hide LeapDayOnly, NoLeapDaySkipped, Fires, FiresOnDay, FiresAtTime, FirstFrom;
    MinuteOfDay(f, m);
    if LeapDayOnly(f) {
      DaysInOrder(from, x);
      DaysInOrder(m, upTo);
      u := LeapDayNear(f, x, m, from / DAY, upTo / DAY);
    } else {
      var day := DayWithinTwoYears(f, x / DAY, m / DAY);
      var minute := SomeTime(f);
      u := day * DAY + minute;
      TwoYearsInWindow(f, x, day, minute);
    }
  }

  lemma DaysInOrder(a: int, b: int)
    requires a <= b
    ensures a / DAY <= b / DAY
  {
  }

  // A leap day ahead, with none skipped before it, brings one into the window.
  lemma LeapDayNear(f: Fields, t: int, m: int, from: int, upTo: int) returns (u: int)
    requires f.WellFormed() && LeapDayOnly(f) && Fires(f, m) && m >= t
    requires NoLeapDaySkipped(from, upTo) && from <= t / DAY && m / DAY <= upTo
    ensures InWindow(t, u) && Fires(f, u)
  {
    hide LeapDayOnly, Fires, FiresOnDay, FiresAtTime, DateOf, Leap, Slot, FirstFrom;
    MinuteOfDay(f, m);
    LeapDayFires(f, m / DAY);
    var c := DateOf(m / DAY).year;
    LeapDayNumber(c);
    assert DayNumber(DateOf(m / DAY)) == m / DAY == Slot(c);
    FourthYear(c);
    var y := SlotInWindow(t, m % DAY);
    SlotMonotone(y, c);
    assert Leap(y);
    LeapDayNumber(y);
    LeapDayFiresThen(f, y, m % DAY);
    u := Slot(y) * DAY + m % DAY;
  }

  lemma FourthYear(y: int)
    requires Leap(y)
    ensures y % 4 == 0
  {
  }
}
