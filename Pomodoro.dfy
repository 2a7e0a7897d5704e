/**
 * The Pomodoro focus timer (PomodoroTimer.tsx): a 25-minute focus phase and a
 * 5-minute break phase counted down one second per interval tick, and the
 * session ledger (the 'focusSessions' storage slot) it appends to whenever a
 * running phase ends, by completion or by a pause.
 *
 * The clock collaborator (`Date.now()` for the id, today's ISO date) is the
 * `Stamp` parameter; the step functions below are the transitions, and the
 * `PomodoroTimer` class holds the component's state and applies them in place.
 */
module Pomodoro {
  import opened Common

  datatype SessionType = Focus | Break

  /** One ledger record; 'pomodoro' in the stored JSON is `Focus` here. */
  datatype Session = Session(id: int, date: string, duration: nat, kind: SessionType, completed: bool)

  /** What the clock supplies when a record is written: `Date.now()` and today's ISO date. */
  datatype Stamp = Stamp(now: int, today: string)

  /** The timer's four state variables. */
  datatype Clock = Clock(minutes: int, seconds: int, isActive: bool, isBreak: bool)

  /** The result of one transition: the new clock and the records it appended (zero or one). */
  datatype Step = Step(clock: Clock, written: seq<Session>)

  const Initial: Clock := Clock(25, 0, false, false)

  /** Seconds left on the display. */
  function Remaining(c: Clock): int { c.minutes * 60 + c.seconds }

  /** Nominal length, in seconds, of the phase the clock is in. */
  function PhaseLength(isBreak: bool): nat { if isBreak then 300 else 1500 }

  /** The states the timer can be in: a valid display, never above the phase's length. */
  predicate Reachable(c: Clock) {
    0 <= c.seconds <= 59 && 0 <= c.minutes && Remaining(c) <= PhaseLength(c.isBreak)
  }

  /** The record `saveFocusSession(completed)` builds for the phase the clock is in. */
  function Record(c: Clock, completed: bool, stamp: Stamp): Session {
    Session(stamp.now, stamp.today, if c.isBreak then 5 else 25, if c.isBreak then Break else Focus, completed)
  }

  /** One run of the interval callback (only installed while the timer is active). */
  function TickStep(c: Clock, stamp: Stamp): (r: Step)
    ensures Reachable(c) ==> Reachable(r.clock)
    ensures |r.written| <= 1
    ensures r.written != [] <==> c.isActive && c.minutes == 0 && c.seconds == 0
  {
    if !c.isActive then Step(c, [])
    else if c.seconds == 0 then
      if c.minutes == 0 then
        Step(Clock(if c.isBreak then 25 else 5, 0, false, !c.isBreak), [Record(c, true, stamp)])
      else
        Step(Clock(c.minutes - 1, 59, true, c.isBreak), [])
    else
      Step(c.(seconds := c.seconds - 1), [])
  }

  /** `toggleTimer`: pausing a running timer logs an incomplete session; starting logs nothing. */
  function ToggleStep(c: Clock, stamp: Stamp): (r: Step)
    ensures Reachable(c) ==> Reachable(r.clock)
    ensures r.clock == c.(isActive := !c.isActive)
    ensures r.written == if c.isActive then [Record(c, false, stamp)] else []
  {
    Step(c.(isActive := !c.isActive), if c.isActive then [Record(c, false, stamp)] else [])
  }

  /** `resetTimer`: back to a stopped 25:00 focus phase, nothing logged. */
  function ResetStep(c: Clock): (r: Step)
    ensures Reachable(r.clock) && r.clock == Initial && r.written == []
  {
    Step(Initial, [])
  }

  // ---------------------------------------------------------------------
  // Properties of single ticks
  // ---------------------------------------------------------------------

  /** The clock that shows `rem` seconds, running, in the given phase. */
  function RunningAt(rem: nat, isBreak: bool): Clock {
    Clock(rem / 60, rem % 60, true, isBreak)
  }

  /** A tick of a running timer with time left takes exactly one second off and writes nothing. */
  lemma TickCountsDown(c: Clock, stamp: Stamp)
    requires Reachable(c) && c.isActive && Remaining(c) > 0
    ensures TickStep(c, stamp) == Step(RunningAt(Remaining(c) - 1, c.isBreak), [])
    ensures c.seconds > 0 ==> TickStep(c, stamp).clock == c.(seconds := c.seconds - 1)
    ensures c.seconds == 0 ==> TickStep(c, stamp).clock == c.(minutes := c.minutes - 1, seconds := 59)
  {
  }

  /** A tick at 00:00 logs one completed record of the phase, stops, and switches phase. */
  lemma TickCompletes(c: Clock, stamp: Stamp)
    requires c.isActive && c.minutes == 0 && c.seconds == 0
    ensures TickStep(c, stamp).written == [Session(stamp.now, stamp.today, if c.isBreak then 5 else 25, if c.isBreak then Break else Focus, true)]
    ensures TickStep(c, stamp).clock == Clock(if c.isBreak then 25 else 5, 0, false, !c.isBreak)
  {
  }

  // ---------------------------------------------------------------------
  // Runs of consecutive ticks
  // ---------------------------------------------------------------------

  /** `n` consecutive ticks, every record stamped alike. */
  function RunTicks(c: Clock, n: nat, stamp: Stamp): Step
    decreases n
  {
    if n == 0 then Step(c, [])
    else
      var before := RunTicks(c, n - 1, stamp);
      var last := TickStep(before.clock, stamp);
      Step(last.clock, before.written + last.written)
  }

  lemma RunningAtShows(rem: nat, isBreak: bool)
    requires rem <= PhaseLength(isBreak)
    ensures Remaining(RunningAt(rem, isBreak)) == rem && Reachable(RunningAt(rem, isBreak))
  {
  }

  lemma RunningAtOfClock(c: Clock)
    requires 0 <= c.seconds <= 59 && 0 <= c.minutes && c.isActive
    ensures c == RunningAt(Remaining(c), c.isBreak)
  {
  }

  /** One more tick after `n` ticks. */
  lemma RunTicksSucc(c: Clock, n: nat, stamp: Stamp)
    ensures var before := RunTicks(c, n, stamp);
      RunTicks(c, n + 1, stamp)
      == Step(TickStep(before.clock, stamp).clock, before.written + TickStep(before.clock, stamp).written)
  {
  }

  /** Uninterrupted ticks of a running timer count down without writing, as long as time is left. */
  lemma {:induction false} CountdownWritesNothing(c: Clock, n: nat, stamp: Stamp)
    requires Reachable(c) && c.isActive && n <= Remaining(c)
    ensures RunTicks(c, n, stamp) == Step(RunningAt(Remaining(c) - n, c.isBreak), [])
    decreases n
  {
    if n > 0 {
      CountdownWritesNothing(c, n - 1, stamp);
      var rem: nat := Remaining(c) - (n - 1);
      var before := RunningAt(rem, c.isBreak);
      RunningAtShows(rem, c.isBreak);
      TickCountsDown(before, stamp);
      RunTicksSucc(c, n - 1, stamp);
    } else {
      RunningAtOfClock(c);
    }
  }

  /**
   * From a started 25:00 focus phase, 1500 ticks reach 00:00 with nothing
   * logged; the 1501st tick logs the single completed focus record and leaves
   * a stopped 05:00 break.
   */
  lemma FullFocusSession(stamp: Stamp)
    ensures RunTicks(Initial.(isActive := true), 1500, stamp) == Step(Clock(0, 0, true, false), [])
    ensures RunTicks(Initial.(isActive := true), 1501, stamp)
         == Step(Clock(5, 0, false, true), [Session(stamp.now, stamp.today, 25, Focus, true)])
  {
    PhaseRunsOut(Initial.(isActive := true), stamp);
  }

  /** A running phase reaches 00:00 after its remaining seconds, and the next tick completes it. */
  lemma PhaseRunsOut(c: Clock, stamp: Stamp)
    requires Reachable(c) && c.isActive
    ensures RunTicks(c, Remaining(c), stamp) == Step(Clock(0, 0, true, c.isBreak), [])
    ensures RunTicks(c, Remaining(c) + 1, stamp)
         == Step(Clock(if c.isBreak then 25 else 5, 0, false, !c.isBreak), [Record(c, true, stamp)])
  {
    var n := Remaining(c);
    var zero := Clock(0, 0, true, c.isBreak);
    CountdownWritesNothing(c, n, stamp);
    assert RunningAt(0, c.isBreak) == zero;
    RunTicksSucc(c, n, stamp);
    TickCompletes(zero, stamp);
    assert Record(zero, true, stamp) == Record(c, true, stamp);
  }

  // ---------------------------------------------------------------------
  // Arbitrary sequences of user and interval events
  // ---------------------------------------------------------------------

  datatype Event = Tick(stamp: Stamp) | Toggle(stamp: Stamp) | Reset

  /** Whether handling `e` in state `c` ends a running phase (a pause, or a tick at 00:00). */
  predicate EndsRunningPhase(c: Clock, e: Event) {
    c.isActive && (e.Toggle? || (e.Tick? && c.minutes == 0 && c.seconds == 0))
  }

  /** Every record is a 25-minute focus session or a 5-minute break. */
  predicate NominalRecords(written: seq<Session>) {
    forall i :: 0 <= i < |written| ==>
      (written[i].kind == Focus && written[i].duration == 25) || (written[i].kind == Break && written[i].duration == 5)
  }

  /** One event: reachability is kept, and exactly the events that end a running phase write one nominal record. */
  function Apply(c: Clock, e: Event): (r: Step)
    ensures Reachable(c) ==> Reachable(r.clock)
    ensures |r.written| == if EndsRunningPhase(c, e) then 1 else 0
    ensures NominalRecords(r.written)
  {
    match e
    case Tick(stamp) => TickStep(c, stamp)
    case Toggle(stamp) => ToggleStep(c, stamp)
    case Reset => ResetStep(c)
  }

  function Run(c: Clock, events: seq<Event>): Step
    decreases |events|
  {
    if events == [] then Step(c, [])
    else
      var first := Apply(c, events[0]);
      var rest := Run(first.clock, events[1..]);
      Step(rest.clock, first.written + rest.written)
  }

  /** The number of events in a run that end a running phase. */
  function PhaseEnds(c: Clock, events: seq<Event>): nat
    decreases |events|
  {
    if events == [] then 0
    else (if EndsRunningPhase(c, events[0]) then 1 else 0) + PhaseEnds(Apply(c, events[0]).clock, events[1..])
  }

  /**
   * Over any sequence of ticks, toggles and resets from a reachable state: every
   * state stays reachable (0 <= seconds <= 59, 0 <= minutes <= 25), the ledger
   * gains exactly one record per running phase that ends, and every record is a
   * 25-minute focus or a 5-minute break.
   */
  lemma {:induction false} RunInvariant(c: Clock, events: seq<Event>)
    requires Reachable(c)
    ensures Reachable(Run(c, events).clock)
    ensures 0 <= Run(c, events).clock.minutes <= 25
    ensures |Run(c, events).written| == PhaseEnds(c, events)
    ensures NominalRecords(Run(c, events).written)
    decreases |events|
  {
    if events != [] {
      var first := Apply(c, events[0]);
      RunInvariant(first.clock, events[1..]);
      var rest := Run(first.clock, events[1..]);
      assert Run(c, events) == Step(rest.clock, first.written + rest.written);
    }
  }

  // ---------------------------------------------------------------------
  // Display
  // ---------------------------------------------------------------------

  /** `formatTime`: "MM:SS", each part padded to two digits; both parts read back. */
  function FormatTime(mins: nat, secs: nat): (r: string)
    ensures mins < 100 && secs < 100 ==>
              |r| == 5 && r[2] == ':' && AllDigits(r[..2]) && AllDigits(r[3..])
              && DecimalValue(r[..2]) == mins && DecimalValue(r[3..]) == secs
  {
    var m := Pad2(mins);
    var s := Pad2(secs);
    assert mins < 100 && secs < 100 ==> (m + ":" + s)[..2] == m && (m + ":" + s)[3..] == s;
    m + ":" + s
  }

  // ---------------------------------------------------------------------
  // The component
  // ---------------------------------------------------------------------

  class PomodoroTimer {
    var minutes: int
    var seconds: int
    var isActive: bool
    var isBreak: bool
    /** The 'focusSessions' ledger, in insertion order. */
    var sessions: seq<Session>

    function State(): Clock
      reads this
    {
      Clock(minutes, seconds, isActive, isBreak)
    }

    predicate Valid()
      reads this
    {
      Reachable(State())
    }

    /** A freshly mounted timer over the ledger already in storage. */
    constructor (stored: seq<Session>)
      ensures Valid() && State() == Initial && sessions == stored
    {
      minutes, seconds, isActive, isBreak := 25, 0, false, false;
      sessions := stored;
    }

    /** `saveFocusSession`: append one record for the current phase; earlier records are untouched. */
    method SaveFocusSession(completed: bool, stamp: Stamp)
      modifies this`sessions
      ensures sessions == old(sessions) + [Record(State(), completed, stamp)]
      ensures |sessions| == |old(sessions)| + 1
      ensures forall i :: 0 <= i < |old(sessions)| ==> sessions[i] == old(sessions)[i]
    {
      sessions := sessions + [Session(stamp.now, stamp.today, if isBreak then 5 else 25, if isBreak then Break else Focus, completed)];
    }

    /** The interval callback. */
    method Tick(stamp: Stamp)
      requires Valid()
      modifies this
      ensures Valid()
      ensures State() == TickStep(old(State()), stamp).clock
      ensures sessions == old(sessions) + TickStep(old(State()), stamp).written
    {
      if !isActive {
        return;
      }
      if seconds == 0 {
        if minutes == 0 {
          isActive := false;
          SaveFocusSession(true, stamp);
          var wasBreak := isBreak;
          isBreak := !wasBreak;
          minutes := if wasBreak then 25 else 5;
          seconds := 0;
          return;
        }
        minutes := minutes - 1;
        seconds := 59;
      } else {
        seconds := seconds - 1;
      }
    }

    method ToggleTimer(stamp: Stamp)
      requires Valid()
      modifies this
      ensures Valid()
      ensures State() == ToggleStep(old(State()), stamp).clock
      ensures sessions == old(sessions) + ToggleStep(old(State()), stamp).written
    {
      if isActive {
        SaveFocusSession(false, stamp);
      }
      isActive := !isActive;
    }

    method ResetTimer()
      modifies this
      ensures Valid() && State() == Initial
      ensures sessions == old(sessions)
    {
      isActive := false;
      minutes := 25;
      seconds := 0;
      isBreak := false;
    }
  }
}
