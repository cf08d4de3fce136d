/**
 * Runs of the attendance screen: sequences of button presses, interval
 * ticks and the initial location load, applied one after another. The
 * buttons' `disabled` props decide which presses can happen.
 */
module Trace {
  import opened Wrappers
  import opened Geofence
  import opened Session

  /** Something that can happen to a mounted screen. */
  datatype Action =
    | PressClockIn(distance: real, fix: Option<Coordinate>)
    | PressClockOut(fix: Option<Coordinate>)
    | IntervalFires(timer: TimerId, fix: Option<Coordinate>)
    | LocationLoaded(granted: bool, fix: Option<Coordinate>)

  /**
   * The state after one action: each button runs its handler, a tick sends
   * an `update` report. Only presses change the session; no action removes
   * a report, and any interval it starts has a handle not handed out before.
   */
  function Step(s: State, a: Action): (r: State)
    ensures a.IntervalFires? || a.LocationLoaded? ==> SameSession(s, r)
    ensures a.PressClockIn? ==> (r.clockedIn <==> s.clockedIn || WithinRadius(a.distance))
    ensures a.PressClockOut? ==> !r.clockedIn
    ensures a.IntervalFires? ==> r.events == s.events + Sent(Update, a.fix)
    ensures s.events <= r.events && s.nextTimer <= r.nextTimer
    ensures forall t :: t in r.live && t !in s.live ==> s.nextTimer <= t
  {
    match a
    case PressClockIn(distance, fix) => ClockInStep(s, distance, fix)
    case PressClockOut(fix) => ClockOutStep(s, fix)
    case IntervalFires(_, fix) => Send(s, Update, fix)
    case LocationLoaded(granted, fix) => LoadLocationStep(s, granted, fix)
  }

  /**
   * Only a live interval fires; the buttons are disabled as the screen
   * renders them, so exactly one of the two is enabled at any time.
   */
  predicate Enabled(s: State, a: Action): (e: bool)
    ensures a.PressClockIn? || a.PressClockOut? ==> (e <==> (a.PressClockIn? != s.clockedIn))
    ensures a.IntervalFires? ==> (e <==> a.timer in s.live)
    ensures a.LocationLoaded? ==> e
  {
    match a
    case PressClockIn(_, _) => !s.clockedIn
    case PressClockOut(_) => s.clockedIn
    case IntervalFires(t, _) => t in s.live
    case LocationLoaded(_, _) => true
  }

  /** The state after a whole run. */
  function Run(s: State, acts: seq<Action>): State
    decreases |acts|
  {
    if acts == [] then s else Run(Step(s, acts[0]), acts[1..])
  }

  /** Every action of the run is enabled in the state it happens in. */
  predicate Guarded(s: State, acts: seq<Action>)
    decreases |acts|
  {
    acts == [] || (Enabled(s, acts[0]) && Guarded(Step(s, acts[0]), acts[1..]))
  }

  /** One enabled action keeps well-formedness and the single-timer invariant. */
  lemma StepKeepsSingleTimer(s: State, a: Action)
    requires WellFormed(s) && SingleTimer(s) && Enabled(s, a)
    ensures WellFormed(Step(s, a)) && SingleTimer(Step(s, a))
  {
    match a
    case PressClockIn(distance, fix) => ClockInKeepsSingleTimer(s, distance, fix);
    case PressClockOut(fix) => ClockOutKeepsSingleTimer(s, fix);
    case IntervalFires(_, fix) => SendKeepsSingleTimer(s, Update, fix);
    case LocationLoaded(_, _) =>
  }

  /**
   * Under the button guards, at most one interval is live, it is the stored
   * one, and a handle is stored exactly while clocked in, after any run.
   */
  lemma {:induction false} GuardedRunKeepsSingleTimer(s: State, acts: seq<Action>)
    requires WellFormed(s) && SingleTimer(s) && Guarded(s, acts)
    ensures WellFormed(Run(s, acts)) && SingleTimer(Run(s, acts))
    ensures |Run(s, acts).live| <= 1
    decreases |acts|
  {
    if acts != [] {
      StepKeepsSingleTimer(s, acts[0]);
      GuardedRunKeepsSingleTimer(Step(s, acts[0]), acts[1..]);
    }
  }

  /** From the first render, every guarded run keeps the invariant. */
  lemma ReachableKeepsSingleTimer(acts: seq<Action>)
    requires Guarded(Initial(), acts)
    ensures SingleTimer(Run(Initial(), acts))
    ensures Run(Initial(), acts).clockedIn <==> |Run(Initial(), acts).live| == 1
  {
    GuardedRunKeepsSingleTimer(Initial(), acts);
  }

  /**
   * Once a guarded run ends clocked out no interval can fire, so no `update`
   * report is sent until the next clock-in.
   */
  lemma NoTickAfterClockOut(s: State, acts: seq<Action>, t: TimerId, fix: Option<Coordinate>)
    requires WellFormed(s) && SingleTimer(s) && Guarded(s, acts)
    requires !Run(s, acts).clockedIn
    ensures !Enabled(Run(s, acts), IntervalFires(t, fix))
  {
    GuardedRunKeepsSingleTimer(s, acts);
  }

  /** A tick only ever comes from a live interval, and under the invariant only while clocked in. */
  lemma UpdateOnlyWhileLive(s: State, a: Action)
    requires WellFormed(s) && SingleTimer(s) && Enabled(s, a)
    requires Step(s, a).events != s.events
    requires Step(s, a).events[|Step(s, a).events| - 1].status == Update
    ensures a.IntervalFires? && a.timer in s.live && s.clockedIn
  {
  }

  /** Unmounting after any guarded run leaves no interval running. */
  lemma UnmountLeavesNoTimer(s: State, acts: seq<Action>)
    requires WellFormed(s) && SingleTimer(s) && Guarded(s, acts)
    ensures UnmountStep(Run(s, acts)).live == {}
  {
    GuardedRunKeepsSingleTimer(s, acts);
  }

  /**
   * The report log only grows: every run keeps the reports already sent as
   * a prefix. The handle counter never decreases, and every interval the run
   * leaves live that was not live before has a handle not handed out before.
   */
  lemma {:induction false} RunOnlyAppendsEvents(s: State, acts: seq<Action>)
    ensures s.events <= Run(s, acts).events
    ensures s.nextTimer <= Run(s, acts).nextTimer
    ensures forall t :: t in Run(s, acts).live && t !in s.live ==> s.nextTimer <= t
    decreases |acts|
  {
    if acts != [] {
      RunOnlyAppendsEvents(Step(s, acts[0]), acts[1..]);
    }
  }

  /**
   * Clock-in within range followed by clock-out, both with a position fix:
   * exactly one `clockin` and one `clockout` report, and no interval left.
   */
  lemma ClockInThenClockOut(s: State, distance: real, c1: Coordinate, c2: Coordinate)
    requires WellFormed(s) && SingleTimer(s) && !s.clockedIn
    requires WithinRadius(distance)
    ensures var r := Run(s, [PressClockIn(distance, Some(c1)), PressClockOut(Some(c2))]);
      && !r.clockedIn && r.intervalRef == None && r.live == {}
      && r.events == s.events + [Event(ClockIn, c1), Event(ClockOut, c2)]
  {
    var acts := [PressClockIn(distance, Some(c1)), PressClockOut(Some(c2))];
    var mid := ClockInStep(s, distance, Some(c1));
    assert acts[1..] == [PressClockOut(Some(c2))] && acts[1..][1..] == [];
    assert Run(s, acts) == Run(mid, acts[1..]) == ClockOutStep(mid, Some(c2));
  }
}
