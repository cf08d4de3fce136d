/**
 * The attendance session of the clock-in screen as a value: the state the
 * screen keeps (`location`, `error`, `isClockedIn`, `intervalRef`), the
 * timers `setInterval` has started and not yet cleared, and the log of
 * location reports sent. One function per handler gives the state after it.
 */
module Session {
  import opened Wrappers
  import opened Geofence

  /** A handle returned by `setInterval`. */
  type TimerId = nat

  /** The `status` tag a location report carries. */
  datatype Status = ClockIn | Update | ClockOut

  /** One location report: its tag and the position it was sent with. */
  datatype Event = Event(status: Status, at: Coordinate)

  /** The two messages the initial location load can leave in `error`. */
  datatype LocationError = PermissionDenied | Unavailable

  /** What the handlers tell the user through `alert`. */
  datatype Alert = ClockInSuccessful | TooFarFromSite(meters: int) | ClockOutSuccessful

  datatype State = State(
    location: Option<Coordinate>,   // last position obtained, None while unknown
    error: Option<LocationError>,   // message set by the initial location load
    clockedIn: bool,                // isClockedIn
    intervalRef: Option<TimerId>,   // intervalRef.current
    live: set<TimerId>,             // intervals started and not cleared
    nextTimer: TimerId,             // handle the next setInterval returns
    events: seq<Event>)             // location reports sent, oldest first

  /** The screen as first rendered: no position, not clocked in, no timer. */
  function Initial(): (s: State)
    ensures WellFormed(s) && SingleTimer(s)
    ensures !s.clockedIn && s.live == {} && s.events == []
    ensures s.location == None && s.error == None
  {
    State(None, None, false, None, {}, 1, [])
  }

  /** The screen's test `if (intervalRef.current)`: a handle is truthy unless null or 0. */
  predicate Truthy(ref: Option<TimerId>): (truthy: bool)
    ensures truthy ==> ref.Some?
    ensures ref.Some? && ref.value >= 1 ==> truthy
    ensures ref == Some(0) ==> !truthy
  {
    ref.Some? && ref.value != 0
  }

  /** The handle set a stored reference denotes. */
  function Stored(ref: Option<TimerId>): set<TimerId>
  {
    if ref.Some? then {ref.value} else {}
  }

  /**
   * Handles are positive and handed out in increasing order, so every
   * handle seen so far is below `nextTimer`.
   */
  predicate WellFormed(s: State)
  {
    && 1 <= s.nextTimer
    && (forall t :: t in s.live ==> 1 <= t < s.nextTimer)
    && (s.intervalRef.Some? ==> 1 <= s.intervalRef.value < s.nextTimer)
  }

  /**
   * The invariant the two buttons keep: the stored handle is set exactly
   * while clocked in, and it is the only live interval.
   */
  predicate SingleTimer(s: State)
  {
    && (s.intervalRef.Some? <==> s.clockedIn)
    && s.live == Stored(s.intervalRef)
  }

  /** The clock-in state, the stored handle and the timers are those of `s`. */
  predicate SameSession(s: State, r: State)
  {
    && r.clockedIn == s.clockedIn
    && r.intervalRef == s.intervalRef
    && r.live == s.live
    && r.nextTimer == s.nextTimer
  }

  /** The reports one send adds to the log: one if a position was obtained, none otherwise. */
  function Sent(status: Status, fix: Option<Coordinate>): (r: seq<Event>)
    ensures |r| <= 1
    ensures |r| == 1 <==> fix.Some?
    ensures forall e :: e in r ==> e.status == status && fix == Some(e.at)
  {
    if fix.Some? then [Event(status, fix.value)] else []
  }

  /** The position known after a fetch: the new one, or the old one if the fetch failed. */
  function Latest(known: Option<Coordinate>, fix: Option<Coordinate>): Option<Coordinate>
  {
    if fix.Some? then fix else known
  }

  /**
   * `fetchAndSendLocation(status)`: on a position fix the screen remembers
   * it and sends one report tagged `status`; a failed fetch is caught and
   * logged, and nothing changes. The session itself is never touched.
   */
  function Send(s: State, status: Status, fix: Option<Coordinate>): (r: State)
    ensures SameSession(s, r) && r.error == s.error
    ensures fix.None? ==> r == s
    ensures r.events == s.events + Sent(status, fix)
    ensures r.location == Latest(s.location, fix)
  {
    match fix
    case None => s
    case Some(c) => s.(location := fix, events := s.events + [Event(status, c)])
  }

  /**
   * `handleClockIn` with the distance to the site already computed. Within
   * the radius (inclusive) it clocks in, sends a clock-in report and stores
   * a freshly started interval; beyond it nothing changes. It does not look
   * at `clockedIn`: only the disabled button stops a second clock-in.
   */
  function ClockInStep(s: State, distance: real, fix: Option<Coordinate>): (r: State)
    ensures !WithinRadius(distance) ==> r == s
    ensures WithinRadius(distance) ==>
      && r.clockedIn
      && r.intervalRef == Some(s.nextTimer)
      && r.live == s.live + {s.nextTimer}
      && r.nextTimer == s.nextTimer + 1
      && r.events == s.events + Sent(ClockIn, fix)
      && r.location == Latest(s.location, fix)
      && r.error == s.error
    ensures WellFormed(s) ==> WellFormed(r)
    ensures WellFormed(s) && WithinRadius(distance) ==> r.intervalRef.value !in s.live
  {
    if WithinRadius(distance) then
      var sent := Send(s.(clockedIn := true), ClockIn, fix);
      var t := s.nextTimer;
      sent.(intervalRef := Some(t), live := sent.live + {t}, nextTimer := t + 1)
    else
      s
  }

  /** The alert `handleClockIn` raises: success, or the distance rounded by `Math.round`. */
  function ClockInAlert(distance: real): (a: Alert)
    ensures a.ClockInSuccessful? <==> WithinRadius(distance)
    ensures !WithinRadius(distance) ==> a == TooFarFromSite(RoundHalfUp(distance))
    ensures a.TooFarFromSite? ==> a.meters >= 100 && distance - 0.5 < a.meters as real <= distance + 0.5
  {
    if WithinRadius(distance) then
      ClockInSuccessful
    else
      RejectedDistanceShownAtLeastRadius(distance);
      TooFarFromSite(RoundHalfUp(distance))
  }

  /**
   * `handleClockOut`: whatever the state, clears the flag and sends a
   * clock-out report; a stored interval is cleared and the reference nulled.
   */
  function ClockOutStep(s: State, fix: Option<Coordinate>): (r: State)
    ensures !r.clockedIn
    ensures r.events == s.events + Sent(ClockOut, fix)
    ensures r.location == Latest(s.location, fix)
    ensures r.error == s.error && r.nextTimer == s.nextTimer
    ensures WellFormed(s) ==>
      && WellFormed(r)
      && r.intervalRef == None
      && r.live == s.live - Stored(s.intervalRef)
  {
    var sent := Send(s.(clockedIn := false), ClockOut, fix);
    if Truthy(sent.intervalRef) then
      sent.(live := sent.live - {sent.intervalRef.value}, intervalRef := None)
    else
      sent
  }

  /**
   * The cleanup `useEffect` returns, run when the screen is unmounted: it
   * clears the stored interval but leaves the reference and the flag alone.
   */
  function UnmountStep(s: State): (r: State)
    ensures r.clockedIn == s.clockedIn && r.intervalRef == s.intervalRef
    ensures r.events == s.events && r.location == s.location && r.error == s.error
    ensures r.nextTimer == s.nextTimer
    ensures WellFormed(s) ==> WellFormed(r) && r.live == s.live - Stored(s.intervalRef)
    ensures WellFormed(s) && SingleTimer(s) ==> r.live == {}
  {
    if Truthy(s.intervalRef) then s.(live := s.live - {s.intervalRef.value}) else s
  }

  /**
   * `fetchCurrentLocation`, run once on mount: a refused permission or a
   * failed fetch leaves its message in `error`; a fix is remembered. A
   * permission request that throws ends like a granted one with no fix.
   */
  function LoadLocationStep(s: State, granted: bool, fix: Option<Coordinate>): (r: State)
    ensures SameSession(s, r) && r.events == s.events
    ensures !granted ==> r.error == Some(PermissionDenied) && r.location == s.location
    ensures granted && fix.None? ==> r.error == Some(Unavailable) && r.location == s.location
    ensures granted && fix.Some? ==> r.error == s.error && r.location == fix
  {
    if !granted then s.(error := Some(PermissionDenied))
    else if fix.None? then s.(error := Some(Unavailable))
    else s.(location := fix)
  }

  /** Under well-formedness the truthiness test is exactly "a handle is stored". */
  lemma TruthyIsStored(s: State)
    requires WellFormed(s)
    ensures Truthy(s.intervalRef) <==> s.intervalRef.Some?
  {
  }

  /** A guarded clock-in (only from clocked out) keeps the single-timer invariant. */
  lemma ClockInKeepsSingleTimer(s: State, distance: real, fix: Option<Coordinate>)
    requires WellFormed(s) && SingleTimer(s) && !s.clockedIn
    ensures SingleTimer(ClockInStep(s, distance, fix))
  {
  }

  /** Clock-out keeps the invariant from any state that has it, clocked in or not. */
  lemma ClockOutKeepsSingleTimer(s: State, fix: Option<Coordinate>)
    requires WellFormed(s) && SingleTimer(s)
    ensures SingleTimer(ClockOutStep(s, fix))
    ensures ClockOutStep(s, fix).live == {}
  {
  }

  /** A send, on a tick or a transition, with or without a fix, keeps the invariant. */
  lemma SendKeepsSingleTimer(s: State, status: Status, fix: Option<Coordinate>)
    requires SingleTimer(s)
    ensures SingleTimer(Send(s, status, fix))
  {
  }

  /**
   * Without the button guard a second clock-in within range overwrites the
   * stored handle: the first interval stays live, nothing refers to it, and
   * a later clock-out leaves it running.
   */
  lemma DoubleClockInLeaksInterval(s: State, d1: real, d2: real, f1: Option<Coordinate>, f2: Option<Coordinate>, f3: Option<Coordinate>)
    requires WellFormed(s) && SingleTimer(s) && !s.clockedIn
    requires WithinRadius(d1) && WithinRadius(d2)
    ensures var twice := ClockInStep(ClockInStep(s, d1, f1), d2, f2);
      && twice.live == {s.nextTimer, s.nextTimer + 1}
      && twice.intervalRef == Some(s.nextTimer + 1)
      && !SingleTimer(twice)
      && var out := ClockOutStep(twice, f3);
      && out.live == {s.nextTimer}
      && !out.clockedIn
      && out.intervalRef == None
  {
  }

  /**
   * A second clock-out finds no stored handle and touches no timer: the flag,
   * the reference and the live timers are as after the first.
   */
  lemma ClockOutTwiceSameTimers(s: State, f1: Option<Coordinate>, f2: Option<Coordinate>)
    ensures var once := ClockOutStep(s, f1);
      var twice := ClockOutStep(once, f2);
      SameSession(once, twice)
  {
  }
}
