# Attendance clock-in/out session — a Dafny model

The attendance screen of this field-worker app lets a worker clock in only
within 100 m of a fixed construction site. While clocked in, it sends a
location report every minute. Clock-out stops those reports. This project
models that screen's session logic: the clock-in and clock-out handlers, the
location reports they send, the periodic interval and its cleanup, and the
initial location load. It proves what these handlers keep true.

Modules:

- `Wrappers` (wrappers.dfy): `Option`.
- `Geofence` (geofence.dfy): the inclusive 100 m radius, and `Math.round`
  as it rounds the distance in the "too far" alert. The constant `Site`
  records the site coordinates of screens/AttendanceScreen.js:8-11. It is
  documentation only, because the distance is an input.
- `Session` (session.dfy): the screen's state as a value `State` (position,
  error message, `isClockedIn`, `intervalRef`, live intervals, next interval
  handle, log of reports sent), one function per handler, and lemmas about
  each step.
- `Trace` (trace.dfy): runs of presses, ticks and the location load. A run is
  guarded when every press happens while its button is enabled. The lemmas
  are about whole runs.
- `Screen` (screen.dfy): class `AttendanceScreen`, whose fields the handlers
  update in place. The handlers (`FetchCurrentLocation`,
  `FetchAndSendLocation`, `HandleClockIn`, `HandleClockOut`, `IntervalFires`
  and `Unmount`) are proved to leave exactly the state of their `Session`
  function. `SetInterval` and `ClearInterval` model the timer runtime
  directly. `HandleClockIn` and `HandleClockOut` keep the single-timer
  invariant. `Unmount` clears the stored interval and keeps the reference.
  If the invariant held, no interval stays live. After unmounting while
  clocked in, the reference points at a cleared interval, so the invariant
  no longer holds.

Main results:

- Under the button guards, at most one interval is live. It is the stored
  one, and a handle is stored exactly while clocked in
  (`Trace.GuardedRunKeepsSingleTimer`).
- `handleClockIn` does not check `isClockedIn` itself, so the invariant needs
  the disabled Clock In button. Without it, a second clock-in overwrites
  `intervalRef`. The first interval then stays live and unreferenced, and it
  keeps ticking after clock-out (`Session.DoubleClockInLeaksInterval`).
- Clock-out keeps the invariant even without its guard. From a clocked-out
  state it only resets the flag and sends a report.
- The "too far" alert rounds half up, so a worker 100.25 m away is refused
  and told "100m away" (`Geofence.RejectedDistanceCanBeShownAsRadius`).

Behaviours of the code that the model keeps as they are:

- The handlers do not reject clock-in while clocked in or clock-out while
  clocked out. The disabled buttons prevent both. Clock-out from the
  clocked-out state only resets the flag and sends a report.
- The interval callback does not check that the session is still active. It
  sends an `update` report whenever the interval is live.
- The unmount cleanup clears the interval but does not null `intervalRef`.

Modelling choices:

- The distance to the site is an input in metres (`real`). The haversine
  helper is not modelled.
- A position fetch is an input `fix: Option<Coordinate>`. `None` stands for a
  fetch that threw. A report is logged only when the fetch succeeded, since
  the send comes after the awaited fetch. A failed fetch during a send
  changes nothing.
- Interval handles come from a counter that starts at 1. The test
  `if (intervalRef.current)` is modelled as truthiness (not null and not 0).
  Since handles are positive, that is the same as "a handle is stored"
  (`Session.TruthyIsStored`).
- Alerts are returned to the caller as an `Alert` value.

## Model

| member | source | states |
|---|---|---|
| `Geofence.RoundHalfUp` | screens/AttendanceScreen.js:109 | `Math.round` gives an integer within half a metre of the distance, halves rounded up |
| `Geofence.RejectedDistanceShownAtLeastRadius` | screens/AttendanceScreen.js:100-110 | a refused distance is never shown as less than 100 m |
| `Geofence.RejectedDistanceCanBeShownAsRadius` | screens/AttendanceScreen.js:100-110 | 100.25 m is refused yet shown as "100m away" |
| `Geofence.WithinRadius` | screens/AttendanceScreen.js:100 | a distance below or equal to 100 m passes the gate, one beyond it does not |
| `Session.Initial` | screens/AttendanceScreen.js:29-33 | the first render has no position and no error, is clocked out, has no interval and no reports, and meets the single-timer invariant |
| `Session.Truthy` | screens/AttendanceScreen.js:118-127 | the test of the ref is true only for a stored handle, true for every positive handle, and false for handle 0 |
| `Session.Sent` | screens/AttendanceScreen.js:62-90 | a send logs at most one report, exactly one when the position fetch succeeded, tagged with the requested status and carrying the fetched position |
| `Session.Send` | screens/AttendanceScreen.js:62-90 | a send never changes the flag, the stored handle or the timers; with a fix it remembers the position and logs one report with the given tag; a failed fetch changes nothing |
| `Session.ClockInStep` | screens/AttendanceScreen.js:92-111 | within 100 m (inclusive): clocked in, one `clockin` report if the fetch succeeds, a fresh live handle stored and the handle counter advanced by one; beyond: the state is unchanged |
| `Session.ClockInAlert` | screens/AttendanceScreen.js:100-110 | success exactly within the radius; otherwise the "too far" alert with `Math.round` of the distance, which is at least 100 |
| `Session.ClockOutStep` | screens/AttendanceScreen.js:113-122 | from any state: clocked out, one `clockout` report if the fetch succeeds, the stored interval no longer live and the reference nulled |
| `Session.UnmountStep` | screens/AttendanceScreen.js:124-128 | the stored interval is cleared while the reference, the flag and the log stay; under the invariant no interval is left live |
| `Session.LoadLocationStep` | screens/AttendanceScreen.js:35-60 | a refused permission or a failed fetch sets the matching error; a fix is remembered; the session is untouched |
| `Session.TruthyIsStored` | screens/AttendanceScreen.js:118 | on well-formed states the truthiness test of the ref is "a handle is stored" |
| `Session.ClockInKeepsSingleTimer` | screens/AttendanceScreen.js:100-107 | a clock-in from the clocked-out state keeps "one live interval, the stored one, stored iff clocked in" |
| `Session.ClockOutKeepsSingleTimer` | screens/AttendanceScreen.js:113-122 | a clock-out keeps the invariant from any state that has it and leaves no live interval |
| `Session.SendKeepsSingleTimer` | screens/AttendanceScreen.js:62-90 | a send, with or without a fix, keeps the invariant |
| `Session.DoubleClockInLeaksInterval` | screens/AttendanceScreen.js:92-107 | two clock-ins within range leave two live intervals with only the second stored; after clock-out the first is still live |
| `Session.ClockOutTwiceSameTimers` | screens/AttendanceScreen.js:118-121 | from any state, a second clock-out leaves the flag, the reference and the live timers as the first left them |
| `Trace.Step` | screens/AttendanceScreen.js:92-128 | presses run the handlers; a tick appends one `update` report exactly when the position fetch succeeds; only presses change the session, after a clock-in press the screen is clocked in iff it already was or the distance is within range, a clock-out press always clocks out, no action removes a report, and an interval it starts has a handle not handed out before |
| `Trace.Enabled` | screens/AttendanceScreen.js:168-194 | Clock In is enabled exactly while clocked out and Clock Out exactly while clocked in, so exactly one of them is enabled; an interval fires only while live; the location load is never blocked |
| `Trace.StepKeepsSingleTimer` | screens/AttendanceScreen.js:168-194 | every action enabled by the buttons or a live interval keeps the invariant |
| `Trace.GuardedRunKeepsSingleTimer` | screens/AttendanceScreen.js:168-194 | after any guarded run: at most one live interval, it is the stored one, stored iff clocked in |
| `Trace.ReachableKeepsSingleTimer` | screens/AttendanceScreen.js:29-33 | from the first render, a guarded run ends with exactly one live interval iff clocked in |
| `Trace.NoTickAfterClockOut` | screens/AttendanceScreen.js:105-121 | when a guarded run ends clocked out, no interval can fire, so no `update` report is sent |
| `Trace.UpdateOnlyWhileLive` | screens/AttendanceScreen.js:105-107 | an `update` report comes only from a live interval, and under the invariant only while clocked in |
| `Trace.UnmountLeavesNoTimer` | screens/AttendanceScreen.js:124-128 | unmounting after any guarded run leaves no live interval |
| `Trace.RunOnlyAppendsEvents` | screens/AttendanceScreen.js:62-90 | no run removes or rewrites a report already sent; the handle counter never decreases, and every interval live at the end that was not live at the start has a handle not handed out before the run |
| `Trace.ClockInThenClockOut` | screens/AttendanceScreen.js:92-122 | clock-in within range then clock-out logs exactly one `clockin` and one `clockout` report and leaves no live interval |
| `Screen.AttendanceScreen.constructor` | screens/AttendanceScreen.js:29-33 | the initial state: no position, no error, clocked out, no interval, empty log |
| `Screen.AttendanceScreen.FetchCurrentLocation` | screens/AttendanceScreen.js:35-60 | updates only the position and the error, as `LoadLocationStep` says |
| `Screen.AttendanceScreen.FetchAndSendLocation` | screens/AttendanceScreen.js:62-90 | updates only the position and the log, as `Send` says |
| `Screen.AttendanceScreen.SetInterval` | screens/AttendanceScreen.js:105-107 | the returned handle is non-zero, was not live before and is live now |
| `Screen.AttendanceScreen.ClearInterval` | screens/AttendanceScreen.js:119 | the cleared handle is no longer live; the other intervals are untouched |
| `Screen.AttendanceScreen.HandleClockIn` | screens/AttendanceScreen.js:92-111 | the new state is `ClockInStep` of the old, the alert is `ClockInAlert`, clocked in iff within range, and the invariant holds |
| `Screen.AttendanceScreen.HandleClockOut` | screens/AttendanceScreen.js:113-122 | the new state is `ClockOutStep` of the old: clocked out, reference null, no live interval, invariant kept |
| `Screen.AttendanceScreen.IntervalFires` | screens/AttendanceScreen.js:105-107 | a tick of a live interval sends an `update` report and leaves the flag and the reference unchanged |
| `Screen.AttendanceScreen.Unmount` | screens/AttendanceScreen.js:126-128 | the new state is `UnmountStep` of the old: the stored interval is cleared and the reference kept; if the invariant held, no interval stays live; after unmounting while clocked in the reference points at a cleared interval, so the invariant no longer holds |

## Left out

- `getDistanceFromLatLonInMeters` (haversine, screens/AttendanceScreen.js:14-26): floating-point trigonometry. The distance is an input.
- The distance shown on screen (screens/AttendanceScreen.js:131-141), including its truthiness test on the coordinates: presentation over floating point.
- `expo-location` permission and position calls: asynchronous foreign I/O. Their outcomes are inputs (`granted`, `fix`).
- The asynchronous interleaving of a fetch with later handler calls. Each fetch completes within the call that starts it.
- The `loading` flag: it is only true while an awaited call is pending, which the atomic model never shows.
- Timestamps, the 60 s period and real timing. Ticks are explicit actions of a live interval.
- `console.log`/`console.error` and the commented-out `fetch`. A send is the report appended to the log.
- React rendering, the map and `useState` batching. The buttons' `disabled` props become method preconditions and the `Enabled` guard of runs.
- The commented-out earlier version of the screen (screens/AttendanceScreen.js:229-409): dead code.
- utils/mockData.js, screens/HistoryScreen.js and components/HistoryCard.js: static data and presentation, no logic.
