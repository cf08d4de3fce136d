/**
 * The attendance screen as an object whose fields its handlers update in
 * place: React state (`location`, `error`, `isClockedIn`), the ref
 * `intervalRef`, the intervals the timer runtime keeps live, and the log of
 * location reports. Each handler is proved to leave exactly the state the
 * matching function of module Session gives.
 */
module Screen {
  import opened Wrappers
  import opened Geofence
  import opened Session

  class AttendanceScreen {
    var location: Option<Coordinate>
    var error: Option<LocationError>
    var isClockedIn: bool
    var intervalRef: Option<TimerId>
    var liveTimers: set<TimerId>
    var nextTimer: TimerId
    var events: seq<Event>

    /** The screen's fields as a Session value. */
    function Snapshot(): State
      reads this
    {
      State(location, error, isClockedIn, intervalRef, liveTimers, nextTimer, events)
    }

    predicate Valid()
      reads this
    {
      WellFormed(Snapshot())
    }

    /** The invariant the disabled buttons maintain while the screen is mounted. */
    predicate OneLiveInterval()
      reads this
    {
      SingleTimer(Snapshot())
    }

    /** The first render: no position, clocked out, no interval. */
    constructor ()
      ensures Snapshot() == Initial()
      ensures Valid() && OneLiveInterval()
    {
      location, error := None, None;
      isClockedIn, intervalRef := false, None;
      liveTimers, nextTimer := {}, 1;
      events := [];
    }

    /** `fetchCurrentLocation`, the mount effect's initial location load. */
    method FetchCurrentLocation(granted: bool, fix: Option<Coordinate>)
      modifies this`location, this`error
      ensures Snapshot() == LoadLocationStep(old(Snapshot()), granted, fix)
    {
      if !granted {
        error := Some(PermissionDenied);
        return;
      }
      if fix.None? {
        error := Some(Unavailable);
      } else {
        location := fix;
      }
    }

    /** `fetchAndSendLocation(status)`: a failed position fetch is caught and changes nothing. */
    method FetchAndSendLocation(status: Status, fix: Option<Coordinate>)
      modifies this`location, this`events
      ensures Snapshot() == Send(old(Snapshot()), status, fix)
    {
      if fix.Some? {
        location := fix;
        events := events + [Event(status, fix.value)];
      }
    }

    /** `setInterval`: starts a new live interval and returns its fresh handle. */
    method SetInterval() returns (t: TimerId)
      requires Valid()
      modifies this`liveTimers, this`nextTimer
      ensures t == old(nextTimer) && t !in old(liveTimers) && t != 0
      ensures liveTimers == old(liveTimers) + {t} && nextTimer == t + 1
    {
      t := nextTimer;
      liveTimers := liveTimers + {t};
      nextTimer := nextTimer + 1;
    }

    /** `clearInterval`: the interval with handle `t` is no longer live. */
    method ClearInterval(t: TimerId)
      modifies this`liveTimers
      ensures liveTimers == old(liveTimers) - {t}
    {
      liveTimers := liveTimers - {t};
    }

    /**
     * `handleClockIn`, pressed only while the Clock In button is enabled
     * (not clocked in). `distance` is the metres from the site.
     */
    method HandleClockIn(distance: real, fix: Option<Coordinate>) returns (alert: Alert)
      requires Valid() && OneLiveInterval() && !isClockedIn
      modifies this
      ensures Snapshot() == ClockInStep(old(Snapshot()), distance, fix)
      ensures alert == ClockInAlert(distance)
      ensures Valid() && OneLiveInterval()
      ensures isClockedIn <==> WithinRadius(distance)
    {
      ghost var before := Snapshot();
      if distance <= 100.0 {
        isClockedIn := true;
        alert := ClockInSuccessful;
        FetchAndSendLocation(ClockIn, fix);
        var t := SetInterval();
        intervalRef := Some(t);
      } else {
        alert := TooFarFromSite(RoundHalfUp(distance));
      }
      ClockInKeepsSingleTimer(before, distance, fix);
    }

    /** `handleClockOut`, pressed only while the Clock Out button is enabled (clocked in). */
    method HandleClockOut(fix: Option<Coordinate>) returns (alert: Alert)
      requires Valid() && OneLiveInterval() && isClockedIn
      modifies this
      ensures Snapshot() == ClockOutStep(old(Snapshot()), fix)
      ensures alert == ClockOutSuccessful
      ensures Valid() && OneLiveInterval()
      ensures !isClockedIn && intervalRef == None && liveTimers == {}
    {
      ghost var before := Snapshot();
      isClockedIn := false;
      FetchAndSendLocation(ClockOut, fix);
      alert := ClockOutSuccessful;
      if Truthy(intervalRef) {
        ClearInterval(intervalRef.value);
        intervalRef := None;
      }
      ClockOutKeepsSingleTimer(before, fix);
    }

    /** The callback of a live interval: an `update` report; the session is untouched. */
    method IntervalFires(t: TimerId, fix: Option<Coordinate>)
      requires t in liveTimers
      modifies this`location, this`events
      ensures Snapshot() == Send(old(Snapshot()), Update, fix)
      ensures isClockedIn == old(isClockedIn) && intervalRef == old(intervalRef)
    {
      FetchAndSendLocation(Update, fix);
    }

    /** The cleanup run on unmount: clears the stored interval, keeps the reference. */
    method Unmount()
      requires Valid()
      modifies this`liveTimers
      ensures Snapshot() == UnmountStep(old(Snapshot()))
      ensures old(OneLiveInterval()) ==> liveTimers == {}
    {
      if Truthy(intervalRef) {
        ClearInterval(intervalRef.value);
      }
    }
  }
}
