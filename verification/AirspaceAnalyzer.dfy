/** The analyzer's watchdog with its fields updated in place. */
module AirspaceAnalyzer {
  import opened Common
  import W = Watchdog

  class CAirspaceAnalyzer {
    var aircraftCallsignTimestamps: map<Callsign, int>
    var atcCallsignTimestamps: map<Callsign, int>
    var lastWatchdogCallMs: int
    var doNotRunAgainBefore: int
    var enabledWatchdog: bool

    ghost function Watch(): W.Watch
      reads this
    {
      W.Watch(aircraftCallsignTimestamps, atcCallsignTimestamps, lastWatchdogCallMs, doNotRunAgainBefore,
          enabledWatchdog)
    }

    constructor (now: int)
      ensures Watch() == W.Started(now)
    {
      aircraftCallsignTimestamps, atcCallsignTimestamps := map[], map[];
      lastWatchdogCallMs, doNotRunAgainBefore, enabledWatchdog := now, -1, true;
    }

    method WatchdogTouchAircraftCallsign(cs: Callsign, now: int)
      modifies this
      ensures Watch() == W.TouchAircraft(old(Watch()), cs, now)
    {
      aircraftCallsignTimestamps := aircraftCallsignTimestamps[cs := now];
    }

    method WatchdogTouchAtcCallsign(cs: Callsign, now: int)
      modifies this
      ensures Watch() == W.TouchAtc(old(Watch()), cs, now)
    {
      atcCallsignTimestamps := atcCallsignTimestamps[cs := now];
    }

    method WatchdogRemoveAircraftCallsign(cs: Callsign)
      modifies this
      ensures Watch() == W.RemoveAircraft(old(Watch()), cs)
    {
      aircraftCallsignTimestamps := aircraftCallsignTimestamps - {cs};
    }

    method WatchdogRemoveAtcCallsign(cs: Callsign)
      modifies this
      ensures Watch() == W.RemoveAtc(old(Watch()), cs)
    {
      atcCallsignTimestamps := atcCallsignTimestamps - {cs};
    }

    method OnChangedAtcStationOnlineConnectionStatus(cs: Callsign, isConnected: bool, now: int)
      modifies this
      ensures Watch() == if isConnected then W.TouchAtc(old(Watch()), cs, now) else W.RemoveAtc(old(Watch()), cs)
    {
      if isConnected {
        atcCallsignTimestamps := atcCallsignTimestamps[cs := now];
      } else {
        WatchdogRemoveAtcCallsign(cs);
      }
    }

    method Clear()
      modifies this
      ensures Watch() == W.Clear(old(Watch()))
    {
      aircraftCallsignTimestamps := map[];
      atcCallsignTimestamps := map[];
    }

    /** One periodic check; the results list the time-out signals in emission order. */
    method WatchdogCheckTimeouts(now: int) returns (timeoutAircraft: seq<Callsign>, timeoutAtc: seq<Callsign>)
      modifies this
      ensures Watch() == W.Checked(old(Watch()), now)
      ensures Enumerates(timeoutAircraft, W.ExpiredAircraft(old(Watch()), now))
      ensures Enumerates(timeoutAtc, W.ExpiredAtc(old(Watch()), now))
    {
      timeoutAircraft, timeoutAtc := [], [];
      var callDiff := now - lastWatchdogCallMs;
      lastWatchdogCallMs := now;
      if callDiff > W.CALL_THRESHOLD_MS {
        doNotRunAgainBefore := now + 2 * W.CALL_THRESHOLD_MS;
        return;
      }
      if doNotRunAgainBefore > now { return; }
      doNotRunAgainBefore := -1;
      timeoutAircraft := CheckAircraft(now);
      timeoutAtc := CheckAtc(now);
    }

    method CheckAircraft(now: int) returns (timeouts: seq<Callsign>)
      modifies this`aircraftCallsignTimestamps
      ensures var stale := W.Stale(old(aircraftCallsignTimestamps), W.AIRCRAFT_TIMEOUT_MS, now);
              && aircraftCallsignTimestamps ==
                   (if enabledWatchdog then old(aircraftCallsignTimestamps) - stale
                    else W.Faked(old(aircraftCallsignTimestamps).Keys, W.AIRCRAFT_TIMEOUT_MS, now))
              && Enumerates(timeouts, if enabledWatchdog then stale else {})
    {
      var callsigns := aircraftCallsignTimestamps.Keys;
      ghost var all, before := callsigns, aircraftCallsignTimestamps;
      timeouts := [];
      while callsigns != {}
        invariant callsigns <= all
        invariant callsigns <= aircraftCallsignTimestamps.Keys <= all
        invariant forall cs :: cs in callsigns ==> aircraftCallsignTimestamps[cs] == before[cs]
        invariant forall cs :: cs in all - callsigns ==>
          if enabledWatchdog then
            (cs in timeouts <==> before[cs] <= now - W.AIRCRAFT_TIMEOUT_MS)
            && (cs in aircraftCallsignTimestamps <==> cs !in timeouts)
            && (cs in aircraftCallsignTimestamps ==> aircraftCallsignTimestamps[cs] == before[cs])
          else
            cs in aircraftCallsignTimestamps
            && aircraftCallsignTimestamps[cs] == now - W.AIRCRAFT_TIMEOUT_MS + W.FAKE_MARGIN_MS
        invariant forall cs :: cs in timeouts ==> cs in all - callsigns
        invariant NoDuplicates(timeouts)
        invariant !enabledWatchdog ==> timeouts == []
        decreases callsigns
      {
        var cs :| cs in callsigns;
        callsigns := callsigns - {cs};
        if !enabledWatchdog {
          var faked := now - W.AIRCRAFT_TIMEOUT_MS + W.FAKE_MARGIN_MS;
          aircraftCallsignTimestamps := aircraftCallsignTimestamps[cs := faked];
        }
        var stamp := aircraftCallsignTimestamps[cs];
        if stamp <= now - W.AIRCRAFT_TIMEOUT_MS {
          aircraftCallsignTimestamps := aircraftCallsignTimestamps - {cs};
          timeouts := timeouts + [cs];
        }
      }
    }

    method CheckAtc(now: int) returns (timeouts: seq<Callsign>)
      modifies this`aircraftCallsignTimestamps, this`atcCallsignTimestamps
      ensures var stale := W.Stale(old(atcCallsignTimestamps), W.ATC_TIMEOUT_MS, now);
              && atcCallsignTimestamps == old(atcCallsignTimestamps) - stale
              && Enumerates(timeouts, stale)
      ensures aircraftCallsignTimestamps == old(aircraftCallsignTimestamps)
                + (if enabledWatchdog then map[] else W.Faked(old(atcCallsignTimestamps).Keys, W.ATC_TIMEOUT_MS, now))
    {
      var callsigns := atcCallsignTimestamps.Keys;
      ghost var all, before, watched := callsigns, atcCallsignTimestamps, aircraftCallsignTimestamps;
      ghost var stale := W.Stale(before, W.ATC_TIMEOUT_MS, now);
      timeouts := [];
      while callsigns != {}
        invariant callsigns <= all
        invariant atcCallsignTimestamps == before - (stale - callsigns)
        invariant Enumerates(timeouts, stale - callsigns)
        invariant aircraftCallsignTimestamps
                  == watched + (if enabledWatchdog then map[] else W.Faked(all - callsigns, W.ATC_TIMEOUT_MS, now))
        decreases callsigns
      {
        var cs :| cs in callsigns;
        ghost var left := callsigns;
        callsigns := callsigns - {cs};
        if !enabledWatchdog {
          aircraftCallsignTimestamps := aircraftCallsignTimestamps[cs := now - W.ATC_TIMEOUT_MS + W.FAKE_MARGIN_MS];
          assert all - callsigns == all - left + {cs};
        }
        var stamp := atcCallsignTimestamps[cs];
        if stamp <= now - W.ATC_TIMEOUT_MS {
          atcCallsignTimestamps := atcCallsignTimestamps - {cs};
          EnumeratesOneMore(timeouts, stale - left, cs);
          timeouts := timeouts + [cs];
          assert stale - callsigns == stale - left + {cs};
        } else {
          assert stale - callsigns == stale - left;
        }
      }
      assert stale - callsigns == stale && all - callsigns == all;
    }
  }
}
