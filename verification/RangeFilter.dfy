/** The two-threshold range filter, specified by the history of positions. */
module RangeFilter {
  import opened Common
  import opened MonitorSpec
  import opened MonitorFrames
  import opened Airspace
  import opened Readiness

  /** The wider limit is never below the narrow one, and at most 10 % (rounded) above it. */
  lemma HysteresisBounds(r: nat)
    ensures r <= Hysteresis(r)
    ensures 10 * Hysteresis(r) - 5 <= 11 * r < 10 * Hysteresis(r) + 5
  {
  }

  /** Both limits are off, or the wider one is derived from the narrow one. */
  predicate LimitsAgree(m: Monitor) {
    (m.maxNM < 0 && m.hysteresisNM < 0) || (m.maxNM >= 0 && m.hysteresisNM == Hysteresis(m.maxNM))
  }

  /** No event but a change of the range touches the limits. */
  lemma LimitsChange(s: System, e: Event)
    requires Enabled(s, e) && !ChangesLimits(s, e)
    ensures SameLimits(s.mon, Step(s, e).mon)
  {
    StepMonitor(s, e);
    if e.MonitorTakes? && ConcernsOne(s.inbox[0]) {
      HandlingTouches(s.mon, s.inbox[0], e.order, s.now, s.connected);
    } else if e.TimerFires? {
      TimerTouches(s.mon.(timers := s.mon.timers - multiset{e.timer}), e.timer, e.lookup, s.now, s.connected);
    }
  }

  predicate ChangesLimits(s: System, e: Event) {
    e.SetMaxRange? || (e.MonitorTakes? && s.inbox != [] && s.inbox[0].Connecting?)
  }

  /** A connection to VATSIM limits the range to 125 NM, and to the rounded 110 % of that for aircraft in range; any
      other one switches the limits off, unless they are set later on. */
  lemma ConnectingSetsTheRange(s: System, e: Event)
    requires Enabled(s, e) && e.MonitorTakes? && s.inbox[0].Connecting?
    ensures var m' := Step(s, e).mon;
            if s.inbox[0].vatsim then m'.maxNM == 125 && m'.hysteresisNM == 138 else m'.maxNM < 0 && m'.hysteresisNM < 0
  {
  }

  lemma UserSetsTheRange(s: System, e: Event)
    requires Enabled(s, e) && e.SetMaxRange?
    ensures var m' := Step(s, e).mon;
            match e.rangeNM
            case None => m'.maxNM < 0 && m'.hysteresisNM < 0
            case Some(r) => m'.maxNM == r && 10 * m'.hysteresisNM - 5 <= 11 * r < 10 * m'.hysteresisNM + 5
  {
    if e.rangeNM.Some? { HysteresisBounds(e.rangeNM.value); }
  }

  predicate SameLimits(m: Monitor, m': Monitor) {
    m'.maxNM == m.maxNM && m'.hysteresisNM == m.hysteresisNM
  }

  lemma LimitsStillAgree(s: System, e: Event)
    requires Enabled(s, e) && LimitsAgree(s.mon)
    ensures LimitsAgree(Step(s, e).mon)
  {
    if !ChangesLimits(s, e) { LimitsChange(s, e); }
  }

  lemma {:induction false} LimitsAlwaysAgree(states: seq<System>, events: seq<Event>, k: nat)
    requires IsExecution(states, events) && k < |states|
    ensures LimitsAgree(states[k].mon)
  {
    if k > 0 {
      LimitsAlwaysAgree(states, events, k - 1);
      var s, e := states[k - 1], events[k - 1];
      assert Enabled(s, e) && states[k] == Step(s, e);
      LimitsStillAgree(s, e);
    }
  }

  /** The distance of the position of `cs` the monitor evaluates in the step, if there is one. */
  function Measured(s: System, e: Event, cs: Callsign): Option<int> {
    if e.MonitorTakes? && s.inbox != [] && s.inbox[0].Position? && s.inbox[0].cs == cs && !s.inbox[0].copilot
        && s.connected
    then s.inbox[0].distance else None
  }

  /** Steps that remove or add `cs` other than by a position, or change the limits. */
  predicate Interferes(s: System, e: Event, cs: Callsign) {
    || ChangesLimits(s, e)
    || e.ReInitialize?
    || (e.TimerFires? && e.timer.job.ReAdd? && e.timer.cs == cs)
    || (e.MonitorTakes? && s.inbox != []
        && (s.inbox[0].Disconnected?
            || ((s.inbox[0].PilotDisconnected? || s.inbox[0].AircraftTimeout?) && s.inbox[0].cs == cs)))
  }

  /** One step of the filter. */
  lemma MembershipStep(s: System, e: Event, cs: Callsign)
    requires Enabled(s, e) && !Interferes(s, e, cs)
    ensures cs in Step(s, e).mon.inRange <==>
      !Expels(s.mon, Measured(s, e, cs)) && (cs in s.mon.inRange || Admits(s.mon, Measured(s, e, cs)))
  {
    StepMonitor(s, e);
    var m' := MonitorStep(s, e).mon;
    assert cs in m'.inRange <==> cs in m'.inRange.Keys;
    if e.MonitorTakes? {
      var msg := s.inbox[0];
      HandlingTouches(s.mon, msg, e.order, s.now, s.connected);
      if msg.cs == cs {
        if msg.Position? {
          PositionCases(s.mon, cs, msg.distance, msg.moving, s.now);
          StoringTouches(s.mon, cs, msg.moving);
          AddAircraftTouches(StoreSituation(s.mon, cs, msg.moving).mon, cs, Aircraft(false, false), s.now);
        } else if msg.IcaoCodes? {
          IcaoCodesTouch(s.mon, cs, msg.lookup, s.now, s.connected);
        } else if msg.FsInnPacket? {
          FsInnPacketTouches(s.mon, cs, msg.packet, msg.lookup, s.now, s.connected, 0, s.now);
        }
      }
    } else if e.TimerFires? {
      TimerTouches(s.mon.(timers := s.mon.timers - multiset{e.timer}), e.timer, e.lookup, s.now, s.connected);
    }
  }

  /** The run is undisturbed between `i` and `n`, as far as `cs` is concerned. */
  ghost predicate Undisturbed(states: seq<System>, events: seq<Event>, i: nat, n: nat, cs: Callsign) {
    && IsRun(states, events) && i <= n <= |events|
    && forall k :: i <= k < n ==> !Interferes(states[k], events[k], cs)
  }

  /** No position measured from step `j` on exceeds `limit` (a limit below zero is none). */
  ghost predicate StaysWithin(states: seq<System>, events: seq<Event>, j: nat, n: nat, cs: Callsign, limit: int)
    requires n <= |events| && |states| > |events|
  {
    forall k :: j <= k < n && Measured(states[k], events[k], cs).Some? ==>
      limit < 0 || Measured(states[k], events[k], cs).value <= limit
  }

  /** The position measured in step `j` is within `limit`, and no later one leaves the hysteresis limit. */
  ghost predicate EntersFor(states: seq<System>, events: seq<Event>, j: nat, n: nat, cs: Callsign, limit: int)
    requires n <= |events| && |states| > |events|
  {
    && j < n && Measured(states[j], events[j], cs).Some?
    && (limit < 0 || Measured(states[j], events[j], cs).value <= limit)
    && StaysWithin(states, events, j, n, cs, if limit < 0 then -1 else Hysteresis(limit))
  }

  ghost predicate Entered(states: seq<System>, events: seq<Event>, i: nat, n: nat, cs: Callsign, limit: int)
    requires n <= |events| && |states| > |events|
  {
    exists j: nat :: i <= j && EntersFor(states, events, j, n, cs, limit)
  }

  lemma {:induction false} LimitsStay(states: seq<System>, events: seq<Event>, i: nat, n: nat, cs: Callsign)
    requires Undisturbed(states, events, i, n, cs) && LimitsAgree(states[i].mon)
    ensures SameLimits(states[i].mon, states[n].mon)
    decreases n
  {
    if i < n {
      LimitsStay(states, events, i, n - 1, cs);
      assert Enabled(states[n - 1], events[n - 1]);
      LimitsChange(states[n - 1], events[n - 1]);
    }
  }

  /** Main result: with fixed limits, an aircraft that was out of range at `i` is in range at `n` exactly if some
      position since was within the limit and no position from then on was beyond the hysteresis limit. Positions
      of the aircraft may be interleaved with anything else; null positions count for nothing. */
  lemma {:induction false} RangeFilterIsItsHistory(states: seq<System>, events: seq<Event>, i: nat, n: nat,
                                                   cs: Callsign)
    requires Undisturbed(states, events, i, n, cs) && LimitsAgree(states[i].mon) && cs !in states[i].mon.inRange
    ensures cs in states[n].mon.inRange <==> Entered(states, events, i, n, cs, states[i].mon.maxNM)
    decreases n
  {
    if i < n {
      var s, e := states[n - 1], events[n - 1];
      var limit := states[i].mon.maxNM;
      RangeFilterIsItsHistory(states, events, i, n - 1, cs);
      LimitsStay(states, events, i, n - 1, cs);
      assert Enabled(s, e);
      MembershipStep(s, e, cs);
      HistoryStep(states, events, i, n, cs, s.mon);
    }
  }

  /** The history formula follows the same recurrence as the filter. */
  lemma HistoryStep(states: seq<System>, events: seq<Event>, i: nat, n: nat, cs: Callsign, m: Monitor)
    requires i < n <= |events| && |states| > |events| && LimitsAgree(m)
    ensures var d := Measured(states[n - 1], events[n - 1], cs);
            Entered(states, events, i, n, cs, m.maxNM)
            <==> !Expels(m, d) && (Entered(states, events, i, n - 1, cs, m.maxNM) || Admits(m, d))
  {
    var d := Measured(states[n - 1], events[n - 1], cs);
    var limit := m.maxNM;
    if limit >= 0 { HysteresisBounds(limit); }
    forall j: nat | i <= j < n - 1
      ensures EntersFor(states, events, j, n, cs, limit) <==>
              !Expels(m, d) && EntersFor(states, events, j, n - 1, cs, limit)
    {
    }
    assert EntersFor(states, events, n - 1, n, cs, limit) <==> !Expels(m, d) && Admits(m, d);
    if Entered(states, events, i, n - 1, cs, limit) {
      var j: nat :| i <= j && EntersFor(states, events, j, n - 1, cs, limit);
      assert EntersFor(states, events, j, n, cs, limit) <==> !Expels(m, d);
    }
    if Entered(states, events, i, n, cs, limit) {
      var j: nat :| i <= j && EntersFor(states, events, j, n, cs, limit);
      assert j < n - 1 ==> EntersFor(states, events, j, n - 1, cs, limit);
    }
  }

  // ----- re-initialisation -----

  lemma {:induction false} ReAddTimerOf(inRange: map<Callsign, Aircraft>, order: seq<Callsign>, now: int, i: nat)
    requires i < |order| && forall cs :: cs in order ==> cs in inRange
    ensures Timer(now + 25 * (i + 1), order[i], ReAdd(inRange[order[i]])) in ReAddTimers(inRange, order, now)
  {
    if i < |order| - 1 { ReAddTimerOf(inRange, order[..|order| - 1], now, i); }
  }

  /** The n-th aircraft is removed now and added again, as it was, after 25 n ms. */
  lemma EveryoneIsRemovedAndScheduled(s: System, e: Event, i: nat)
    requires Enabled(s, e) && e.ReInitialize? && i < |e.order|
    ensures var cs, s' := e.order[i], Step(s, e);
            && cs in s.mon.inRange && cs !in s'.mon.inRange && cs !in s'.mon.tracks
            && RemovedAircraft(cs) in Signals(s, e)
            && Timer(s.now + 25 * (i + 1), cs, ReAdd(s.mon.inRange[cs])) in s'.mon.timers
  {
    var cs := e.order[i];
    assert cs in e.order;
    ReAddTimerOf(s.mon.inRange, e.order, s.now, i);
    assert Signals(s, e)[i] == RemovedAircraft(cs);
  }

  /** Its timer brings it back, with a verification in 24 s, unless a position has brought it back before. */
  lemma AddedAgainAsItWas(s: System, e: Event)
    requires Enabled(s, e) && e.TimerFires? && e.timer.job.ReAdd?
    ensures var cs, m' := e.timer.cs, Step(s, e).mon;
            && cs in m'.inRange
            && m'.inRange[cs] == (if cs in s.mon.inRange then s.mon.inRange[cs] else e.timer.job.aircraft)
            && (cs !in s.mon.inRange ==> Timer(s.now + 24000, cs, Verify) in m'.timers)
  {
    var cs := e.timer.cs;
    var added := AddAircraft(s.mon.(timers := s.mon.timers - multiset{e.timer}), cs, e.timer.job.aircraft, s.now);
    var reset := added.(readiness := added.readiness - {cs});
    StepMonitor(s, e);
    SendReadyTouches(reset, cs, ReceivedAll, s.now, s.connected, 0, s.now);
    assert cs !in s.mon.inRange ==> Timer(s.now + 24000, cs, Verify) in reset.timers;
  }
}
