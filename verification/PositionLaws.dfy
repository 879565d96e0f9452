/** What positions do: the situations they store, who hears of them, and which queries are sent. */
module PositionLaws {
  import opened Common
  import opened MonitorSpec
  import opened MonitorFrames
  import opened EvaluationFrames
  import opened Airspace

  // ----- one position -----

  predicate IsPositionOf(msg: MonitorMsg, cs: Callsign) {
    (msg.Position? || msg.InterimPosition?) && msg.cs == cs
  }

  /** A position within the limits, where a null position is within none; limits below zero are off. */
  predicate IsWithin(m: Monitor, distance: Option<int>) {
    distance.Some? && (m.maxNM >= 0 ==> distance.value <= m.maxNM && distance.value <= m.hysteresisNM)
  }

  predicate IsBeyond(m: Monitor, distance: Option<int>) {
    distance.Some? && m.maxNM >= 0 && distance.value > m.hysteresisNM
  }

  /** The step handles a position of `cs` that counts: online, not a copilot's, and, if it is a full one, within the
      limits or of an aircraft in range and not beyond them; an interim one only refreshes an aircraft in range. */
  predicate BringsPosition(s: System, e: Event, cs: Callsign) {
    && e.MonitorTakes? && s.inbox != [] && IsPositionOf(s.inbox[0], cs) && s.connected && !s.inbox[0].copilot
    && if s.inbox[0].Position?
       then IsWithin(s.mon, s.inbox[0].distance) || (cs in s.mon.inRange && !IsBeyond(s.mon, s.inbox[0].distance))
       else cs in s.mon.inRange && cs in s.mon.tracks
  }

  /** The history of every aircraft is filled up by its first situation. */
  ghost predicate AllFull(m: Monitor) {
    forall cs :: cs in m.tracks ==> m.tracks[cs].count == 50
  }

  /** A situation is dropped only if it has no velocity and the latest one had. */
  predicate LacksVelocity(m: Monitor, cs: Callsign, moving: bool) {
    cs in m.tracks && m.tracks[cs].moving && !moving
  }

  /** A position that counts is stored, and the analyzer hears of the aircraft at once, unless it lacks the velocity. */
  lemma PositionIsStored(s: System, e: Event, cs: Callsign)
    requires Enabled(s, e) && BringsPosition(s, e, cs) && AllFull(s.mon)
    ensures var s', moving := Step(s, e), s.inbox[0].moving;
            && s'.mon.tracks == s.mon.tracks[cs := Track(50, moving || LacksVelocity(s.mon, cs, moving))]
            && cs in s'.mon.inRange
            && s'.watchInbox == s.watchInbox + if LacksVelocity(s.mon, cs, moving) then [] else [TouchAircraft(cs)]
  {
    var msg := s.inbox[0];
    var o := MonitorStep(s, e);
    StepMonitor(s, e);
    if msg.Position? { FullPositionStores(s.mon, cs, msg.distance, msg.moving, s.now); }
    StoringStores(s.mon, cs, msg.moving);
    TouchesOf(o.signals, cs, LacksVelocity(s.mon, cs, msg.moving), cs !in s.mon.fsInn);
  }

  lemma FullPositionStores(m: Monitor, cs: Callsign, distance: Option<int>, moving: bool, now: int)
    requires IsWithin(m, distance) || (cs in m.inRange && !IsBeyond(m, distance))
    ensures var o, stored := OnPosition(m, cs, distance, moving, false, now, true), StoreSituation(m, cs, moving);
            && o.mon.tracks == stored.mon.tracks && cs in o.mon.inRange
            && (o.signals == stored.signals || o.signals == stored.signals + [PilotQueries(cs, cs !in m.fsInn)])
  {
  }

  lemma StoringStores(m: Monitor, cs: Callsign, moving: bool)
    requires AllFull(m)
    ensures var o := StoreSituation(m, cs, moving);
            && o.mon == m.(tracks := m.tracks[cs := Track(50, moving || LacksVelocity(m, cs, moving))])
            && o.signals == if LacksVelocity(m, cs, moving) then [] else [AddedSituation(cs)]
  {
  }

  /** What the analyzer makes of the signals of a position. */
  lemma TouchesOf(signals: seq<Signal>, cs: Callsign, lacks: bool, withFsInn: bool)
    requires var stored := if lacks then [] else [AddedSituation(cs)];
             signals == stored || signals == stored + [PilotQueries(cs, withFsInn)]
    ensures ForAnalyzer(signals) == if lacks then [] else [TouchAircraft(cs)]
  {
    if signals != [] {
      var front := signals[..|signals| - 1];
      assert ForAnalyzer(signals) == ForAnalyzer(front) + Forwarded(signals[|signals| - 1]);
      if front != [] { assert front[..0] == [] && ForAnalyzer(front) == ForAnalyzer([]) + Forwarded(front[0]); }
    }
  }

  /** The situation of `cs` is as it was or gone, and no new one is signalled. */
  ghost predicate StoresNothing(m: Monitor, o: Outcome, cs: Callsign) {
    && (cs in o.mon.tracks ==> cs in m.tracks && o.mon.tracks[cs] == m.tracks[cs])
    && AddedSituation(cs) !in o.signals
  }

  lemma OtherPositionsStoreNothing(m: Monitor, who: Callsign, distance: Option<int>, moving: bool, copilot: bool,
                                   now: int, connected: bool, cs: Callsign)
    requires cs == who && connected && !copilot ==>
             !IsWithin(m, distance) && (cs !in m.inRange || IsBeyond(m, distance))
    ensures StoresNothing(m, OnPosition(m, who, distance, moving, copilot, now, connected), cs)
  {
    if who != cs {
      PositionsConcernOne(m, who, distance, moving, copilot, now, connected, cs);
    } else if connected && !copilot {
      var kept := if Expels(m, distance) then MonitorSpec.DropAircraft(m, cs) else m;
      assert cs !in kept.inRange && !Admits(m, distance);
      assert OnPosition(m, cs, distance, moving, copilot, now, connected) == Outcome(kept, []);
    }
  }

  lemma PositionsConcernOne(m: Monitor, who: Callsign, distance: Option<int>, moving: bool, copilot: bool, now: int,
                            connected: bool, cs: Callsign)
    requires cs != who
    ensures StoresNothing(m, OnPosition(m, who, distance, moving, copilot, now, connected), cs)
  {
    var kept := if Expels(m, distance) then MonitorSpec.DropAircraft(m, who) else m;
    var stored := StoreSituation(kept, who, moving);
    assert StoresNothing(kept, stored, cs);
    assert AddAircraft(stored.mon, who, Aircraft(false, false), now).tracks == stored.mon.tracks;
  }

  lemma OtherMessagesStoreNothing(m: Monitor, msg: MonitorMsg, order: seq<Callsign>, now: int, connected: bool,
                                  cs: Callsign)
    requires !msg.Position?
    requires msg.InterimPosition? && msg.cs == cs && connected && !msg.copilot ==> cs !in m.inRange || cs !in m.tracks
    ensures StoresNothing(m, Handle(m, msg, order, now, connected), cs)
  {
    match msg
    case IcaoCodes(who, lookup) => IcaoCodesEvaluate(m, who, lookup, now, connected);
    case FsInnPacket(who, packet, lookup) => FsInnPacketEvaluates(m, who, packet, lookup, now, connected, 0, now);
    case _ =>
  }

  lemma TimersStoreNothing(m: Monitor, t: Timer, lookup: Lookup, now: int, connected: bool, cs: Callsign)
    ensures StoresNothing(m, OnTimer(m, t, lookup, now, connected), cs)
  {
    if t.job.ReAdd? {
      ReAddEvaluates(m, t.cs, t.job.aircraft, now, connected);
    } else {
      TimerEvaluates(m, t, lookup, now, connected);
    }
  }

  /** Nothing else stores or announces a situation. */
  lemma OthersStoreNothing(s: System, e: Event, cs: Callsign)
    requires Enabled(s, e) && !BringsPosition(s, e, cs)
    ensures StoresNothing(s.mon, MonitorStep(s, e), cs)
  {
    if e.MonitorTakes? {
      var msg := s.inbox[0];
      if msg.Position? {
        OtherPositionsStoreNothing(s.mon, msg.cs, msg.distance, msg.moving, msg.copilot, s.now, s.connected, cs);
      } else {
        OtherMessagesStoreNothing(s.mon, msg, e.order, s.now, s.connected, cs);
      }
    } else if e.TimerFires? {
      var taken := s.mon.(timers := s.mon.timers - multiset{e.timer});
      TimersStoreNothing(taken, e.timer, e.lookup, s.now, s.connected, cs);
    }
  }

  // ----- runs -----

  lemma StepKeepsFull(s: System, e: Event)
    requires Enabled(s, e) && AllFull(s.mon)
    ensures AllFull(Step(s, e).mon)
  {
    StepMonitor(s, e);
    forall cs | cs in Step(s, e).mon.tracks ensures Step(s, e).mon.tracks[cs].count == 50 {
      if BringsPosition(s, e, cs) { PositionIsStored(s, e, cs); } else { OthersStoreNothing(s, e, cs); }
    }
  }

  /** In every reachable state each history is full, so that the minimum of situations is met by the first one. */
  lemma {:induction false} HistoriesAreFull(states: seq<System>, events: seq<Event>, k: nat)
    requires IsExecution(states, events) && k < |states|
    ensures AllFull(states[k].mon)
  {
    if k > 0 {
      HistoriesAreFull(states, events, k - 1);
      assert Enabled(states[k - 1], events[k - 1]);
      StepKeepsFull(states[k - 1], events[k - 1]);
    }
  }

  predicate IsTracked(m: Monitor, cs: Callsign) {
    cs in m.tracks
  }

  /** Step `j` brought a position with velocity, and the aircraft has not lost its situations since. */
  ghost predicate HasMovedSince(states: seq<System>, events: seq<Event>, j: nat, k: nat, cs: Callsign)
    requires |states| > |events|
  {
    && j < k <= |events|
    && BringsPosition(states[j], events[j], cs) && states[j].inbox[0].moving
    && forall i :: j < i <= k ==> IsTracked(states[i].mon, cs)
  }

  ghost predicate HasMoved(states: seq<System>, events: seq<Event>, k: nat, cs: Callsign)
    requires |states| > |events|
  {
    exists j :: HasMovedSince(states, events, j, k, cs)
  }

  /** The latest situation has a velocity if and only if some position since the first one had, whatever came later. */
  lemma {:induction false} VelocityIsItsHistory(states: seq<System>, events: seq<Event>, k: nat, cs: Callsign)
    requires IsExecution(states, events) && k < |states| && cs in states[k].mon.tracks
    ensures states[k].mon.tracks[cs].moving <==> HasMoved(states, events, k, cs)
  {
    if k > 0 {
      var s, e := states[k - 1], events[k - 1];
      assert Enabled(s, e) && states[k] == Step(s, e);
      StepMonitor(s, e);
      if cs in s.mon.tracks { VelocityIsItsHistory(states, events, k - 1, cs); }
      if BringsPosition(s, e, cs) {
        HistoriesAreFull(states, events, k - 1);
        PositionIsStored(s, e, cs);
      } else {
        OthersStoreNothing(s, e, cs);
      }
      OneMoreStep(states, events, k, cs);
    }
  }

  lemma OneMoreStep(states: seq<System>, events: seq<Event>, k: nat, cs: Callsign)
    requires 0 < k <= |events| < |states| && cs in states[k].mon.tracks
    ensures HasMoved(states, events, k, cs) <==>
      || (BringsPosition(states[k - 1], events[k - 1], cs) && states[k - 1].inbox[0].moving)
      || (cs in states[k - 1].mon.tracks && HasMoved(states, events, k - 1, cs))
  {
    if BringsPosition(states[k - 1], events[k - 1], cs) && states[k - 1].inbox[0].moving {
      assert HasMovedSince(states, events, k - 1, k, cs);
    } else if j :| HasMovedSince(states, events, j, k, cs) {
      assert IsTracked(states[k - 1].mon, cs);
      assert HasMovedSince(states, events, j, k - 1, cs);
    }
    if cs in states[k - 1].mon.tracks && HasMoved(states, events, k - 1, cs) {
      var before := k - 1;
      var j :| HasMovedSince(states, events, j, before, cs);
      assert HasMovedSince(states, events, j, k, cs);
    }
  }

  // ----- queries -----

  /** A position lets the aircraft enter the range. */
  predicate Enters(s: System, e: Event, cs: Callsign) {
    && e.MonitorTakes? && s.inbox != [] && s.inbox[0].Position? && s.inbox[0].cs == cs && !s.inbox[0].copilot
    && s.connected && cs !in s.mon.inRange && IsWithin(s.mon, s.inbox[0].distance)
  }

  /** A first verification of an aircraft in range that was not announced and has no ICAO codes yet. */
  predicate MissesIcaoCodes(s: System, e: Event, cs: Callsign) {
    && e.TimerFires? && e.timer.cs == cs && e.timer.job.Verify? && s.connected && cs != "" && cs in s.mon.inRange
    && (cs in s.mon.readiness ==>
          !s.mon.readiness[cs].icao && !s.mon.readiness[cs].sent && !s.mon.readiness[cs].verified)
  }

  lemma MessagesAsk(m: Monitor, msg: MonitorMsg, order: seq<Callsign>, now: int, connected: bool, cs: Callsign,
                    withFsInn: bool)
    ensures PilotQueries(cs, withFsInn) in Handle(m, msg, order, now, connected).signals <==>
      && msg.Position? && msg.cs == cs && !msg.copilot && connected && cs !in m.inRange && IsWithin(m, msg.distance)
      && withFsInn == (cs !in m.fsInn)
  {
    match msg
    case Position(who, distance, moving, copilot) =>
      PositionAsks(m, who, distance, moving, copilot, now, connected, cs, withFsInn);
    case _ =>
  }

  lemma PositionAsks(m: Monitor, who: Callsign, distance: Option<int>, moving: bool, copilot: bool, now: int,
                     connected: bool, cs: Callsign, withFsInn: bool)
    ensures PilotQueries(cs, withFsInn) in OnPosition(m, who, distance, moving, copilot, now, connected).signals <==>
      who == cs && !copilot && connected && cs !in m.inRange && IsWithin(m, distance) && withFsInn == (cs !in m.fsInn)
  {
  }

  lemma TimersAsk(m: Monitor, t: Timer, lookup: Lookup, now: int, connected: bool, cs: Callsign, withFsInn: bool)
    ensures PilotQueries(cs, withFsInn) in OnTimer(m, t, lookup, now, connected).signals <==>
      && t.cs == cs && t.job.Verify? && connected && cs != "" && cs in m.inRange && withFsInn
      && (cs in m.readiness ==> !m.readiness[cs].icao && !m.readiness[cs].sent && !m.readiness[cs].verified)
  {
  }

  /** In every step: the initial queries are sent for an aircraft exactly when it enters the range (with the one for an
      FsInn packet unless one is stored), and all of them once more when its first verification finds no ICAO codes. */
  lemma QueriesAreSentIff(s: System, e: Event, cs: Callsign, withFsInn: bool)
    requires Enabled(s, e)
    ensures PilotQueries(cs, withFsInn) in Signals(s, e) <==>
      (Enters(s, e, cs) && withFsInn == (cs !in s.mon.fsInn)) || (MissesIcaoCodes(s, e, cs) && withFsInn)
  {
    if e.MonitorTakes? {
      MessagesAsk(s.mon, s.inbox[0], e.order, s.now, s.connected, cs, withFsInn);
    } else if e.TimerFires? {
      TimersAsk(s.mon.(timers := s.mon.timers - multiset{e.timer}), e.timer, e.lookup, s.now, s.connected, cs,
          withFsInn);
    }
  }
}
