/** Log-offs on the network name the user by a certificate id, not by the callsign. */
module LogOffs {
  import opened Common
  import opened MonitorSpec
  import opened Airspace
  import opened MonitorFrames
  import opened StationFrames
  import opened EvaluationFrames
  import opened NoGhosts
  import D = Deadlines
  import N = Announcements

  predicate IsLogOff(msg: MonitorMsg) {
    msg.PilotDisconnected? || msg.AtcDisconnected?
  }

  predicate IsPosition(msg: MonitorMsg) {
    msg.Position? || msg.AtcPosition?
  }

  /** Everything the monitor knows, or will come to know, goes by a callsign that is no certificate id. */
  ghost predicate OnlyCallsigns(s: System) {
    && s.mon.tracks.Keys <= s.mon.inRange.Keys
    && (forall cs :: cs in s.mon.inRange || cs in s.mon.atcOnline ==> !IsCertificateId(cs))
    && (forall t :: t in s.mon.timers && t.job.ReAdd? ==> !IsCertificateId(t.cs))
    && (forall msg :: msg in s.inbox && IsPosition(msg) ==> !IsCertificateId(msg.cs))
    && (forall msg :: msg in s.inbox && IsLogOff(msg) ==> IsCertificateId(msg.cs))
  }

  /** A log-off of an unknown id only forgets a readiness record of that name. */
  lemma UnknownLogOffChangesNothing(m: Monitor, msg: MonitorMsg, order: seq<Callsign>, now: int, connected: bool)
    requires IsLogOff(msg) && m.tracks.Keys <= m.inRange.Keys && msg.cs !in m.inRange && msg.cs !in m.atcOnline
    ensures var o := Handle(m, msg, order, now, connected);
            o.signals == [] && o.mon == m.(readiness := o.mon.readiness)
                && m.readiness.Keys - {msg.cs} <= o.mon.readiness.Keys
  {
    assert m.inRange - {msg.cs} == m.inRange && m.tracks - {msg.cs} == m.tracks;
  }

  /** New re-initialisation timers are for aircraft in range. */
  lemma NewReAdds(s: System, e: Event, t: Timer)
    requires Enabled(s, e) && t in Step(s, e).mon.timers && t.job.ReAdd?
    ensures t in s.mon.timers || (e.ReInitialize? && t.cs in s.mon.inRange)
  {
    StepMonitor(s, e);
    if e.MonitorTakes? {
      MessageAddsNoReAdd(s.mon, s.inbox[0], e.order, s.now, s.connected, t);
    } else if e.TimerFires? {
      TimerAddsNoReAdd(s.mon.(timers := s.mon.timers - multiset{e.timer}), e.timer, e.lookup, s.now, s.connected, t);
    } else if e.ReInitialize? {
      N.ReAddTimersAreReAdds(s.mon.inRange, e.order, s.now);
    }
  }

  lemma MessageAddsNoReAdd(m: Monitor, msg: MonitorMsg, order: seq<Callsign>, now: int, connected: bool, t: Timer)
    requires t in Handle(m, msg, order, now, connected).mon.timers && t.job.ReAdd?
    ensures t in m.timers
  {
    match msg
    case Position(cs, distance, moving, copilot) => PositionTouches(m, cs, distance, moving, copilot, now, connected);
    case IcaoCodes(cs, lookup) => IcaoCodesEvaluate(m, cs, lookup, now, connected);
    case FsInnPacket(cs, packet, lookup) => FsInnPacketEvaluates(m, cs, packet, lookup, now, connected, 0, now);
    case _ =>
  }

  lemma TimerAddsNoReAdd(m: Monitor, u: Timer, lookup: Lookup, now: int, connected: bool, t: Timer)
    requires t in OnTimer(m, u, lookup, now, connected).mon.timers && t.job.ReAdd?
    ensures t in m.timers
  {
    match u.job
    case ReAdd(aircraft) =>
      ReAddEvaluates(m, u.cs, aircraft, now, connected);
    case _ => TimerEvaluates(m, u, lookup, now, connected);
  }

  /** Aircraft enter by a position or a re-initialisation timer only. */
  lemma NewAircraft(s: System, e: Event, cs: Callsign)
    requires Enabled(s, e) && cs in Step(s, e).mon.inRange && cs !in s.mon.inRange
    ensures (e.MonitorTakes? && s.inbox[0].Position? && s.inbox[0].cs == cs)
         || (e.TimerFires? && e.timer.job.ReAdd? && e.timer.cs == cs)
  {
    StepMonitor(s, e);
    if e.MonitorTakes? {
      D.OnlyPositionsAdd(s.mon, s.inbox[0], e.order, s.now, s.connected, cs);
    } else if e.TimerFires? {
      var taken := s.mon.(timers := s.mon.timers - multiset{e.timer});
      TimerTouches(taken, e.timer, e.lookup, s.now, s.connected);
    }
  }

  lemma NewStation(s: System, e: Event, cs: Callsign)
    requires Enabled(s, e) && cs in Step(s, e).mon.atcOnline && cs !in s.mon.atcOnline
    ensures e.MonitorTakes? && s.inbox[0] == AtcPosition(cs)
  {
    if e.MonitorTakes? && ConcernsStations(s.inbox[0]) {
      OnlyPositionsPutOnline(s.mon, s.inbox[0], e.order, s.now, s.connected, cs);
    } else {
      StationsChangeByMessage(s, e);
    }
  }

  lemma OnlyPositionsPutOnline(m: Monitor, msg: MonitorMsg, order: seq<Callsign>, now: int, connected: bool,
                               cs: Callsign)
    requires ConcernsStations(msg) && cs !in m.atcOnline && cs in Handle(m, msg, order, now, connected).mon.atcOnline
    ensures msg == AtcPosition(cs)
  {
  }

  /** Positions received carry callsigns. */
  predicate ReceivesCallsign(e: Event) {
    e.Receive? && IsPosition(e.msg) ==> !IsCertificateId(e.msg.cs)
  }

  lemma StepKeepsCallsigns(s: System, e: Event)
    requires Enabled(s, e) && OnlyCallsigns(s) && ReceivesCallsign(e) && Safe(Step(s, e))
    ensures OnlyCallsigns(Step(s, e))
  {
    var s' := Step(s, e);
    forall cs | cs in s'.mon.inRange ensures !IsCertificateId(cs) {
      if cs !in s.mon.inRange { NewAircraft(s, e, cs); }
    }
    forall cs | cs in s'.mon.atcOnline ensures !IsCertificateId(cs) {
      if cs !in s.mon.atcOnline { NewStation(s, e, cs); }
    }
    forall t | t in s'.mon.timers && t.job.ReAdd? ensures !IsCertificateId(t.cs) { NewReAdds(s, e, t); }
    InboxGrows(s, e);
  }

  lemma InboxGrows(s: System, e: Event)
    requires Enabled(s, e)
    ensures forall msg :: msg in Step(s, e).inbox && (IsPosition(msg) || IsLogOff(msg)) ==>
      msg in s.inbox || e == Receive(msg)
  {
  }

  lemma {:induction false} AlwaysOnlyCallsigns(states: seq<System>, events: seq<Event>, k: nat)
    requires IsExecution(states, events) && k < |states|
    requires forall i :: 0 <= i < k ==> ReceivesCallsign(events[i])
    ensures OnlyCallsigns(states[k])
  {
    if k > 0 {
      AlwaysOnlyCallsigns(states, events, k - 1);
      ExecutionsAreSafe(states, events, k);
      assert Enabled(states[k - 1], events[k - 1]);
      StepKeepsCallsigns(states[k - 1], events[k - 1]);
    }
  }

  /** As long as no callsign is a certificate id, no log-off ever takes an aircraft or a station away, and nobody is
      told of one: aircraft and stations leave by time-outs, the range limit and disconnects only. */
  lemma LogOffsAreIgnored(states: seq<System>, events: seq<Event>, k: nat)
    requires IsExecution(states, events) && k < |events| && (forall i :: 0 <= i < k ==> ReceivesCallsign(events[i]))
    requires events[k].MonitorTakes? && Enabled(states[k], events[k]) && IsLogOff(states[k].inbox[0])
    ensures var m, m' := states[k].mon, states[k + 1].mon;
            m'.inRange == m.inRange && m'.tracks == m.tracks && m'.atcOnline == m.atcOnline && m'.timers == m.timers
    ensures Signals(states[k], events[k]) == [] && states[k + 1].watchInbox == states[k].watchInbox
  {
    var s, e := states[k], events[k];
    AlwaysOnlyCallsigns(states, events, k);
    assert s.inbox[0] in s.inbox;
    UnknownLogOffChangesNothing(s.mon, s.inbox[0], e.order, s.now, s.connected);
    assert ForAnalyzer([]) == [] && s.watchInbox + [] == s.watchInbox;
  }
}
