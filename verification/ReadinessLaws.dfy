/** When an aircraft is announced, told from its data: the flags of its record, the age of the record, its situations
    and its model string. */
module ReadinessLaws {
  import opened Common
  import opened MonitorSpec
  import opened MonitorFrames
  import opened Airspace
  import opened Readiness
  import D = Deadlines

  /** The record says that ICAO codes came, or the evaluation is because of them. */
  predicate HasIcaoCodes(m: Monitor, cs: Callsign, rf: Flag) {
    (cs in m.readiness && m.readiness[cs].icao) || rf == ReceivedIcaoCodes || rf == ReceivedAll
  }

  predicate HasFsInnPacket(m: Monitor, cs: Callsign, rf: Flag) {
    (cs in m.readiness && m.readiness[cs].fsInn) || rf == ReceivedFsInnPacket || rf == ReceivedAll
  }

  /** The record was started more than `ms` ago. */
  predicate IsOlderThan(m: Monitor, cs: Callsign, now: int, ms: int) {
    cs in m.readiness && m.readiness[cs].ts >= 0 && now - m.readiness[cs].ts > ms
  }

  predicate WasSent(m: Monitor, cs: Callsign) {
    cs in m.readiness && m.readiness[cs].sent
  }

  /** Everything that is needed to find a model has arrived. */
  predicate HasAllData(m: Monitor, cs: Callsign, rf: Flag) {
    && cs in m.inRange && cs in m.tracks && m.tracks[cs].count > 1
    && ((HasIcaoCodes(m, cs, rf) && HasFsInnPacket(m, cs, rf)) || m.inRange[cs].hasModelString)
  }

  /** When the first flag came; the evaluation itself if there was none. */
  function SeenSince(m: Monitor, cs: Callsign, now: int): int {
    if cs in m.readiness && m.readiness[cs].ts >= 0 then m.readiness[cs].ts else now
  }

  /** An announcement replaces all that is noted of the packets, while the clock runs on. */
  predicate IsAnnouncedSince(r: Readiness, ts: int) {
    r.sent && !r.icao && !r.fsInn && !r.verified && r.ts == ts
  }

  /** While connected, an aircraft in range that was not announced is announced if and only if it is being verified, has
      waited for more than 6 s, or has all data. */
  lemma AnnouncedIffVerifiedOldOrComplete(m: Monitor, cs: Callsign, rf: Flag, now: int, hop: nat, origin: int)
    requires cs in m.inRange && IsValidAircraftCallsign(cs) && !WasSent(m, cs) && rf != ReadyForMatchingSent
    ensures var o := SendReady(m, cs, rf, now, true, hop, origin);
            var announced := rf == Verified || IsOlderThan(m, cs, now, 6000) || HasAllData(m, cs, rf);
            if announced then
              && o.signals == [ReadyForMatching(cs)] && o.mon.timers == m.timers
              && cs in o.mon.readiness && IsAnnouncedSince(o.mon.readiness[cs], SeenSince(m, cs, now))
            else
              && o.signals == []
              && o.mon.timers == m.timers + multiset{Timer(now + 2000, cs, Recheck(rf, hop + 1, origin))}
              && cs in o.mon.readiness && !o.mon.readiness[cs].sent
              && (o.mon.readiness[cs].icao <==> HasIcaoCodes(m, cs, rf))
              && (o.mon.readiness[cs].fsInn <==> HasFsInnPacket(m, cs, rf))
  {
  }

  /** An announced aircraft is not announced again unless its record is at least 20 s old. */
  lemma AnnouncedAgainIffOld(m: Monitor, cs: Callsign, rf: Flag, now: int, hop: nat, origin: int)
    requires cs in m.inRange && IsValidAircraftCallsign(cs) && WasSent(m, cs) && m.readiness[cs].ts >= 0
    ensures var o := SendReady(m, cs, rf, now, true, hop, origin);
            && o.mon.timers == m.timers
            && o.signals == if now - m.readiness[cs].ts >= 20000 then [ReadyForMatching(cs)] else []
  {
  }

  /** The evaluation of anything else is forgotten, and offline nothing is evaluated. */
  lemma OthersAreForgotten(m: Monitor, cs: Callsign, rf: Flag, now: int, connected: bool, hop: nat, origin: int)
    requires rf != ReadyForMatchingSent && !WasSent(m, cs)
    ensures var o := SendReady(m, cs, rf, now, connected, hop, origin);
            && (!connected ==> o.mon == m && o.signals == [])
            && (connected && !(cs in m.inRange && IsValidAircraftCallsign(cs)) ==>
                  o.signals == [] && cs !in o.mon.readiness && o.mon.timers == m.timers)
  {
  }

  /** ICAO codes for anything that is not in range, FsInn packets of stations, and timers of aircraft that are gone. */
  predicate ConcernsAStranger(s: System, e: Event, cs: Callsign) {
    && cs !in s.mon.inRange
    && if e.MonitorTakes? then
         && s.inbox != []
         && (s.inbox[0].IcaoCodes? || s.inbox[0].InterimPosition?
             || (s.inbox[0].FsInnPacket? && (cs in s.mon.atcOnline || !s.connected)))
         && s.inbox[0].cs == cs
       else e.TimerFires? && e.timer.cs == cs && !e.timer.job.ReAdd?
  }

  /** These change nothing, and nobody hears of them. */
  lemma StrangersAreLeftAlone(s: System, e: Event, cs: Callsign)
    requires Enabled(s, e) && ConcernsAStranger(s, e, cs)
    ensures var s' := Step(s, e);
            && s'.mon == (if e.TimerFires? then s.mon.(timers := s.mon.timers - multiset{e.timer}) else s.mon)
            && s'.watchInbox == s.watchInbox && Signals(s, e) == []
  {
  }

  // ----- the second packet -----

  predicate TakesIcaoCodes(s: System, e: Event, cs: Callsign) {
    e.MonitorTakes? && s.inbox != [] && s.inbox[0].IcaoCodes? && s.inbox[0].cs == cs
  }

  predicate TakesFsInnPacket(s: System, e: Event, cs: Callsign) {
    e.MonitorTakes? && s.inbox != [] && s.inbox[0].FsInnPacket? && s.inbox[0].cs == cs
  }

  /** One packet has come, and the other one comes now: whichever order, the aircraft is announced in this step. */
  lemma SecondPacketAnnounces(s: System, e: Event, cs: Callsign)
    requires Enabled(s, e) && s.connected && cs in s.mon.inRange && IsValidAircraftCallsign(cs)
    requires cs in s.mon.readiness && !s.mon.readiness[cs].sent && cs in s.mon.tracks && s.mon.tracks[cs].count > 1
    requires || (TakesIcaoCodes(s, e, cs) && s.mon.readiness[cs].fsInn)
             || (TakesFsInnPacket(s, e, cs) && s.mon.readiness[cs].icao)
    ensures Signals(s, e) == [ReadyForMatching(cs)]
  {
    var msg := s.inbox[0];
    if msg.IcaoCodes? {
      var m := UpdateAircraft(s.mon, cs, msg.lookup.model);
      UpdateTouches(s.mon, cs, msg.lookup.model);
      assert cs in m.inRange.Keys;
      AnnouncedIffVerifiedOldOrComplete(m, cs, ReceivedIcaoCodes, s.now, 0, s.now);
    } else {
      var m := WithFsInn(s.mon, cs, msg.packet, msg.lookup, s.now);
      FsInnPacketTouches(s.mon, cs, msg.packet, msg.lookup, s.now, true, 0, s.now);
      WithFsInnTouches(s.mon, cs, msg.packet, msg.lookup, s.now);
      assert cs in m.inRange.Keys;
      AnnouncedIffVerifiedOldOrComplete(m, cs, ReceivedFsInnPacket, s.now, 0, s.now);
    }
  }

  /** A first packet leaves its flag, unless it announces the aircraft. */
  lemma FirstPacketIsRemembered(s: System, e: Event, cs: Callsign)
    requires Enabled(s, e) && s.connected && cs in s.mon.inRange && IsValidAircraftCallsign(cs)
    requires !WasSent(s.mon, cs) && (TakesIcaoCodes(s, e, cs) || TakesFsInnPacket(s, e, cs))
    ensures var m' := Step(s, e).mon;
            || ReadyForMatching(cs) in Signals(s, e)
            || (&& cs in m'.readiness && !m'.readiness[cs].sent
                && if TakesIcaoCodes(s, e, cs) then m'.readiness[cs].icao else m'.readiness[cs].fsInn)
  {
    var msg := s.inbox[0];
    StepMonitor(s, e);
    if msg.IcaoCodes? {
      var m := UpdateAircraft(s.mon, cs, msg.lookup.model);
      UpdateTouches(s.mon, cs, msg.lookup.model);
      assert cs in m.inRange.Keys;
      AnnouncedIffVerifiedOldOrComplete(m, cs, ReceivedIcaoCodes, s.now, 0, s.now);
    } else {
      var m := WithFsInn(s.mon, cs, msg.packet, msg.lookup, s.now);
      FsInnPacketTouches(s.mon, cs, msg.packet, msg.lookup, s.now, true, 0, s.now);
      WithFsInnTouches(s.mon, cs, msg.packet, msg.lookup, s.now);
      assert cs in m.inRange.Keys;
      AnnouncedIffVerifiedOldOrComplete(m, cs, ReceivedFsInnPacket, s.now, 0, s.now);
    }
  }

  // ----- flags stay until the announcement -----

  /** The record is there, not marked sent, and has the flag (`icao` or the FsInn one). */
  predicate Remembers(m: Monitor, cs: Callsign, icao: bool) {
    cs in m.readiness && !m.readiness[cs].sent && if icao then m.readiness[cs].icao else m.readiness[cs].fsInn
  }

  /** What an activity may do to it: announce, or forget an aircraft that is gone. */
  ghost predicate KeepsFlag(m: Monitor, o: Outcome, cs: Callsign, icao: bool) {
    Remembers(m, cs, icao) && cs in o.mon.inRange ==> Remembers(o.mon, cs, icao) || ReadyForMatching(cs) in o.signals
  }

  lemma SendReadyKeepsFlag(m: Monitor, cs: Callsign, rf: Flag, now: int, connected: bool, hop: nat, origin: int,
                           icao: bool)
    requires IsValidAircraftCallsign(cs) && rf != ReadyForMatchingSent
    ensures KeepsFlag(m, SendReady(m, cs, rf, now, connected, hop, origin), cs, icao)
  {
  }

  lemma FsInnPacketKeepsFlag(m: Monitor, cs: Callsign, p: Packet, lookup: Lookup, now: int, connected: bool, hop: nat,
                             origin: int, icao: bool)
    requires IsValidAircraftCallsign(cs)
    ensures KeepsFlag(m, OnFsInnPacket(m, cs, p, lookup, now, connected, hop, origin), cs, icao)
  {
    if connected && cs in m.inRange {
      FsInnPacketTouches(m, cs, p, lookup, now, connected, hop, origin);
      WithFsInnTouches(m, cs, p, lookup, now);
      SendReadyKeepsFlag(WithFsInn(m, cs, p, lookup, now), cs, ReceivedFsInnPacket, now, connected, hop, origin, icao);
    }
  }

  lemma TimerKeepsFlag(m: Monitor, t: Timer, lookup: Lookup, now: int, connected: bool, icao: bool)
    requires IsValidAircraftCallsign(t.cs) && !t.job.ReAdd?
    ensures KeepsFlag(m, OnTimer(m, t, lookup, now, connected), t.cs, icao)
  {
    var cs := t.cs;
    match t.job
    case Verify =>
      var r := Record(m, cs);
      SendReadyKeepsFlag(SetRecord(m, cs, r), cs, Verified, now, connected, 0, now, icao);
      SendReadyKeepsFlag(SetRecord(m, cs, r.AddFlag(Verified, now)), cs, Verified, now, connected, 0, now, icao);
    case Recheck(flag, hop, origin) =>
      if cs in m.fsInn {
        FsInnPacketKeepsFlag(m.(fsInn := m.fsInn - {cs}), cs, m.fsInn[cs], lookup, now, connected, hop, origin, icao);
      }
      SendReadyKeepsFlag(m, cs, RecursiveCall, now, connected, hop, origin, icao);
  }

  lemma MessageKeepsFlag(m: Monitor, msg: MonitorMsg, order: seq<Callsign>, now: int, connected: bool, icao: bool)
    requires ConcernsOne(msg) && IsValidAircraftCallsign(msg.cs)
    ensures KeepsFlag(m, Handle(m, msg, order, now, connected), msg.cs, icao)
  {
    match msg
    case Position(cs, distance, moving, copilot) => PositionTouches(m, cs, distance, moving, copilot, now, connected);
    case IcaoCodes(cs, lookup) =>
      SendReadyKeepsFlag(UpdateAircraft(m, cs, lookup.model), cs, ReceivedIcaoCodes, now, connected, 0, now, icao);
    case FsInnPacket(cs, packet, lookup) => FsInnPacketKeepsFlag(m, cs, packet, lookup, now, connected, 0, now, icao);
    case _ =>
  }

  lemma StepKeepsFlag(s: System, e: Event, cs: Callsign, icao: bool)
    requires Enabled(s, e) && IsValidAircraftCallsign(cs) && !D.ReAdds(e, cs)
    ensures KeepsFlag(s.mon, MonitorStep(s, e), cs, icao)
  {
    if e.MonitorTakes? && ConcernsOne(s.inbox[0]) {
      HandlingTouches(s.mon, s.inbox[0], e.order, s.now, s.connected);
      if s.inbox[0].cs == cs { MessageKeepsFlag(s.mon, s.inbox[0], e.order, s.now, s.connected, icao); }
    } else if e.TimerFires? {
      var taken := s.mon.(timers := s.mon.timers - multiset{e.timer});
      TimerTouches(taken, e.timer, e.lookup, s.now, s.connected);
      if e.timer.cs == cs { TimerKeepsFlag(taken, e.timer, e.lookup, s.now, s.connected, icao); }
    }
  }

  lemma {:induction false} FlagStaysUntilAnnounced(states: seq<System>, events: seq<Event>, i: nat, j: nat,
                                                   cs: Callsign, icao: bool)
    requires D.StaysInRange(states, events, i, j, cs) && IsValidAircraftCallsign(cs)
    requires Remembers(states[i].mon, cs, icao) && !D.SignalledBetween(states, events, i, j, cs)
    ensures Remembers(states[j].mon, cs, icao)
    decreases j - i
  {
    if i < j {
      FlagStaysUntilAnnounced(states, events, i, j - 1, cs, icao);
      assert Enabled(states[j - 1], events[j - 1]);
      StepKeepsFlag(states[j - 1], events[j - 1], cs, icao);
      StepMonitor(states[j - 1], events[j - 1]);
    }
  }

  /** Run level: an aircraft that stays in range, has situations and gets both packets, in either order, is announced
      at the latest when the second one is handled. */
  lemma BothPacketsAnnounce(states: seq<System>, events: seq<Event>, i: nat, k: nat, cs: Callsign)
    requires i < k < |events| && D.StaysInRange(states, events, i, k + 1, cs) && IsValidAircraftCallsign(cs)
    requires !WasSent(states[i].mon, cs) && cs in states[k].mon.tracks && states[k].mon.tracks[cs].count > 1
    requires || (TakesIcaoCodes(states[i], events[i], cs) && TakesFsInnPacket(states[k], events[k], cs))
             || (TakesFsInnPacket(states[i], events[i], cs) && TakesIcaoCodes(states[k], events[k], cs))
    ensures D.SignalledBetween(states, events, i, k + 1, cs)
  {
    if !D.SignalledBetween(states, events, i, k + 1, cs) {
      var icao := TakesIcaoCodes(states[i], events[i], cs);
      assert Enabled(states[i], events[i]) && Enabled(states[k], events[k]);
      FirstPacketIsRemembered(states[i], events[i], cs);
      assert states[i + 1] == Step(states[i], events[i]);
      FlagStaysUntilAnnounced(states, events, i + 1, k, cs, icao);
      SecondPacketAnnounces(states[k], events[k], cs);
      assert false;
    }
  }
}
