/** FsInn packets that come before their aircraft: stored, kept, and used when the aircraft is looked after. */
module StoredPackets {
  import opened Common
  import opened MonitorSpec
  import opened MonitorFrames
  import opened Airspace
  import opened Readiness
  import opened ReadinessLaws

  // ----- what a packet does to the model -----

  /** A model that is not from the database takes what the network says: a model string stays known once it is. */
  predicate IsUpdated(before: Aircraft, found: Aircraft, after: Aircraft) {
    if before.hasDbKey then after == before
    else after.hasModelString == (found.hasModelString || before.hasModelString) && after.hasDbKey == found.hasDbKey
  }

  /** ICAO codes update the model; a packet does so only with a string that is enabled by the setup and known. */
  lemma PacketsUpdateTheModel(m: Monitor, cs: Callsign, p: Packet, lookup: Lookup, now: int, hop: nat, origin: int)
    requires cs in m.inRange && IsValidAircraftCallsign(cs)
    ensures var m' := OnIcaoCodes(m, cs, lookup, now, true).mon;
            cs in m'.inRange && IsUpdated(m.inRange[cs], lookup.model, m'.inRange[cs])
    ensures var m' := OnFsInnPacket(m, cs, p, lookup, now, true, hop, origin).mon;
            && cs in m'.inRange
            && if |p.modelString| > 0 && lookup.useModelStrings && lookup.known
               then IsUpdated(m.inRange[cs], lookup.model, m'.inRange[cs]) else m'.inRange[cs] == m.inRange[cs]
  {
    SendReadyTouches(UpdateAircraft(m, cs, lookup.model), cs, ReceivedIcaoCodes, now, true, 0, now);
    FsInnPacketTouches(m, cs, p, lookup, now, true, hop, origin);
    SendReadyTouches(WithFsInn(m, cs, p, lookup, now), cs, ReceivedFsInnPacket, now, true, hop, origin);
    WithFsInnModel(m, cs, p, lookup, now);
  }

  lemma WithFsInnModel(m: Monitor, cs: Callsign, p: Packet, lookup: Lookup, now: int)
    requires cs in m.inRange && IsValidAircraftCallsign(cs)
    ensures var m' := WithFsInn(m, cs, p, lookup, now);
            && cs in m'.inRange
            && if |p.modelString| > 0 && lookup.useModelStrings && lookup.known
               then IsUpdated(m.inRange[cs], lookup.model, m'.inRange[cs]) else m'.inRange[cs] == m.inRange[cs]
  {
  }

  // ----- the store -----

  /** Handling these may change the stored packet of `cs`: a newer one, a lost connection, or the recheck that uses
      it. */
  predicate ReplacesPacket(s: System, e: Event, cs: Callsign) {
    || (e.MonitorTakes? && s.inbox != []
        && (s.inbox[0].Disconnected? || (s.inbox[0].FsInnPacket? && s.inbox[0].cs == cs)))
    || (e.TimerFires? && e.timer.cs == cs && e.timer.job.Recheck? && e.timer.job.flag != ReceivedFsInnPacket
        && cs in s.mon.inRange)
  }

  predicate SamePacket(m: Monitor, m': Monitor, cs: Callsign) {
    (cs in m'.fsInn <==> cs in m.fsInn) && (cs in m.fsInn ==> m'.fsInn[cs] == m.fsInn[cs])
  }

  lemma SendReadyKeepsPackets(m: Monitor, cs: Callsign, rf: Flag, now: int, connected: bool, hop: nat, origin: int)
    ensures SendReady(m, cs, rf, now, connected, hop, origin).mon.fsInn == m.fsInn
  {
  }

  lemma FsInnPacketKeepsOthers(m: Monitor, who: Callsign, p: Packet, lookup: Lookup, now: int, connected: bool,
                               hop: nat, origin: int, cs: Callsign)
    requires cs != who
    ensures SamePacket(m, OnFsInnPacket(m, who, p, lookup, now, connected, hop, origin).mon, cs)
  {
    FsInnPacketTouches(m, who, p, lookup, now, connected, hop, origin);
    SendReadyKeepsPackets(WithFsInn(m, who, p, lookup, now), who, ReceivedFsInnPacket, now, connected, hop, origin);
  }

  lemma TimerKeepsPacket(m: Monitor, t: Timer, lookup: Lookup, now: int, connected: bool, cs: Callsign)
    requires !(t.cs == cs && t.job.Recheck? && t.job.flag != ReceivedFsInnPacket && cs in m.inRange)
    ensures SamePacket(m, OnTimer(m, t, lookup, now, connected).mon, cs)
  {
    match t.job
    case Verify =>
      var r := Record(m, t.cs);
      SendReadyKeepsPackets(SetRecord(m, t.cs, r), t.cs, Verified, now, connected, 0, now);
      SendReadyKeepsPackets(SetRecord(m, t.cs, r.AddFlag(Verified, now)), t.cs, Verified, now, connected, 0, now);
    case Recheck(flag, hop, origin) =>
      SendReadyKeepsPackets(m, t.cs, RecursiveCall, now, connected, hop, origin);
      if t.cs in m.fsInn && t.cs != cs {
        var recalled := m.(fsInn := m.fsInn - {t.cs});
        FsInnPacketKeepsOthers(recalled, t.cs, m.fsInn[t.cs], lookup, now, connected, hop, origin, cs);
      }
    case ReAdd(aircraft) =>
      var added := AddAircraft(m, t.cs, aircraft, now);
      SendReadyKeepsPackets(added.(readiness := added.readiness - {t.cs}), t.cs, ReceivedAll, now, connected, 0, now);
  }

  lemma MessageKeepsPacket(m: Monitor, msg: MonitorMsg, order: seq<Callsign>, now: int, connected: bool, cs: Callsign)
    requires !msg.Disconnected? && !(msg.FsInnPacket? && msg.cs == cs)
    ensures SamePacket(m, Handle(m, msg, order, now, connected).mon, cs)
  {
    match msg
    case IcaoCodes(who, lookup) =>
      SendReadyKeepsPackets(UpdateAircraft(m, who, lookup.model), who, ReceivedIcaoCodes, now, connected, 0, now);
    case FsInnPacket(who, packet, lookup) =>
      FsInnPacketKeepsOthers(m, who, packet, lookup, now, connected, 0, now, cs);
    case _ =>
  }

  lemma StepKeepsPacket(s: System, e: Event, cs: Callsign)
    requires Enabled(s, e) && !ReplacesPacket(s, e, cs)
    ensures SamePacket(s.mon, Step(s, e).mon, cs)
  {
    StepMonitor(s, e);
    if e.MonitorTakes? {
      MessageKeepsPacket(s.mon, s.inbox[0], e.order, s.now, s.connected, cs);
    } else if e.TimerFires? {
      var taken := s.mon.(timers := s.mon.timers - multiset{e.timer});
      TimerKeepsPacket(taken, e.timer, e.lookup, s.now, s.connected, cs);
    }
  }

  /** Event i is the arrival of a packet for a callsign that is neither in range nor a station online. */
  predicate ComesEarly(s: System, e: Event, cs: Callsign, p: Packet) {
    && e.MonitorTakes? && s.inbox != [] && s.inbox[0].FsInnPacket? && s.inbox[0].cs == cs && s.inbox[0].packet == p
    && s.connected && cs != "" && cs !in s.mon.inRange && cs !in s.mon.atcOnline
  }

  lemma {:induction false} EarlyPacketIsKept(states: seq<System>, events: seq<Event>, i: nat, k: nat, cs: Callsign,
                                             p: Packet)
    requires IsRun(states, events) && i < k < |states| && ComesEarly(states[i], events[i], cs, p)
    requires forall n {:trigger events[n]} :: i < n < k ==> !ReplacesPacket(states[n], events[n], cs)
    ensures cs in states[k].mon.fsInn && states[k].mon.fsInn[cs] == p
    decreases k
  {
    var s, e := states[k - 1], events[k - 1];
    assert Enabled(s, e);
    if k > i + 1 {
      EarlyPacketIsKept(states, events, i, k - 1, cs, p);
      StepKeepsPacket(s, e, cs);
    }
  }

  /** A packet that comes before its aircraft, and is not replaced, is the one the first recheck finds: from then on it
      is taken out of the store, has updated the model as if it had just come, and counts, unless the aircraft is
      announced in the same step. */
  lemma EarlyPacketIsUsed(states: seq<System>, events: seq<Event>, i: nat, k: nat, cs: Callsign, p: Packet)
    requires IsRun(states, events) && i < k < |events| && ComesEarly(states[i], events[i], cs, p)
    requires forall n {:trigger events[n]} :: i < n < k ==> !ReplacesPacket(states[n], events[n], cs)
    requires events[k].TimerFires? && ReplacesPacket(states[k], events[k], cs) && states[k].connected
    requires IsValidAircraftCallsign(cs)
    ensures var m, m', lookup := states[k].mon, states[k + 1].mon, events[k].lookup;
            && cs !in m'.fsInn && cs in m'.inRange
            && (if |p.modelString| > 0 && lookup.useModelStrings && lookup.known
                then IsUpdated(m.inRange[cs], lookup.model, m'.inRange[cs]) else m'.inRange[cs] == m.inRange[cs])
            && cs in m'.readiness && (m'.readiness[cs].fsInn || m'.readiness[cs].sent)
  {
    var s, e := states[k], events[k];
    assert Enabled(s, e) && states[k + 1] == Step(s, e);
    EarlyPacketIsKept(states, events, i, k, cs, p);
    var recalled := s.mon.(timers := s.mon.timers - multiset{e.timer}, fsInn := s.mon.fsInn - {cs});
    PacketsUpdateTheModel(recalled, cs, p, e.lookup, s.now, e.timer.job.hop, e.timer.job.origin);
    PacketIsCounted(recalled, cs, p, e.lookup, s.now, e.timer.job.hop, e.timer.job.origin);
    RecheckRecalls(s, e, cs);
  }

  lemma RecheckRecalls(s: System, e: Event, cs: Callsign)
    requires Enabled(s, e) && e.TimerFires? && ReplacesPacket(s, e, cs) && cs in s.mon.fsInn
    ensures var recalled := s.mon.(timers := s.mon.timers - multiset{e.timer}, fsInn := s.mon.fsInn - {cs});
            Step(s, e).mon
                == OnFsInnPacket(recalled, cs, s.mon.fsInn[cs], e.lookup, s.now, s.connected, e.timer.job.hop,
                                            e.timer.job.origin).mon
  {
    StepMonitor(s, e);
  }

  lemma PacketIsCounted(m: Monitor, cs: Callsign, p: Packet, lookup: Lookup, now: int, hop: nat, origin: int)
    requires cs in m.inRange && IsValidAircraftCallsign(cs) && cs !in m.fsInn
    ensures var m' := OnFsInnPacket(m, cs, p, lookup, now, true, hop, origin).mon;
            cs !in m'.fsInn && cs in m'.readiness && (m'.readiness[cs].fsInn || m'.readiness[cs].sent)
  {
    var flagged := WithFsInn(m, cs, p, lookup, now);
    FsInnPacketTouches(m, cs, p, lookup, now, true, hop, origin);
    WithFsInnTouches(m, cs, p, lookup, now);
    SendReadyKeepsPackets(flagged, cs, ReceivedFsInnPacket, now, true, hop, origin);
    assert cs in flagged.inRange.Keys;
    FlaggedStaysOrIsSent(flagged, cs, now, hop, origin);
  }

  lemma FlaggedStaysOrIsSent(m: Monitor, cs: Callsign, now: int, hop: nat, origin: int)
    requires cs in m.inRange && IsValidAircraftCallsign(cs)
    ensures var m' := SendReady(m, cs, ReceivedFsInnPacket, now, true, hop, origin).mon;
            cs in m'.readiness && (m'.readiness[cs].fsInn || m'.readiness[cs].sent)
  {
  }
}
