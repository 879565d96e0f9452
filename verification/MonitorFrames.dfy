/** Every slot of the monitor works on one callsign and leaves the others alone. */
module MonitorFrames {
  import opened Common
  import opened MonitorSpec
  import opened Airspace
  import opened Readiness

  /** From `m` to `m'` only `cs` is concerned: the range limits, other aircraft and other records are as before,
      no pending timer is lost, and new timers are for `cs`. */
  ghost predicate OnlyTouches(m: Monitor, m': Monitor, cs: Callsign) {
    && m'.maxNM == m.maxNM && m'.hysteresisNM == m.hysteresisNM
    && (forall c :: c != cs ==> (c in m'.inRange <==> c in m.inRange))
    && (forall c :: c != cs ==> (c in m'.readiness <==> c in m.readiness))
    && (forall c :: c != cs && c in m.readiness ==> m'.readiness[c] == m.readiness[c])
    && (forall t :: t in m.timers ==> t in m'.timers)
    && (forall t :: t in m'.timers ==> t in m.timers || t.cs == cs)
  }

  /** Only the monitor's own activities change the monitor. */
  lemma StepMonitor(s: System, e: Event)
    requires Enabled(s, e)
    ensures Step(s, e).mon == MonitorStep(s, e).mon
  {
  }

  lemma SendReadyTouches(m: Monitor, cs: Callsign, rf: Flag, now: int, connected: bool, hop: nat, origin: int)
    ensures OnlyTouches(m, SendReady(m, cs, rf, now, connected, hop, origin).mon, cs)
    ensures SendReady(m, cs, rf, now, connected, hop, origin).mon.inRange == m.inRange
  {
  }

  lemma Transitive(m: Monitor, m': Monitor, m'': Monitor, cs: Callsign)
    requires OnlyTouches(m, m', cs) && OnlyTouches(m', m'', cs)
    ensures OnlyTouches(m, m'', cs)
  {
  }

  lemma SetRecordTouches(m: Monitor, cs: Callsign, r: Readiness)
    ensures OnlyTouches(m, SetRecord(m, cs, r), cs)
  {
  }

  lemma ScheduleTouches(m: Monitor, t: Timer)
    ensures OnlyTouches(m, Schedule(m, t), t.cs) && t in Schedule(m, t).timers
  {
  }

  lemma UpdateTouches(m: Monitor, cs: Callsign, found: Aircraft)
    ensures OnlyTouches(m, UpdateAircraft(m, cs, found), cs)
    ensures UpdateAircraft(m, cs, found).inRange.Keys == m.inRange.Keys
  {
  }

  lemma IcaoCodesTouch(m: Monitor, cs: Callsign, lookup: Lookup, now: int, connected: bool)
    ensures OnlyTouches(m, OnIcaoCodes(m, cs, lookup, now, connected).mon, cs)
    ensures OnIcaoCodes(m, cs, lookup, now, connected).mon.inRange.Keys == m.inRange.Keys
  {
    var updated := UpdateAircraft(m, cs, lookup.model);
    UpdateTouches(m, cs, lookup.model);
    SendReadyTouches(updated, cs, ReceivedIcaoCodes, now, connected, 0, now);
    Transitive(m, updated, SendReady(updated, cs, ReceivedIcaoCodes, now, connected, 0, now).mon, cs);
  }

  lemma WithFsInnTouches(m: Monitor, cs: Callsign, p: Packet, lookup: Lookup, now: int)
    ensures OnlyTouches(m, WithFsInn(m, cs, p, lookup, now), cs)
    ensures WithFsInn(m, cs, p, lookup, now).inRange.Keys == m.inRange.Keys
    ensures WithFsInn(m, cs, p, lookup, now).timers == m.timers
    ensures WithFsInn(m, cs, p, lookup, now).readiness
            == m.readiness[cs := Record(m, cs).AddFlag(ReceivedFsInnPacket, now)]
  {
  }

  lemma FsInnPacketTouches(m: Monitor, cs: Callsign, p: Packet, lookup: Lookup, now: int, connected: bool, hop: nat,
                           origin: int)
    ensures OnlyTouches(m, OnFsInnPacket(m, cs, p, lookup, now, connected, hop, origin).mon, cs)
    ensures OnFsInnPacket(m, cs, p, lookup, now, connected, hop, origin).mon.inRange.Keys == m.inRange.Keys
    ensures cs != "" && connected && cs in m.inRange ==>
      OnFsInnPacket(m, cs, p, lookup, now, connected, hop, origin)
      == SendReady(WithFsInn(m, cs, p, lookup, now), cs, ReceivedFsInnPacket, now, connected, hop, origin)
  {
    WithFsInnTouches(m, cs, p, lookup, now);
    SendReadyTouches(WithFsInn(m, cs, p, lookup, now), cs, ReceivedFsInnPacket, now, connected, hop, origin);
  }

  lemma VerifyTouches(m: Monitor, cs: Callsign, now: int, connected: bool)
    ensures OnlyTouches(m, OnVerify(m, cs, now, connected).mon, cs)
    ensures OnVerify(m, cs, now, connected).mon.inRange == m.inRange
  {
    if cs != "" && cs in m.inRange {
      var r := Record(m, cs);
      var present := SetRecord(m, cs, r);
      var flagged := SetRecord(m, cs, r.AddFlag(Verified, now));
      var m' := OnVerify(m, cs, now, connected).mon;
      SetRecordTouches(m, cs, r);
      SetRecordTouches(m, cs, r.AddFlag(Verified, now));
      if !r.sent {
        if r.verified {
          SendReadyTouches(present, cs, Verified, now, connected, 0, now);
          Transitive(m, present, m', cs);
        } else if r.icao {
          SendReadyTouches(flagged, cs, Verified, now, connected, 0, now);
          Transitive(m, flagged, m', cs);
        } else {
          ScheduleTouches(flagged, Timer(now + VERIFY_MS, cs, Verify));
          Transitive(m, flagged, m', cs);
        }
      }
    }
  }

  lemma RecheckTouches(m: Monitor, cs: Callsign, flag: Flag, hop: nat, origin: int, lookup: Lookup, now: int,
                       connected: bool)
    ensures OnlyTouches(m, OnRecheck(m, cs, flag, hop, origin, lookup, now, connected).mon, cs)
    ensures OnRecheck(m, cs, flag, hop, origin, lookup, now, connected).mon.inRange.Keys == m.inRange.Keys
  {
    if cs in m.fsInn {
      FsInnPacketTouches(m.(fsInn := m.fsInn - {cs}), cs, m.fsInn[cs], lookup, now, connected, hop, origin);
    }
    SendReadyTouches(m, cs, RecursiveCall, now, connected, hop, origin);
  }

  lemma AddAircraftTouches(m: Monitor, cs: Callsign, aircraft: Aircraft, now: int)
    ensures OnlyTouches(m, AddAircraft(m, cs, aircraft, now), cs)
    ensures AddAircraft(m, cs, aircraft, now).inRange.Keys == m.inRange.Keys + {cs}
  {
    if cs !in m.inRange {
      var present := m.(inRange := m.inRange[cs := aircraft]);
      assert OnlyTouches(m, present, cs);
      ScheduleTouches(present, Timer(now + VERIFY_MS, cs, Verify));
      Transitive(m, present, AddAircraft(m, cs, aircraft, now), cs);
    }
  }

  lemma ReAddTouches(m: Monitor, cs: Callsign, aircraft: Aircraft, now: int, connected: bool)
    ensures OnlyTouches(m, OnReAdd(m, cs, aircraft, now, connected).mon, cs)
    ensures OnReAdd(m, cs, aircraft, now, connected).mon.inRange.Keys == m.inRange.Keys + {cs}
  {
    var added := AddAircraft(m, cs, aircraft, now);
    var clean := added.(readiness := added.readiness - {cs});
    var m' := OnReAdd(m, cs, aircraft, now, connected).mon;
    AddAircraftTouches(m, cs, aircraft, now);
    assert OnlyTouches(added, clean, cs);
    SendReadyTouches(clean, cs, ReceivedAll, now, connected, 0, now);
    Transitive(m, added, clean, cs);
    Transitive(m, clean, m', cs);
  }

  lemma TimerTouches(m: Monitor, t: Timer, lookup: Lookup, now: int, connected: bool)
    ensures OnlyTouches(m, OnTimer(m, t, lookup, now, connected).mon, t.cs)
    ensures OnTimer(m, t, lookup, now, connected).mon.inRange.Keys
            == m.inRange.Keys + (if t.job.ReAdd? then {t.cs} else {})
  {
    match t.job
    case Verify => VerifyTouches(m, t.cs, now, connected);
    case Recheck(flag, hop, origin) => RecheckTouches(m, t.cs, flag, hop, origin, lookup, now, connected);
    case ReAdd(aircraft) => ReAddTouches(m, t.cs, aircraft, now, connected);
  }

  lemma StoringTouches(m: Monitor, cs: Callsign, moving: bool)
    ensures var o := StoreSituation(m, cs, moving);
            && o.mon == m.(tracks := o.mon.tracks)
            && OnlyTouches(m, o.mon, cs)
  {
  }

  /** A position adds, updates or expels its aircraft, or does nothing. */
  lemma PositionCases(m: Monitor, cs: Callsign, distance: Option<int>, moving: bool, now: int)
    ensures OnPosition(m, cs, distance, moving, false, now, true).mon ==
      if Expels(m, distance) then MonitorSpec.DropAircraft(m, cs)
      else if cs in m.inRange then StoreSituation(m, cs, moving).mon
      else if Admits(m, distance) then AddAircraft(StoreSituation(m, cs, moving).mon, cs, Aircraft(false, false), now)
      else m
  {
  }

  /** A position leaves the records alone and starts a verify timer exactly when it adds the aircraft. */
  lemma PositionTouches(m: Monitor, cs: Callsign, distance: Option<int>, moving: bool, copilot: bool, now: int,
                        connected: bool)
    ensures var m' := OnPosition(m, cs, distance, moving, copilot, now, connected).mon;
            && OnlyTouches(m, m', cs)
            && m'.readiness == m.readiness
            && m'.timers == (if cs in m.inRange || cs !in m'.inRange then m.timers
                             else m.timers + multiset{Timer(now + VERIFY_MS, cs, Verify)})
  {
    if connected && !copilot {
      PositionCases(m, cs, distance, moving, now);
      StoringTouches(m, cs, moving);
      var stored := StoreSituation(m, cs, moving).mon;
      if !Expels(m, distance) && cs !in m.inRange && Admits(m, distance) {
        AddAircraftTouches(stored, cs, Aircraft(false, false), now);
        assert cs in AddAircraft(stored, cs, Aircraft(false, false), now).inRange.Keys;
      }
    }
  }

  /** The messages that are about one callsign. */
  predicate ConcernsOne(msg: MonitorMsg) {
    !msg.Connecting? && !msg.Disconnected?
  }

  lemma PilotDisconnectedTouches(m: Monitor, cs: Callsign)
    ensures OnlyTouches(m, OnPilotDisconnected(m, cs).mon, cs)
  {
  }

  lemma InterimTouches(m: Monitor, cs: Callsign, moving: bool, copilot: bool, connected: bool)
    ensures OnlyTouches(m, OnInterimPosition(m, cs, moving, copilot, connected).mon, cs)
  {
    StoringTouches(m, cs, moving);
  }

  lemma HandlingTouches(m: Monitor, msg: MonitorMsg, order: seq<Callsign>, now: int, connected: bool)
    requires ConcernsOne(msg)
    ensures OnlyTouches(m, Handle(m, msg, order, now, connected).mon, msg.cs)
  {
    match msg
    case Position(cs, distance, moving, copilot) => PositionTouches(m, cs, distance, moving, copilot, now, connected);
    case InterimPosition(cs, moving, copilot) => InterimTouches(m, cs, moving, copilot, connected);
    case IcaoCodes(cs, lookup) => IcaoCodesTouch(m, cs, lookup, now, connected);
    case FsInnPacket(cs, packet, lookup) => FsInnPacketTouches(m, cs, packet, lookup, now, connected, 0, now);
    case PilotDisconnected(cs) => PilotDisconnectedTouches(m, cs);
    case AircraftTimeout(cs) => PilotDisconnectedTouches(m, cs);
    case _ =>
  }

  /** A position announces nothing. */
  lemma PositionAnnouncesNothing(m: Monitor, cs: Callsign, distance: Option<int>, moving: bool, copilot: bool,
                                 now: int, connected: bool)
    ensures forall c :: ReadyForMatching(c) !in OnPosition(m, cs, distance, moving, copilot, now, connected).signals
  {
  }
}
