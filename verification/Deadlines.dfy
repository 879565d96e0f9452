/** When readiness is signalled: in time whatever packets are lost, and never twice early. */
module Deadlines {
  import opened Common
  import opened MonitorSpec
  import opened MonitorFrames
  import opened Airspace
  import opened Readiness
  import opened NobodyStranded
  import opened Announcements

  predicate Signalled(o: Outcome, cs: Callsign) {
    ReadyForMatching(cs) in o.signals
  }

  /** How one activity of the monitor may treat the record of `cs`. */
  ghost predicate Fair(m: Monitor, o: Outcome, cs: Callsign, now: int) {
    && (Signalled(o, cs) ==> Announced(o.mon, cs))
    && (Announced(m, cs) && m.readiness[cs].Started() && Signalled(o, cs) ==>
          now - m.readiness[cs].ts >= 20000)
    && (Announced(m, cs) && cs in o.mon.readiness ==>
          Announced(o.mon, cs) && (m.readiness[cs].Started() ==> o.mon.readiness[cs].ts == m.readiness[cs].ts))
    && (!Announced(m, cs) && Announced(o.mon, cs) ==> Signalled(o, cs))
    && (cs in m.inRange && Record(m, cs).verified && !Announced(o.mon, cs) && cs in o.mon.inRange ==>
        Record(o.mon, cs).verified)
  }

  /** Readiness is signalled for `cs` only. */
  ghost predicate SignalsOnly(o: Outcome, cs: Callsign) {
    forall c :: Signalled(o, c) ==> c == cs
  }

  lemma SendReadyIsFair(m: Monitor, cs: Callsign, rf: Flag, now: int, connected: bool, hop: nat, origin: int)
    requires rf != ReadyForMatchingSent
    ensures var o := SendReady(m, cs, rf, now, connected, hop, origin);
            SignalsOnly(o, cs) && (IsValidAircraftCallsign(cs) ==> Fair(m, o, cs, now))
  {
  }

  lemma FsInnPacketIsFair(m: Monitor, cs: Callsign, p: Packet, lookup: Lookup, now: int, connected: bool, hop: nat,
                          origin: int)
    ensures var o := OnFsInnPacket(m, cs, p, lookup, now, connected, hop, origin);
            SignalsOnly(o, cs) && (IsValidAircraftCallsign(cs) ==> Fair(m, o, cs, now))
  {
    if cs != "" && connected && cs in m.inRange {
      FsInnPacketTouches(m, cs, p, lookup, now, connected, hop, origin);
      WithFsInnTouches(m, cs, p, lookup, now);
      SendReadyIsFair(WithFsInn(m, cs, p, lookup, now), cs, ReceivedFsInnPacket, now, connected, hop, origin);
    }
  }

  lemma VerifyIsFair(m: Monitor, cs: Callsign, now: int, connected: bool)
    ensures var o := OnVerify(m, cs, now, connected);
            SignalsOnly(o, cs) && (IsValidAircraftCallsign(cs) ==> Fair(m, o, cs, now))
  {
    if cs != "" && cs in m.inRange {
      var r := Record(m, cs);
      SendReadyIsFair(SetRecord(m, cs, r), cs, Verified, now, connected, 0, now);
      SendReadyIsFair(SetRecord(m, cs, r.AddFlag(Verified, now)), cs, Verified, now, connected, 0, now);
    }
  }

  lemma TimerIsFair(m: Monitor, t: Timer, lookup: Lookup, now: int, connected: bool)
    ensures var o := OnTimer(m, t, lookup, now, connected);
            && SignalsOnly(o, t.cs)
            && (IsValidAircraftCallsign(t.cs) && !t.job.ReAdd? ==> Fair(m, o, t.cs, now))
  {
    match t.job
    case Verify => VerifyIsFair(m, t.cs, now, connected);
    case Recheck(flag, hop, origin) =>
      if t.cs in m.fsInn {
        FsInnPacketIsFair(m.(fsInn := m.fsInn - {t.cs}), t.cs, m.fsInn[t.cs], lookup, now, connected, hop, origin);
      }
      SendReadyIsFair(m, t.cs, RecursiveCall, now, connected, hop, origin);
    case ReAdd(aircraft) =>
      var added := AddAircraft(m, t.cs, aircraft, now);
      SendReadyIsFair(added.(readiness := added.readiness - {t.cs}), t.cs, ReceivedAll, now, connected, 0, now);
  }

  lemma PositionIsFair(m: Monitor, msg: MonitorMsg, order: seq<Callsign>, now: int, connected: bool)
    requires msg.Position?
    ensures var o := Handle(m, msg, order, now, connected); SignalsOnly(o, msg.cs) && Fair(m, o, msg.cs, now)
  {
    var o := OnPosition(m, msg.cs, msg.distance, msg.moving, msg.copilot, now, connected);
    PositionTouches(m, msg.cs, msg.distance, msg.moving, msg.copilot, now, connected);
    PositionAnnouncesNothing(m, msg.cs, msg.distance, msg.moving, msg.copilot, now, connected);
    QuietIsFair(m, o, msg.cs, now);
  }

  lemma QuietIsFair(m: Monitor, o: Outcome, cs: Callsign, now: int)
    requires o.mon.readiness == m.readiness && forall c :: !Signalled(o, c)
    ensures SignalsOnly(o, cs) && Fair(m, o, cs, now)
  {
  }

  lemma HandlingIsFair(m: Monitor, msg: MonitorMsg, order: seq<Callsign>, now: int, connected: bool)
    requires ConcernsOne(msg)
    ensures var o := Handle(m, msg, order, now, connected);
            SignalsOnly(o, msg.cs) && (IsValidAircraftCallsign(msg.cs) ==> Fair(m, o, msg.cs, now))
  {
    if msg.Position? {
      PositionIsFair(m, msg, order, now, connected);
    } else if msg.IcaoCodes? {
      SendReadyIsFair(UpdateAircraft(m, msg.cs, msg.lookup.model), msg.cs, ReceivedIcaoCodes, now, connected, 0, now);
    } else if msg.FsInnPacket? {
      FsInnPacketIsFair(m, msg.cs, msg.packet, msg.lookup, now, connected, 0, now);
    }
  }

  /** The step removes and re-creates the record of `cs` as part of a re-initialisation. */
  predicate ReAdds(e: Event, cs: Callsign) {
    e.TimerFires? && e.timer.cs == cs && e.timer.job.ReAdd?
  }

  lemma StepIsFair(s: System, e: Event, cs: Callsign)
    requires Enabled(s, e) && IsValidAircraftCallsign(cs) && !ReAdds(e, cs)
    ensures Fair(s.mon, MonitorStep(s, e), cs, s.now)
  {
    if e.MonitorTakes? {
      MessageIsFair(s.mon, s.inbox[0], e.order, s.now, s.connected, cs);
    } else if e.TimerFires? {
      var taken := s.mon.(timers := s.mon.timers - multiset{e.timer});
      TimerIsFair(taken, e.timer, e.lookup, s.now, s.connected);
      TimerTouches(taken, e.timer, e.lookup, s.now, s.connected);
      OthersAreFair(taken, OnTimer(taken, e.timer, e.lookup, s.now, s.connected), e.timer.cs, cs, s.now);
    }
  }

  lemma OthersAreFair(m: Monitor, o: Outcome, touched: Callsign, cs: Callsign, now: int)
    requires cs == touched ==> Fair(m, o, cs, now)
    requires OnlyTouches(m, o.mon, touched) && SignalsOnly(o, touched)
    ensures Fair(m, o, cs, now)
  {
  }

  /** A message is fair to every callsign. */
  lemma MessageIsFair(m: Monitor, msg: MonitorMsg, order: seq<Callsign>, now: int, connected: bool, cs: Callsign)
    requires IsValidAircraftCallsign(cs)
    ensures Fair(m, Handle(m, msg, order, now, connected), cs, now)
  {
    if ConcernsOne(msg) {
      HandlingIsFair(m, msg, order, now, connected);
      HandlingTouches(m, msg, order, now, connected);
      OthersAreFair(m, Handle(m, msg, order, now, connected), msg.cs, cs, now);
    } else {
      assert forall c :: !Signalled(Handle(m, msg, order, now, connected), c);
    }
  }

  /** Across the step the record of `cs` is the same one. */
  ghost predicate KeepsRecord(s: System, e: Event, cs: Callsign)
    requires Enabled(s, e)
  {
    !ReAdds(e, cs) && cs in s.mon.readiness && cs in Step(s, e).mon.readiness
  }

  /** Steps `i` to `j - 1` of the run keep the record of `cs`. */
  ghost predicate RecordKept(states: seq<System>, events: seq<Event>, i: nat, j: nat, cs: Callsign) {
    && IsRun(states, events) && i <= j <= |events|
    && forall k {:trigger events[k]} :: i <= k < j ==>
        Enabled(states[k], events[k]) && KeepsRecord(states[k], events[k], cs)
  }

  lemma {:induction false} AnnouncedRecordsStay(states: seq<System>, events: seq<Event>, i: nat, j: nat, cs: Callsign)
    requires IsExecution(states, events) && RecordKept(states, events, i, j, cs)
    requires IsValidAircraftCallsign(cs) && Announced(states[i].mon, cs)
    ensures Announced(states[j].mon, cs) && states[j].mon.readiness[cs].ts == states[i].mon.readiness[cs].ts
    decreases j - i
  {
    if i < j {
      AnnouncedRecordsStay(states, events, i, j - 1, cs);
      assert Enabled(states[j - 1], events[j - 1]);
      FlaggedRecordsHaveClocks(states, events, j - 1, cs);
      AnnouncedRecordStays(states[j - 1], events[j - 1], cs);
    }
  }

  lemma AnnouncedRecordStays(s: System, e: Event, cs: Callsign)
    requires Enabled(s, e) && IsValidAircraftCallsign(cs) && KeepsRecord(s, e, cs)
    requires Announced(s.mon, cs) && s.mon.readiness[cs].Started()
    ensures Announced(Step(s, e).mon, cs) && Step(s, e).mon.readiness[cs].ts == s.mon.readiness[cs].ts
  {
    StepIsFair(s, e, cs);
    StepMonitor(s, e);
  }

  /** Announced at most once early: between two announcements of a callsign whose record is kept, the record
      gets at least 20 s old. */
  lemma NoSecondAnnouncementBeforeTwentySeconds(states: seq<System>, events: seq<Event>, i: nat, j: nat, cs: Callsign)
    requires IsExecution(states, events) && i < j < |events| && IsValidAircraftCallsign(cs)
    requires Enabled(states[i], events[i]) && ReadyForMatching(cs) in Signals(states[i], events[i])
    requires Enabled(states[j], events[j]) && ReadyForMatching(cs) in Signals(states[j], events[j])
    requires RecordKept(states, events, i + 1, j, cs) && !ReAdds(events[i], cs) && !ReAdds(events[j], cs)
    ensures Announced(states[i + 1].mon, cs)
    ensures states[j].now - states[i + 1].mon.readiness[cs].ts >= 20000
  {
    SignalMeansAnnounced(states[i], events[i], cs);
    assert states[i + 1] == Step(states[i], events[i]);
    AnnouncedRecordsStay(states, events, i + 1, j, cs);
    FlaggedRecordsHaveClocks(states, events, j, cs);
    RepeatedSignalIsLate(states[j], events[j], cs);
  }

  lemma SignalMeansAnnounced(s: System, e: Event, cs: Callsign)
    requires Enabled(s, e) && IsValidAircraftCallsign(cs) && !ReAdds(e, cs)
    requires ReadyForMatching(cs) in Signals(s, e)
    ensures Announced(Step(s, e).mon, cs)
  {
    StepIsFair(s, e, cs);
    StepMonitor(s, e);
  }

  lemma RepeatedSignalIsLate(s: System, e: Event, cs: Callsign)
    requires Enabled(s, e) && IsValidAircraftCallsign(cs) && !ReAdds(e, cs)
    requires ReadyForMatching(cs) in Signals(s, e)
    requires Announced(s.mon, cs) && s.mon.readiness[cs].Started()
    ensures s.now - s.mon.readiness[cs].ts >= 20000
  {
    StepIsFair(s, e, cs);
  }

  // ----- the verifications -----

  /** Through steps `i` to `j - 1`, `cs` stays in range while connected and is not re-initialised. */
  ghost predicate StaysInRange(states: seq<System>, events: seq<Event>, i: nat, j: nat, cs: Callsign) {
    && IsRun(states, events) && i <= j <= |events|
    && (forall k :: i <= k <= j ==> cs in states[k].mon.inRange && states[k].connected)
    && (forall k :: i <= k < j ==> !ReAdds(events[k], cs))
  }

  /** Readiness of `cs` is signalled in one of the steps `i` to `j - 1`. */
  ghost predicate SignalledBetween(states: seq<System>, events: seq<Event>, i: nat, j: nat, cs: Callsign)
    requires IsRun(states, events) && j <= |events|
  {
    exists k {:trigger events[k]} :: i <= k < j && Enabled(states[k], events[k])
        && ReadyForMatching(cs) in Signals(states[k], events[k])
  }

  predicate Verifies(e: Event, cs: Callsign) {
    e.TimerFires? && e.timer.cs == cs && e.timer.job.Verify?
  }

  lemma SecondVerifySignals(m: Monitor, cs: Callsign, now: int)
    requires Announceable(m, cs) && !Announced(m, cs)
    ensures var o := OnVerify(m, cs, now, true);
            if Record(m, cs).verified || Record(m, cs).icao then Signalled(o, cs)
            else Record(o.mon, cs).verified && Timer(now + VERIFY_MS, cs, Verify) in o.mon.timers
  {
  }

  lemma {:induction false} StaysVerified(states: seq<System>, events: seq<Event>, i: nat, j: nat, cs: Callsign)
    requires StaysInRange(states, events, i, j, cs) && IsValidAircraftCallsign(cs)
    requires Record(states[i].mon, cs).verified && !Announced(states[i].mon, cs)
    requires !SignalledBetween(states, events, i, j, cs)
    ensures Record(states[j].mon, cs).verified && !Announced(states[j].mon, cs)
    decreases j - i
  {
    if i < j {
      StaysVerified(states, events, i, j - 1, cs);
      assert Enabled(states[j - 1], events[j - 1]);
      VerifiedStays(states[j - 1], events[j - 1], cs);
    }
  }

  lemma VerifiedStays(s: System, e: Event, cs: Callsign)
    requires Enabled(s, e) && IsValidAircraftCallsign(cs) && !ReAdds(e, cs)
    requires cs in s.mon.inRange && cs in Step(s, e).mon.inRange && !Signalled(MonitorStep(s, e), cs)
    requires Record(s.mon, cs).verified && !Announced(s.mon, cs)
    ensures Record(Step(s, e).mon, cs).verified && !Announced(Step(s, e).mon, cs)
  {
    StepIsFair(s, e, cs);
    StepMonitor(s, e);
  }

  /** Whatever packets are lost: an aircraft that is not announced yet and stays in range is announced at the
      latest by the second verification. */
  lemma AnnouncedBySecondVerification(states: seq<System>, events: seq<Event>, i: nat, v: nat, w: nat, cs: Callsign)
    requires i <= v < w < |events| && StaysInRange(states, events, i, w + 1, cs) && IsValidAircraftCallsign(cs)
    requires !Announced(states[i].mon, cs)
    requires Verifies(events[v], cs) && Verifies(events[w], cs)
    ensures SignalledBetween(states, events, i, w + 1, cs)
  {
    if !SignalledBetween(states, events, i, w + 1, cs) {
      NotAnnouncedWithoutSignal(states, events, i, v, cs);
      var s, e := states[v], events[v];
      assert Enabled(s, e);
      SecondVerifySignals(s.mon.(timers := s.mon.timers - multiset{e.timer}), cs, s.now);
      StepIsFair(s, e, cs);
      assert states[v + 1] == Step(s, e);
      StaysVerified(states, events, v + 1, w, cs);
      var s2, e2 := states[w], events[w];
      assert Enabled(s2, e2);
      SecondVerifySignals(s2.mon.(timers := s2.mon.timers - multiset{e2.timer}), cs, s2.now);
      assert false;
    }
  }

  lemma {:induction false} NotAnnouncedWithoutSignal(states: seq<System>, events: seq<Event>, i: nat, j: nat,
                                                     cs: Callsign)
    requires StaysInRange(states, events, i, j, cs) && IsValidAircraftCallsign(cs)
    requires !Announced(states[i].mon, cs) && !SignalledBetween(states, events, i, j, cs)
    ensures !Announced(states[j].mon, cs)
    decreases j - i
  {
    if i < j {
      NotAnnouncedWithoutSignal(states, events, i, j - 1, cs);
      assert Enabled(states[j - 1], events[j - 1]);
      StepIsFair(states[j - 1], events[j - 1], cs);
    }
  }

  // ----- aircraft that come back -----

  /** Leaving by the range limit is silent: the aircraft and its situations are dropped, but its record stays
      and neither the analyzer nor anybody else is told. */
  lemma ExpulsionKeepsTheRecord(m: Monitor, cs: Callsign, distance: Option<int>, moving: bool, now: int)
    requires Expels(m, distance)
    ensures var o := OnPosition(m, cs, distance, moving, false, now, true);
            cs !in o.mon.inRange && o.mon.readiness == m.readiness && o.signals == []
  {
  }

  /** The activities that can announce an aircraft whose record is already marked sent. */
  ghost predicate IsPacketOrRecheck(s: System, e: Event, cs: Callsign)
    requires Enabled(s, e)
  {
    || (e.MonitorTakes? && (s.inbox[0].IcaoCodes? || s.inbox[0].FsInnPacket?) && s.inbox[0].cs == cs)
    || (e.TimerFires? && e.timer.job.Recheck? && e.timer.cs == cs)
  }

  /** Hence an aircraft that comes back with a record marked sent is not helped by the verifications: it is only
      announced again by a packet (or a recheck) handled when the record is at least 20 s old. */
  lemma ReturningAircraftNeedsALatePacket(states: seq<System>, events: seq<Event>, i: nat, k: nat, cs: Callsign)
    requires IsExecution(states, events) && i <= k < |events| && RecordKept(states, events, i, k, cs)
    requires IsValidAircraftCallsign(cs) && Announced(states[i].mon, cs) && !ReAdds(events[k], cs)
    requires Enabled(states[k], events[k]) && ReadyForMatching(cs) in Signals(states[k], events[k])
    ensures IsPacketOrRecheck(states[k], events[k], cs)
    ensures states[k].now - states[i].mon.readiness[cs].ts >= 20000
  {
    AnnouncedRecordsStay(states, events, i, k, cs);
    FlaggedRecordsHaveClocks(states, events, k, cs);
    RepeatedSignalIsLate(states[k], events[k], cs);
    OnlyPacketsRepeat(states[k], events[k], cs);
  }

  /** For an announced aircraft in range this is exact: it is announced again if and only if, while connected, such a
      packet or recheck finds its record at least 20 s old. */
  lemma AnnouncedAgainIffLatePacket(s: System, e: Event, cs: Callsign)
    requires Enabled(s, e) && Announceable(s.mon, cs) && Announced(s.mon, cs) && s.mon.readiness[cs].Started()
             && !ReAdds(e, cs)
    ensures ReadyForMatching(cs) in Signals(s, e)
       <==> s.connected && IsPacketOrRecheck(s, e, cs) && s.now - s.mon.readiness[cs].ts >= 20000
  {
    if ReadyForMatching(cs) in Signals(s, e) {
      RepeatedSignalIsLate(s, e, cs);
      OnlyPacketsRepeat(s, e, cs);
      SignalsNeedConnection(s, e, cs);
    } else if s.connected && IsPacketOrRecheck(s, e, cs) && s.now - s.mon.readiness[cs].ts >= 20000 {
      LatePacketAnnounces(s, e, cs);
    }
  }

  /** An old record marked sent is announced again by any evaluation of a packet or recheck. */
  lemma OldRecordRepeats(m: Monitor, cs: Callsign, rf: Flag, now: int, hop: nat, origin: int)
    requires Announceable(m, cs) && Announced(m, cs) && m.readiness[cs].Started()
    requires now - m.readiness[cs].ts >= 20000
    ensures SendReady(m, cs, rf, now, true, hop, origin).signals == [ReadyForMatching(cs)]
  {
  }

  lemma OldRecordRepeatsByPacket(m: Monitor, cs: Callsign, p: Packet, lookup: Lookup, now: int, hop: nat, origin: int)
    requires Announceable(m, cs) && Announced(m, cs) && m.readiness[cs].Started()
    requires now - m.readiness[cs].ts >= 20000
    ensures OnFsInnPacket(m, cs, p, lookup, now, true, hop, origin).signals == [ReadyForMatching(cs)]
  {
    FsInnPacketTouches(m, cs, p, lookup, now, true, hop, origin);
    WithFsInnTouches(m, cs, p, lookup, now);
    assert cs in WithFsInn(m, cs, p, lookup, now).inRange.Keys;
    OldRecordRepeats(WithFsInn(m, cs, p, lookup, now), cs, ReceivedFsInnPacket, now, hop, origin);
  }

  lemma LatePacketAnnounces(s: System, e: Event, cs: Callsign)
    requires Enabled(s, e) && Announceable(s.mon, cs) && Announced(s.mon, cs) && s.mon.readiness[cs].Started()
    requires s.connected && IsPacketOrRecheck(s, e, cs) && s.now - s.mon.readiness[cs].ts >= 20000
    ensures Signals(s, e) == [ReadyForMatching(cs)]
  {
    if e.TimerFires? {
      var taken := s.mon.(timers := s.mon.timers - multiset{e.timer});
      OldRecordRepeats(taken, cs, RecursiveCall, s.now, e.timer.job.hop, e.timer.job.origin);
      if cs in taken.fsInn {
        OldRecordRepeatsByPacket(taken.(fsInn := taken.fsInn - {cs}), cs, taken.fsInn[cs], e.lookup, s.now,
                                 e.timer.job.hop, e.timer.job.origin);
      }
    } else if s.inbox[0].FsInnPacket? {
      OldRecordRepeatsByPacket(s.mon, cs, s.inbox[0].packet, s.inbox[0].lookup, s.now, 0, s.now);
    } else {
      var updated := UpdateAircraft(s.mon, cs, s.inbox[0].lookup.model);
      UpdateTouches(s.mon, cs, s.inbox[0].lookup.model);
      assert cs in updated.inRange.Keys;
      OldRecordRepeats(updated, cs, ReceivedIcaoCodes, s.now, 0, s.now);
    }
  }

  lemma SignalsNeedConnection(s: System, e: Event, cs: Callsign)
    requires Enabled(s, e) && ReadyForMatching(cs) in Signals(s, e) && IsPacketOrRecheck(s, e, cs)
    ensures s.connected
  {
  }

  lemma OnlyPacketsRepeat(s: System, e: Event, cs: Callsign)
    requires Enabled(s, e) && Announced(s.mon, cs) && !ReAdds(e, cs)
    requires ReadyForMatching(cs) in Signals(s, e)
    ensures IsPacketOrRecheck(s, e, cs)
  {
    if e.MonitorTakes? {
      OnlyPacketMessagesRepeat(s.mon, s.inbox[0], e.order, s.now, s.connected, cs);
    } else if e.TimerFires? {
      var taken := s.mon.(timers := s.mon.timers - multiset{e.timer});
      TimerIsFair(taken, e.timer, e.lookup, s.now, s.connected);
      assert Signalled(OnTimer(taken, e.timer, e.lookup, s.now, s.connected), cs);
    }
  }

  lemma OnlyPacketMessagesRepeat(m: Monitor, msg: MonitorMsg, order: seq<Callsign>, now: int, connected: bool,
                                 cs: Callsign)
    requires Signalled(Handle(m, msg, order, now, connected), cs)
    ensures (msg.IcaoCodes? || msg.FsInnPacket?) && msg.cs == cs
  {
    if ConcernsOne(msg) { HandlingIsFair(m, msg, order, now, connected); }
  }

  // ----- a real-time bound -----

  /** No pending timer is more than `lag` overdue. */
  ghost predicate Punctual(s: System, lag: nat) {
    forall t :: t in s.mon.timers ==> s.now <= t.due + lag
  }

  ghost predicate VerifyBy(m: Monitor, cs: Callsign, limit: int) {
    exists t :: t in m.timers && t.cs == cs && t.job.Verify? && t.due <= limit
  }

  /** Not announced yet, with the first or the second verification in sight. */
  ghost predicate OnTrack(m: Monitor, cs: Callsign, added: int, lag: nat) {
    && !Announced(m, cs)
    && (VerifyBy(m, cs, added + VERIFY_MS)
        || (Record(m, cs).verified && VerifyBy(m, cs, added + 2 * VERIFY_MS + lag)))
  }

  lemma VerifyTimersSurvive(s: System, e: Event, cs: Callsign, limit: int)
    requires Enabled(s, e) && VerifyBy(s.mon, cs, limit) && !Verifies(e, cs)
    ensures VerifyBy(Step(s, e).mon, cs, limit)
  {
    var t :| t in s.mon.timers && t.cs == cs && t.job.Verify? && t.due <= limit;
    StepMonitor(s, e);
    if e.MonitorTakes? {
      if ConcernsOne(s.inbox[0]) { HandlingTouches(s.mon, s.inbox[0], e.order, s.now, s.connected); }
    } else if e.TimerFires? {
      var taken := s.mon.(timers := s.mon.timers - multiset{e.timer});
      TimerTouches(taken, e.timer, e.lookup, s.now, s.connected);
      assert t in taken.timers;
    }
    assert t in Step(s, e).mon.timers;
  }

  lemma VerifyKeepsTrack(m: Monitor, t: Timer, lookup: Lookup, now: int, cs: Callsign, added: int, lag: nat)
    requires t.cs == cs && t.job.Verify? && t in m.timers && t.due <= now <= t.due + lag
    requires Announceable(m, cs) && OnTrack(m, cs, added, lag)
    ensures var o := OnTimer(m.(timers := m.timers - multiset{t}), t, lookup, now, true);
            Signalled(o, cs) || OnTrack(o.mon, cs, added, lag)
  {
    var taken := m.(timers := m.timers - multiset{t});
    var o := OnTimer(taken, t, lookup, now, true);
    SecondVerifySignals(taken, cs, now);
    VerifyIsFair(taken, cs, now, true);
    VerifyTouches(taken, cs, now, true);
    if !Signalled(o, cs) {
      assert Timer(now + VERIFY_MS, cs, Verify) in o.mon.timers;
      if t.due > added + VERIFY_MS {
        var u :| u in m.timers && u.cs == cs && u.job.Verify? && u.due <= added + VERIFY_MS;
        assert u in taken.timers && u in o.mon.timers;
      } else {
        assert VerifyBy(o.mon, cs, added + 2 * VERIFY_MS + lag);
      }
    }
  }

  lemma StepKeepsTrack(s: System, e: Event, cs: Callsign, added: int, lag: nat)
    requires Enabled(s, e) && s.connected && Announceable(s.mon, cs) && cs in Step(s, e).mon.inRange
    requires !ReAdds(e, cs) && Punctual(s, lag) && OnTrack(s.mon, cs, added, lag)
    ensures Signalled(MonitorStep(s, e), cs) || OnTrack(Step(s, e).mon, cs, added, lag)
  {
    StepMonitor(s, e);
    if Verifies(e, cs) {
      VerifyKeepsTrack(s.mon, e.timer, e.lookup, s.now, cs, added, lag);
    } else {
      StepIsFair(s, e, cs);
      var first := VerifyBy(s.mon, cs, added + VERIFY_MS);
      VerifyTimersSurvive(s, e, cs, if first then added + VERIFY_MS else added + 2 * VERIFY_MS + lag);
    }
  }

  lemma {:induction false} RunKeepsTrack(states: seq<System>, events: seq<Event>, i: nat, j: nat, cs: Callsign,
                                         added: int, lag: nat)
    requires StaysInRange(states, events, i, j, cs) && IsValidAircraftCallsign(cs)
    requires forall k :: i <= k <= j ==> Punctual(states[k], lag)
    requires OnTrack(states[i].mon, cs, added, lag) && !SignalledBetween(states, events, i, j, cs)
    ensures OnTrack(states[j].mon, cs, added, lag)
    decreases j - i
  {
    if i < j {
      RunKeepsTrack(states, events, i, j - 1, cs, added, lag);
      assert Enabled(states[j - 1], events[j - 1]);
      StepKeepsTrack(states[j - 1], events[j - 1], cs, added, lag);
    }
  }

  /** Real-time bound: if timers fire at most `lag` ms late, an aircraft that enters the range without a record
      marked sent, and stays there, is announced within 48 s + 2 * lag, whatever packets are lost. */
  lemma AnnouncedWithinFortyEightSeconds(states: seq<System>, events: seq<Event>, i: nat, j: nat, cs: Callsign,
                                         lag: nat)
    requires i < j && StaysInRange(states, events, i + 1, j, cs) && IsValidAircraftCallsign(cs)
    requires events[i].MonitorTakes? && states[i].connected
    requires cs !in states[i].mon.inRange && !Announced(states[i].mon, cs)
    requires forall k :: i < k <= j ==> Punctual(states[k], lag)
    requires states[j].now > states[i].now + 48000 + 2 * lag
    ensures SignalledBetween(states, events, i + 1, j, cs)
  {
    var s, e := states[i], events[i];
    assert Enabled(s, e) && states[i + 1] == Step(s, e);
    EntryStartsVerification(s, e, cs);
    if !SignalledBetween(states, events, i + 1, j, cs) {
      RunKeepsTrack(states, events, i + 1, j, cs, s.now, lag);
      TrackIsBounded(states[j], cs, s.now, lag);
    }
  }

  lemma TrackIsBounded(s: System, cs: Callsign, added: int, lag: nat)
    requires OnTrack(s.mon, cs, added, lag) && Punctual(s, lag)
    ensures s.now <= added + 48000 + 2 * lag
  {
    var limit := if VerifyBy(s.mon, cs, added + VERIFY_MS) then added + VERIFY_MS else added + 2 * VERIFY_MS + lag;
    var t :| t in s.mon.timers && t.cs == cs && t.job.Verify? && t.due <= limit;
  }

  lemma OnlyPositionsAdd(m: Monitor, msg: MonitorMsg, order: seq<Callsign>, now: int, connected: bool, cs: Callsign)
    requires cs !in m.inRange && cs in Handle(m, msg, order, now, connected).mon.inRange
    ensures msg.Position? && msg.cs == cs
  {
    if ConcernsOne(msg) { HandlingTouches(m, msg, order, now, connected); }
    var m' := Handle(m, msg, order, now, connected).mon;
    assert cs in m'.inRange.Keys && cs !in m.inRange.Keys;
    if msg.IcaoCodes? {
      IcaoCodesTouch(m, msg.cs, msg.lookup, now, connected);
    } else if msg.FsInnPacket? {
      FsInnPacketTouches(m, msg.cs, msg.packet, msg.lookup, now, connected, 0, now);
    }
  }

  /** Apart from re-initialisation, aircraft enter the range by a position, with a verification due in 24 s. */
  lemma EntryStartsVerification(s: System, e: Event, cs: Callsign)
    requires Enabled(s, e) && e.MonitorTakes?
    requires cs !in s.mon.inRange && cs in Step(s, e).mon.inRange && !Announced(s.mon, cs)
    ensures s.inbox[0].Position? && s.inbox[0].cs == cs
    ensures VerifyBy(Step(s, e).mon, cs, s.now + 24000) && !Announced(Step(s, e).mon, cs)
  {
    StepMonitor(s, e);
    EntryByPosition(s.mon, s.inbox[0], e.order, s.now, s.connected, cs);
  }

  lemma EntryByPosition(m: Monitor, msg: MonitorMsg, order: seq<Callsign>, now: int, connected: bool, cs: Callsign)
    requires cs !in m.inRange && cs in Handle(m, msg, order, now, connected).mon.inRange && !Announced(m, cs)
    ensures msg.Position? && msg.cs == cs
    ensures VerifyBy(Handle(m, msg, order, now, connected).mon, cs, now + 24000)
    ensures !Announced(Handle(m, msg, order, now, connected).mon, cs)
  {
    OnlyPositionsAdd(m, msg, order, now, connected, cs);
    PositionTouches(m, cs, msg.distance, msg.moving, msg.copilot, now, connected);
    assert Timer(now + VERIFY_MS, cs, Verify) in Handle(m, msg, order, now, connected).mon.timers;
  }
}
