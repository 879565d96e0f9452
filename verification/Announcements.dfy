/** When aircraft are announced for model matching: the readiness clock, the 2 s rechecks, the verifications. */
module Announcements {
  import opened Common
  import opened MonitorSpec
  import opened MonitorFrames
  import opened Airspace
  import opened Readiness

  // ----- clocks and rechecks -----

  /** A record with any flag has a started clock, and clocks never show the future. */
  ghost predicate RecordOk(m: Monitor, cs: Callsign, now: int) {
    cs in m.readiness ==>
      (m.readiness[cs].HasAnyFlag() ==> m.readiness[cs].Started()) && m.readiness[cs].ts <= now
  }

  /** Each recheck of a chain comes at least 2 s after the one before, and none is scheduled for a record
      older than 6 s. */
  predicate RecheckOk(m: Monitor, t: Timer, now: int) {
    t.job.Recheck? ==>
      && t.job.origin <= now
      && t.job.origin + CHECK_AGAIN_MS * t.job.hop <= t.due <= now + CHECK_AGAIN_MS
      && (t.cs in m.readiness && m.readiness[t.cs].Started() ==>
          t.due <= m.readiness[t.cs].ts + MAX_AGE_MS + CHECK_AGAIN_MS)
  }

  ghost predicate ClockOk(m: Monitor, cs: Callsign, now: int) {
    && RecordOk(m, cs, now)
    && forall t :: t in m.timers && t.cs == cs ==> RecheckOk(m, t, now)
  }

  ghost predicate ClocksOk(m: Monitor, now: int) {
    forall cs :: ClockOk(m, cs, now)
  }

  lemma OthersStayOk(m: Monitor, m': Monitor, cs: Callsign, now: int)
    requires ClocksOk(m, now) && OnlyTouches(m, m', cs) && ClockOk(m', cs, now)
    ensures ClocksOk(m', now)
  {
    forall c
      ensures ClockOk(m', c, now)
    {
      if c != cs {
        assert ClockOk(m, c, now);
        forall t | t in m'.timers && t.cs == c
          ensures RecheckOk(m', t, now)
        {
          assert t in m.timers && RecheckOk(m, t, now);
        }
      }
    }
  }

  lemma SetRecordClock(m: Monitor, cs: Callsign, r: Readiness, now: int)
    requires ClockOk(m, cs, now) && now >= 0
    requires (r.HasAnyFlag() ==> r.Started()) && r.ts <= now
    requires Record(m, cs).Started() ==> r.ts == Record(m, cs).ts
    requires r.Started() && !Record(m, cs).Started() ==> r.ts == now
    ensures ClockOk(SetRecord(m, cs, r), cs, now)
  {
    var m' := SetRecord(m, cs, r);
    forall t | t in m'.timers && t.cs == cs
      ensures RecheckOk(m', t, now)
    {
      assert t in m.timers && RecheckOk(m, t, now);
    }
  }

  lemma AddFlagClock(m: Monitor, cs: Callsign, flag: Flag, now: int)
    requires ClockOk(m, cs, now) && now >= 0
    ensures ClockOk(SetRecord(m, cs, Record(m, cs).AddFlag(flag, now)), cs, now)
  {
    SetRecordClock(m, cs, Record(m, cs).AddFlag(flag, now), now);
  }

  lemma ScheduleClock(m: Monitor, t: Timer, now: int)
    requires ClockOk(m, t.cs, now) && RecheckOk(m, t, now)
    ensures ClockOk(Schedule(m, t), t.cs, now)
  {
    var m' := Schedule(m, t);
    forall u | u in m'.timers && u.cs == t.cs
      ensures RecheckOk(m', u, now)
    {
      if u != t { assert u in m.timers && RecheckOk(m, u, now); }
    }
  }

  lemma DropRecordClock(m: Monitor, cs: Callsign, now: int)
    requires ClockOk(m, cs, now)
    ensures ClockOk(m.(readiness := m.readiness - {cs}), cs, now)
  {
    var m' := m.(readiness := m.readiness - {cs});
    forall t | t in m'.timers && t.cs == cs
      ensures RecheckOk(m', t, now)
    {
      assert t in m.timers && RecheckOk(m, t, now);
    }
  }

  lemma SendReadyClock(m: Monitor, cs: Callsign, rf: Flag, now: int, connected: bool, hop: nat, origin: int)
    requires ClockOk(m, cs, now) && now >= 0
    requires origin + CHECK_AGAIN_MS * hop <= now && origin <= now
    ensures ClockOk(SendReady(m, cs, rf, now, connected, hop, origin).mon, cs, now)
  {
    if connected {
      var r := Record(m, cs).AddFlag(rf, now);
      var flagged := SetRecord(m, cs, r);
      AddFlagClock(m, cs, rf, now);
      if r.sent && r.AgeMs(now) < MAX_AGE_THRESHOLD_MS {
      } else if rf != Verified && Announceable(m, cs) && r.AgeMs(now) <= MAX_AGE_MS && !Complete(m, cs, r) {
        ScheduleClock(flagged, Timer(now + CHECK_AGAIN_MS, cs, Recheck(rf, hop + 1, origin)), now);
      } else if Announceable(m, cs) {
        SetRecordClock(m, cs, r.SetFlag(ReadyForMatchingSent, now), now);
      } else {
        DropRecordClock(m, cs, now);
      }
    }
  }

  /** Same records and timers: same clocks. */
  lemma SameClock(m: Monitor, m': Monitor, cs: Callsign, now: int)
    requires ClockOk(m, cs, now)
    requires m'.readiness == m.readiness && m'.timers == m.timers
    ensures ClockOk(m', cs, now)
  {
    forall t | t in m'.timers && t.cs == cs
      ensures RecheckOk(m', t, now)
    {
      assert RecheckOk(m, t, now);
    }
  }

  lemma FsInnPacketClock(m: Monitor, cs: Callsign, p: Packet, lookup: Lookup, now: int, connected: bool, hop: nat,
                         origin: int)
    requires ClockOk(m, cs, now) && now >= 0
    requires origin + CHECK_AGAIN_MS * hop <= now && origin <= now
    ensures ClockOk(OnFsInnPacket(m, cs, p, lookup, now, connected, hop, origin).mon, cs, now)
  {
    if cs != "" && connected && cs in m.inRange {
      FsInnPacketTouches(m, cs, p, lookup, now, connected, hop, origin);
      WithFsInnTouches(m, cs, p, lookup, now);
      AddFlagClock(m, cs, ReceivedFsInnPacket, now);
      SameClock(SetRecord(m, cs, Record(m, cs).AddFlag(ReceivedFsInnPacket, now)), WithFsInn(m, cs, p, lookup, now),
          cs, now);
      SendReadyClock(WithFsInn(m, cs, p, lookup, now), cs, ReceivedFsInnPacket, now, connected, hop, origin);
    } else {
      SameClock(m, OnFsInnPacket(m, cs, p, lookup, now, connected, hop, origin).mon, cs, now);
    }
  }

  lemma VerifyClock(m: Monitor, cs: Callsign, now: int, connected: bool)
    requires ClockOk(m, cs, now) && now >= 0
    ensures ClockOk(OnVerify(m, cs, now, connected).mon, cs, now)
  {
    if cs != "" && cs in m.inRange {
      var r := Record(m, cs);
      SetRecordClock(m, cs, r, now);
      if !r.sent {
        if r.verified {
          SendReadyClock(SetRecord(m, cs, r), cs, Verified, now, connected, 0, now);
        } else {
          var flagged := SetRecord(m, cs, r.AddFlag(Verified, now));
          AddFlagClock(m, cs, Verified, now);
          ScheduleClock(flagged, Timer(now + VERIFY_MS, cs, Verify), now);
          SendReadyClock(flagged, cs, Verified, now, connected, 0, now);
        }
      }
    }
  }

  lemma ReAddClock(m: Monitor, cs: Callsign, aircraft: Aircraft, now: int, connected: bool)
    requires ClockOk(m, cs, now) && now >= 0
    ensures ClockOk(OnReAdd(m, cs, aircraft, now, connected).mon, cs, now)
  {
    var added := AddAircraft(m, cs, aircraft, now);
    if cs !in m.inRange {
      var present := m.(inRange := m.inRange[cs := aircraft]);
      SameClock(m, present, cs, now);
      ScheduleClock(present, Timer(now + VERIFY_MS, cs, Verify), now);
    }
    DropRecordClock(added, cs, now);
    SendReadyClock(added.(readiness := added.readiness - {cs}), cs, ReceivedAll, now, connected, 0, now);
  }

  lemma RecheckClock(m: Monitor, t: Timer, lookup: Lookup, now: int, connected: bool)
    requires t.job.Recheck? && ClockOk(m, t.cs, now) && RecheckOk(m, t, now) && t.due <= now && now >= 0
    ensures ClockOk(OnTimer(m, t, lookup, now, connected).mon, t.cs, now)
  {
    if t.cs in m.fsInn {
      var taken := m.(fsInn := m.fsInn - {t.cs});
      SameClock(m, taken, t.cs, now);
      FsInnPacketClock(taken, t.cs, m.fsInn[t.cs], lookup, now, connected, t.job.hop, t.job.origin);
    }
    SendReadyClock(m, t.cs, RecursiveCall, now, connected, t.job.hop, t.job.origin);
  }

  lemma TimerClocks(s: System, e: Event)
    requires Enabled(s, e) && e.TimerFires? && ClocksOk(s.mon, s.now) && s.now >= 0
    ensures ClocksOk(Step(s, e).mon, s.now)
  {
    var t := e.timer;
    var taken := s.mon.(timers := s.mon.timers - multiset{t});
    forall cs
      ensures ClockOk(taken, cs, s.now)
    {
      assert ClockOk(s.mon, cs, s.now);
      forall u | u in taken.timers && u.cs == cs
        ensures RecheckOk(taken, u, s.now)
      {
        assert u in s.mon.timers && RecheckOk(s.mon, u, s.now);
      }
    }
    assert ClockOk(s.mon, t.cs, s.now) && RecheckOk(s.mon, t, s.now) && RecheckOk(taken, t, s.now);
    TimerTouches(taken, t, e.lookup, s.now, s.connected);
    match t.job {
      case Verify => VerifyClock(taken, t.cs, s.now, s.connected);
      case Recheck(_, _, _) => RecheckClock(taken, t, e.lookup, s.now, s.connected);
      case ReAdd(aircraft) => ReAddClock(taken, t.cs, aircraft, s.now, s.connected);
    }
    OthersStayOk(taken, Step(s, e).mon, t.cs, s.now);
  }

  lemma MessageClock(m: Monitor, msg: MonitorMsg, order: seq<Callsign>, now: int, connected: bool)
    requires ConcernsOne(msg) && ClockOk(m, msg.cs, now) && now >= 0
    ensures ClockOk(Handle(m, msg, order, now, connected).mon, msg.cs, now)
  {
    var cs := msg.cs;
    if msg.Position? {
      PositionTouches(m, cs, msg.distance, msg.moving, msg.copilot, now, connected);
      var m' := Handle(m, msg, order, now, connected).mon;
      forall t | t in m'.timers && t.cs == cs
        ensures RecheckOk(m', t, now)
      {
        assert t in m.timers ==> RecheckOk(m, t, now);
      }
    } else if msg.IcaoCodes? {
      var updated := UpdateAircraft(m, cs, msg.lookup.model);
      SameClock(m, updated, cs, now);
      SendReadyClock(updated, cs, ReceivedIcaoCodes, now, connected, 0, now);
    } else if msg.FsInnPacket? {
      FsInnPacketClock(m, cs, msg.packet, msg.lookup, now, connected, 0, now);
    } else if msg.PilotDisconnected? || msg.AircraftTimeout? {
      DropRecordClock(m, cs, now);
      SameClock(if cs == "" then m
          else m.(readiness := m.readiness - {cs}), Handle(m, msg, order, now, connected).mon, cs, now);
    } else {
      SameClock(m, Handle(m, msg, order, now, connected).mon, cs, now);
    }
  }

  lemma MessageClocks(s: System, e: Event)
    requires Enabled(s, e) && e.MonitorTakes? && ClocksOk(s.mon, s.now) && s.now >= 0
    ensures ClocksOk(Step(s, e).mon, s.now)
  {
    var msg := s.inbox[0];
    var m' := Step(s, e).mon;
    if ConcernsOne(msg) {
      assert ClockOk(s.mon, msg.cs, s.now);
      HandlingTouches(s.mon, msg, e.order, s.now, s.connected);
      MessageClock(s.mon, msg, e.order, s.now, s.connected);
      OthersStayOk(s.mon, m', msg.cs, s.now);
    } else {
      forall cs
        ensures ClockOk(m', cs, s.now)
      {
        assert ClockOk(s.mon, cs, s.now);
        forall t | t in m'.timers && t.cs == cs
          ensures RecheckOk(m', t, s.now)
        {
          assert t in s.mon.timers && RecheckOk(s.mon, t, s.now);
        }
      }
    }
  }

  lemma {:induction false} ReAddTimersAreReAdds(inRange: map<Callsign, Aircraft>, order: seq<Callsign>, now: int)
    requires forall cs :: cs in order ==> cs in inRange
    ensures forall t :: t in ReAddTimers(inRange, order, now) ==> t.job.ReAdd? && t.cs in order
  {
    if order != [] { ReAddTimersAreReAdds(inRange, order[..|order| - 1], now); }
  }

  lemma OtherClocks(s: System, e: Event)
    requires Enabled(s, e) && ClocksOk(s.mon, s.now)
    requires !e.TimerFires? && !e.MonitorTakes?
    ensures ClocksOk(Step(s, e).mon, Step(s, e).now)
  {
    var s' := Step(s, e);
    if e.ReInitialize? { ReAddTimersAreReAdds(s.mon.inRange, e.order, s.now); }
    forall cs
      ensures ClockOk(s'.mon, cs, s'.now)
    {
      assert ClockOk(s.mon, cs, s.now);
      forall t | t in s'.mon.timers && t.cs == cs
        ensures RecheckOk(s'.mon, t, s'.now)
      {
        assert t in s.mon.timers ==> RecheckOk(s.mon, t, s.now);
      }
    }
  }

  lemma {:induction false} ExecutionsKeepClocks(states: seq<System>, events: seq<Event>, k: nat)
    requires IsExecution(states, events) && k < |states|
    ensures states[k].now >= 0 && ClocksOk(states[k].mon, states[k].now)
  {
    if k > 0 {
      var s, e := states[k - 1], events[k - 1];
      ExecutionsKeepClocks(states, events, k - 1);
      assert Enabled(s, e);
      if e.TimerFires? {
        TimerClocks(s, e);
      } else if e.MonitorTakes? {
        MessageClocks(s, e);
      } else {
        OtherClocks(s, e);
      }
    }
  }

  /** In every reachable state a record with any flag has a started clock. */
  lemma FlaggedRecordsHaveClocks(states: seq<System>, events: seq<Event>, k: nat, cs: Callsign)
    requires IsExecution(states, events) && k < |states|
    requires cs in states[k].mon.readiness && states[k].mon.readiness[cs].HasAnyFlag()
    ensures 0 <= states[k].mon.readiness[cs].ts <= states[k].now
  {
    ExecutionsKeepClocks(states, events, k);
    assert ClockOk(states[k].mon, cs, states[k].now);
  }

  /** Recheck chains are short: as long as the record that was there when the chain started is kept,
      at most four rechecks are scheduled in a row. */
  lemma AtMostFourRechecks(states: seq<System>, events: seq<Event>, k: nat, t: Timer)
    requires IsExecution(states, events) && k < |states|
    requires t in states[k].mon.timers && t.job.Recheck?
    requires t.cs in states[k].mon.readiness && 0 <= states[k].mon.readiness[t.cs].ts <= t.job.origin
    ensures t.job.hop <= 4
  {
    ExecutionsKeepClocks(states, events, k);
    assert ClockOk(states[k].mon, t.cs, states[k].now);
    assert RecheckOk(states[k].mon, t, states[k].now);
  }

  /** `u` was scheduled at `now` as the successor of the recheck `t`. */
  predicate IsNextRecheck(u: Timer, t: Timer, now: int)
    requires t.job.Recheck?
  {
    && u.due == now + CHECK_AGAIN_MS && u.cs == t.cs
    && u.job.Recheck? && u.job.hop == t.job.hop + 1 && u.job.origin == t.job.origin
  }

  /** A link of a chain: while connected, a recheck either finds the aircraft gone, or leaves it announced,
      or schedules the next recheck of the same chain. The detour through a stored FsInn packet counts as one link. */
  lemma RecheckContinuesOrEnds(m: Monitor, t: Timer, lookup: Lookup, now: int)
    requires t.job.Recheck? && IsValidAircraftCallsign(t.cs)
    ensures var m' := OnTimer(m, t, lookup, now, true).mon;
            || t.cs !in m'.inRange
            || (t.cs in m'.readiness && m'.readiness[t.cs].sent)
            || exists u :: u in m'.timers && IsNextRecheck(u, t, now)
  {
    var cs := t.cs;
    if cs in m.inRange {
      if t.job.flag != ReceivedFsInnPacket && cs in m.fsInn {
        var taken := m.(fsInn := m.fsInn - {cs});
        FsInnPacketTouches(taken, cs, m.fsInn[cs], lookup, now, true, t.job.hop, t.job.origin);
        WithFsInnTouches(taken, cs, m.fsInn[cs], lookup, now);
        SendReadyContinuesOrEnds(WithFsInn(taken, cs, m.fsInn[cs], lookup, now), cs, ReceivedFsInnPacket, now,
            t.job.hop, t.job.origin);
        assert IsNextRecheck(Timer(now + CHECK_AGAIN_MS, cs,
            Recheck(ReceivedFsInnPacket, t.job.hop + 1, t.job.origin)), t, now);
      } else {
        SendReadyContinuesOrEnds(m, cs, RecursiveCall, now, t.job.hop, t.job.origin);
        assert IsNextRecheck(Timer(now + CHECK_AGAIN_MS, cs, Recheck(RecursiveCall, t.job.hop + 1, t.job.origin)), t,
            now);
      }
    }
  }

  lemma SendReadyContinuesOrEnds(m: Monitor, cs: Callsign, rf: Flag, now: int, hop: nat, origin: int)
    requires IsValidAircraftCallsign(cs)
    ensures var m' := SendReady(m, cs, rf, now, true, hop, origin).mon;
            || cs !in m'.inRange
            || (cs in m'.readiness && m'.readiness[cs].sent)
            || Timer(now + CHECK_AGAIN_MS, cs, Recheck(rf, hop + 1, origin)) in m'.timers
  {
  }

  /** The fourth recheck of a chain whose record was kept decides: gone or announced. */
  lemma FourthRecheckDecides(states: seq<System>, events: seq<Event>, k: nat)
    requires IsExecution(states, events) && k < |events| && events[k].TimerFires? && states[k].connected
    requires events[k].timer.job.Recheck? && events[k].timer.job.hop == 4
    requires var t := events[k].timer;
             && IsValidAircraftCallsign(t.cs)
             && t.cs in states[k].mon.readiness && 0 <= states[k].mon.readiness[t.cs].ts <= t.job.origin
    ensures var t, m' := events[k].timer, states[k + 1].mon;
            t.cs !in m'.inRange || (t.cs in m'.readiness && m'.readiness[t.cs].sent)
  {
    var s, t := states[k], events[k].timer;
    ExecutionsKeepClocks(states, events, k);
    assert Enabled(s, events[k]);
    assert ClockOk(s.mon, t.cs, s.now) && RecheckOk(s.mon, t, s.now);
    StepMonitor(s, events[k]);
    OldRecordDecides(s.mon.(timers := s.mon.timers - multiset{t}), t, events[k].lookup, s.now);
  }

  /** A recheck of a record older than 6 s is the last one. */
  lemma OldRecordDecides(m: Monitor, t: Timer, lookup: Lookup, now: int)
    requires t.job.Recheck? && IsValidAircraftCallsign(t.cs)
    requires t.cs in m.readiness && m.readiness[t.cs].Started() && now - m.readiness[t.cs].ts > MAX_AGE_MS
    ensures var m' := OnTimer(m, t, lookup, now, true).mon;
            t.cs !in m'.inRange || (t.cs in m'.readiness && m'.readiness[t.cs].sent)
  {
    if t.cs in m.inRange && t.job.flag != ReceivedFsInnPacket && t.cs in m.fsInn {
      var recalled := m.(fsInn := m.fsInn - {t.cs});
      FsInnPacketTouches(recalled, t.cs, m.fsInn[t.cs], lookup, now, true, t.job.hop, t.job.origin);
      WithFsInnTouches(recalled, t.cs, m.fsInn[t.cs], lookup, now);
    }
  }

  /** Without a record to remember the start, a recursive call never starts the clock: the recheck is
      scheduled again however late it is. */
  lemma RecheckWithoutRecordNeverAges(m: Monitor, t: Timer, lookup: Lookup, now: int)
    requires t.job.Recheck? && t.job.flag == RecursiveCall && Announceable(m, t.cs) && t.cs !in m.fsInn
    requires !Record(m, t.cs).Started() && !Record(m, t.cs).HasAnyFlag() && !m.inRange[t.cs].hasModelString
    ensures var m' := OnTimer(m, t, lookup, now, true).mon;
            && !Record(m', t.cs).Started() && !Record(m', t.cs).HasAnyFlag()
            && Timer(now + CHECK_AGAIN_MS, t.cs, Recheck(RecursiveCall, t.job.hop + 1, t.job.origin)) in m'.timers
  {
  }
}
