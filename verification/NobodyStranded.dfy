/** No aircraft is stranded: an aircraft in range that was not announced yet always has a timer that
    will look after it. */
module NobodyStranded {
  import opened Common
  import opened MonitorSpec
  import opened MonitorFrames
  import opened Airspace
  import opened Readiness

  ghost predicate HasTimer(m: Monitor, cs: Callsign) {
    exists t :: t in m.timers && t.cs == cs && !t.job.ReAdd?
  }

  predicate Announced(m: Monitor, cs: Callsign) {
    cs in m.readiness && m.readiness[cs].sent
  }

  ghost predicate Attended(m: Monitor, cs: Callsign) {
    Announced(m, cs) || HasTimer(m, cs)
  }

  /** The aircraft that are in range and can be announced are all attended to. */
  ghost predicate AllAttended(m: Monitor) {
    forall cs :: Announceable(m, cs) ==> Attended(m, cs)
  }

  lemma OthersStayAttended(m: Monitor, m': Monitor, cs: Callsign)
    requires AllAttended(m) && OnlyTouches(m, m', cs)
    requires Announceable(m', cs) ==> Attended(m', cs)
    ensures AllAttended(m')
  {
    forall c | Announceable(m', c)
      ensures Attended(m', c)
    {
      if c != cs {
        assert Attended(m, c);
        if t :| t in m.timers && t.cs == c && !t.job.ReAdd? { assert t in m'.timers; }
      }
    }
  }

  lemma SendReadyAttends(m: Monitor, cs: Callsign, rf: Flag, now: int, hop: nat, origin: int)
    ensures Announceable(m, cs) ==> Attended(SendReady(m, cs, rf, now, true, hop, origin).mon, cs)
  {
    var m' := SendReady(m, cs, rf, now, true, hop, origin).mon;
    var next := Timer(now + CHECK_AGAIN_MS, cs, Recheck(rf, hop + 1, origin));
    if m'.timers == m.timers + multiset{next} { assert next in m'.timers; }
  }

  lemma FsInnPacketAttends(m: Monitor, cs: Callsign, p: Packet, lookup: Lookup, now: int, hop: nat, origin: int)
    requires Announceable(m, cs)
    ensures Attended(OnFsInnPacket(m, cs, p, lookup, now, true, hop, origin).mon, cs)
  {
    FsInnPacketTouches(m, cs, p, lookup, now, true, hop, origin);
    WithFsInnTouches(m, cs, p, lookup, now);
    assert cs in WithFsInn(m, cs, p, lookup, now).inRange.Keys;
    SendReadyAttends(WithFsInn(m, cs, p, lookup, now), cs, ReceivedFsInnPacket, now, hop, origin);
  }

  lemma VerifyAttends(m: Monitor, cs: Callsign, now: int)
    requires Announceable(m, cs)
    ensures Attended(OnVerify(m, cs, now, true).mon, cs)
  {
    var r := Record(m, cs);
    var flagged := SetRecord(m, cs, r.AddFlag(Verified, now));
    SendReadyAttends(SetRecord(m, cs, r), cs, Verified, now, 0, now);
    SendReadyAttends(flagged, cs, Verified, now, 0, now);
    ScheduleTouches(flagged, Timer(now + VERIFY_MS, cs, Verify));
  }

  /** While connected, a timer callback looks after its own callsign, whatever was pending before. */
  lemma TimersAttend(m: Monitor, t: Timer, lookup: Lookup, now: int)
    ensures var m' := OnTimer(m, t, lookup, now, true).mon;
            Announceable(m', t.cs) ==> Attended(m', t.cs)
  {
    var cs := t.cs;
    TimerTouches(m, t, lookup, now, true);
    var m' := OnTimer(m, t, lookup, now, true).mon;
    if Announceable(m', cs) {
      assert cs in m'.inRange.Keys;
      match t.job
      case Verify => VerifyAttends(m, cs, now);
      case Recheck(flag, hop, origin) =>
        if cs in m.fsInn { FsInnPacketAttends(m.(fsInn := m.fsInn - {cs}), cs, m.fsInn[cs], lookup, now, hop, origin); }
        SendReadyAttends(m, cs, RecursiveCall, now, hop, origin);
      case ReAdd(aircraft) =>
        var added := AddAircraft(m, cs, aircraft, now);
        SendReadyAttends(added.(readiness := added.readiness - {cs}), cs, ReceivedAll, now, 0, now);
    }
  }

  lemma HandlingAttends(m: Monitor, msg: MonitorMsg, order: seq<Callsign>, now: int)
    requires AllAttended(m) && ConcernsOne(msg)
    ensures AllAttended(Handle(m, msg, order, now, true).mon)
  {
    var m' := Handle(m, msg, order, now, true).mon;
    HandlingTouches(m, msg, order, now, true);
    if Announceable(m', msg.cs) {
      if msg.Position? {
        PositionTouches(m, msg.cs, msg.distance, msg.moving, msg.copilot, now, true);
        assert msg.cs !in m.inRange ==> Timer(now + VERIFY_MS, msg.cs, Verify) in m'.timers;
      } else if msg.IcaoCodes? {
        SendReadyAttends(UpdateAircraft(m, msg.cs, msg.lookup.model), msg.cs, ReceivedIcaoCodes, now, 0, now);
      } else if msg.FsInnPacket? {
        FsInnPacketTouches(m, msg.cs, msg.packet, msg.lookup, now, true, 0, now);
        assert msg.cs in m.inRange.Keys;
        FsInnPacketAttends(m, msg.cs, msg.packet, msg.lookup, now, 0, now);
      }
      if msg.cs in m.inRange && !msg.IcaoCodes? && !msg.FsInnPacket? {
        assert Attended(m, msg.cs);
        if t :| t in m.timers && t.cs == msg.cs && !t.job.ReAdd? { assert t in m'.timers; }
      }
    }
    OthersStayAttended(m, m', msg.cs);
  }

  /** Without a connection only time-outs and log-offs have an effect: they remove the aircraft. */
  lemma HandlingAttendsOffline(m: Monitor, msg: MonitorMsg, order: seq<Callsign>, now: int)
    requires AllAttended(m) && ConcernsOne(msg)
    ensures AllAttended(Handle(m, msg, order, now, false).mon)
    ensures Handle(m, msg, order, now, false).mon.inRange.Keys <= m.inRange.Keys
  {
    var m' := Handle(m, msg, order, now, false).mon;
    if msg.PilotDisconnected? || msg.AircraftTimeout? {
      PilotDisconnectedTouches(m, msg.cs);
      OthersStayAttended(m, m', msg.cs);
    } else {
      SameTimersAttend(m, m');
    }
  }

  lemma SameTimersAttend(m: Monitor, m': Monitor)
    requires AllAttended(m)
    requires m'.timers == m.timers && m'.inRange == m.inRange && m'.readiness == m.readiness
    ensures AllAttended(m')
  {
    forall c | Announceable(m', c)
      ensures Attended(m', c)
    {
      assert Announceable(m, c) && Attended(m, c);
    }
  }

  /** Everybody is attended to, unless a lost connection still has to be cleaned up. */
  ghost predicate NobodyLost(s: System) {
    ClearPending(s) || AllAttended(s.mon)
  }

  // ----- steps -----

  /** The callback leaves its aircraft without an announcement: it does not wait any longer, or a re-initialisation
      drops the record of an aircraft that has come back meanwhile. */
  predicate Abandons(m: Monitor, t: Timer) {
    match t.job
    case Verify => !Record(m, t.cs).sent && (Record(m, t.cs).verified || Record(m, t.cs).icao)
    case Recheck(_, _, _) => !Record(m, t.cs).sent
    case ReAdd(_) => true
  }

  /** The last timer of an aircraft fires without a connection. */
  ghost predicate Loses(s: System, e: Event) {
    && e.TimerFires? && !s.connected && !ClearPending(s)
    && Announceable(s.mon, e.timer.cs) && Abandons(s.mon, e.timer)
    && !HasTimer(s.mon.(timers := s.mon.timers - multiset{e.timer}), e.timer.cs)
  }

  /** Offline, a callback attends to its aircraft exactly if it schedules a verification, or the aircraft was announced
      before, or has another timer. */
  lemma TimerAttendsOffline(m: Monitor, t: Timer, lookup: Lookup, now: int)
    requires IsValidAircraftCallsign(t.cs) && t.cs in OnTimer(m, t, lookup, now, false).mon.inRange
    ensures Attended(OnTimer(m, t, lookup, now, false).mon, t.cs)
        <==> t.cs !in m.inRange || !Abandons(m, t) || HasTimer(m, t.cs)
  {
    var m' := OnTimer(m, t, lookup, now, false).mon;
    if m'.timers == m.timers {
      assert HasTimer(m', t.cs) <==> HasTimer(m, t.cs);
    } else {
      assert Timer(now + VERIFY_MS, t.cs, Verify) in m'.timers;
    }
  }

  lemma OtherAircraftStayAttended(m: Monitor, t: Timer, lookup: Lookup, now: int, connected: bool)
    requires AllAttended(m) && t in m.timers
    ensures var m' := OnTimer(m.(timers := m.timers - multiset{t}), t, lookup, now, connected).mon;
            forall c :: c != t.cs && Announceable(m', c) ==> Attended(m', c)
  {
    var taken := m.(timers := m.timers - multiset{t});
    var m' := OnTimer(taken, t, lookup, now, connected).mon;
    TimerTouches(taken, t, lookup, now, connected);
    forall c | c != t.cs && Announceable(m', c)
      ensures Attended(m', c)
    {
      assert Attended(m, c);
      if u :| u in m.timers && u.cs == c && !u.job.ReAdd? {
        assert u in taken.timers;
        assert u in m'.timers;
      }
    }
  }

  lemma TimerStep(s: System, e: Event)
    requires NobodyLost(s) && Enabled(s, e) && e.TimerFires?
    ensures NobodyLost(Step(s, e)) <==> !Loses(s, e)
  {
    if !ClearPending(s) {
      var t, m' := e.timer, Step(s, e).mon;
      var taken := s.mon.(timers := s.mon.timers - multiset{t});
      OtherAircraftStayAttended(s.mon, t, e.lookup, s.now, s.connected);
      TimerTouches(taken, t, e.lookup, s.now, s.connected);
      if s.connected {
        TimersAttend(taken, t, e.lookup, s.now);
      } else {
        assert Record(taken, t.cs) == Record(s.mon, t.cs);
        assert t.cs in s.mon.inRange.Keys ==> t.cs in m'.inRange.Keys;
        if Announceable(m', t.cs) { TimerAttendsOffline(taken, t, e.lookup, s.now); }
      }
    }
  }

  lemma MessageStep(s: System, e: Event)
    requires NobodyLost(s) && Enabled(s, e) && e.MonitorTakes?
    ensures NobodyLost(Step(s, e))
  {
    var s', msg := Step(s, e), s.inbox[0];
    assert s.inbox == [msg] + s.inbox[1..];
    if !ClearPending(s') && !msg.Disconnected? {
      if msg.Connecting? {
        SameTimersAttend(s.mon, s'.mon);
      } else if s.connected {
        HandlingAttends(s.mon, msg, e.order, s.now);
      } else {
        HandlingAttendsOffline(s.mon, msg, e.order, s.now);
      }
    }
  }

  /** A step loses an aircraft if and only if a last timer fires offline in one of these ways. */
  lemma StepLosesSomebodyIff(s: System, e: Event)
    requires NobodyLost(s) && Enabled(s, e)
    ensures NobodyLost(Step(s, e)) <==> !Loses(s, e)
  {
    var s' := Step(s, e);
    match e
    case MonitorTakes(_) => MessageStep(s, e);
    case TimerFires(_, _) => TimerStep(s, e);
    case Disconnect => assert s'.inbox[|s.inbox|] == Disconnected;
    case ReInitialize(_) =>
    case SetMaxRange(_) => if !ClearPending(s) { SameTimersAttend(s.mon, s'.mon); }
    case _ =>
      assert s'.mon == s.mon;
      assert ClearPending(s) ==> ClearPending(s');
  }

  // ----- executions -----

  ghost predicate NothingLoses(states: seq<System>, events: seq<Event>, k: nat)
    requires k <= |events| < |states|
  {
    forall i :: 0 <= i < k ==> !Loses(states[i], events[i])
  }

  lemma {:induction false} NobodyLostUntil(states: seq<System>, events: seq<Event>, k: nat)
    requires IsExecution(states, events) && k < |states| && NothingLoses(states, events, k)
    ensures NobodyLost(states[k])
  {
    if k > 0 {
      NobodyLostUntil(states, events, k - 1);
      assert Enabled(states[k - 1], events[k - 1]);
      StepLosesSomebodyIff(states[k - 1], events[k - 1]);
    }
  }

  /** In an execution everybody is attended to all the time if and only if no step loses an aircraft. */
  lemma EverybodyIsAttendedIffNothingLoses(states: seq<System>, events: seq<Event>)
    requires IsExecution(states, events)
    ensures (forall k :: 0 <= k < |states| ==> NobodyLost(states[k])) <==> NothingLoses(states, events, |events|)
  {
    if NothingLoses(states, events, |events|) {
      forall k | 0 <= k < |states| ensures NobodyLost(states[k]) { NobodyLostUntil(states, events, k); }
    } else {
      var k :| 0 <= k < |events| && Loses(states[k], events[k]);
      assert Enabled(states[k], events[k]);
      if NobodyLost(states[k]) {
        StepLosesSomebodyIff(states[k], events[k]);
        assert !NobodyLost(states[k + 1]);
      }
    }
  }

  /** Main result: unless an earlier step has lost an aircraft or a clean-up is pending, an aircraft in range with a
      valid callsign was announced or has a verify or recheck timer pending. */
  lemma NoAircraftIsStranded(states: seq<System>, events: seq<Event>, k: nat, cs: Callsign)
    requires IsExecution(states, events) && k < |states| && NothingLoses(states, events, k)
    requires !ClearPending(states[k]) && Announceable(states[k].mon, cs)
    ensures Announced(states[k].mon, cs)
         || exists t :: t in states[k].mon.timers && t.cs == cs && (t.job.Verify? || t.job.Recheck?)
  {
    NobodyLostUntil(states, events, k);
    assert Attended(states[k].mon, cs);
  }

  // ----- a condition on re-initialisation timers that is enough -----

  /** The timer of a re-initialisation does not add aircraft after the connection was lost and cleaned up. */
  predicate ReAddsWhileOnline(s: System, e: Event) {
    e.TimerFires? && e.timer.job.ReAdd? ==> s.connected || ClearPending(s)
  }

  predicate EmptyOffline(s: System) {
    s.connected || ClearPending(s) || s.mon.inRange == map[]
  }

  lemma StepKeepsEmptyOffline(s: System, e: Event)
    requires EmptyOffline(s) && NobodyLost(s) && Enabled(s, e) && ReAddsWhileOnline(s, e)
    ensures EmptyOffline(Step(s, e))
  {
    var s' := Step(s, e);
    if e.Disconnect? {
      assert s'.inbox[|s.inbox|] == Disconnected;
    } else if e.TimerFires? {
      var taken := s.mon.(timers := s.mon.timers - multiset{e.timer});
      TimerTouches(taken, e.timer, e.lookup, s.now, s.connected);
    } else if e.MonitorTakes? {
      assert s.inbox == [s.inbox[0]] + s.inbox[1..];
      if !ClearPending(s) && !s.connected && ConcernsOne(s.inbox[0]) {
        HandlingAttendsOffline(s.mon, s.inbox[0], e.order, s.now);
      }
    } else {
      assert ClearPending(s) ==> ClearPending(s');
    }
  }

  lemma NothingLosesOneMore(states: seq<System>, events: seq<Event>, k: nat)
    requires k < |events| < |states| && NothingLoses(states, events, k) && EmptyOffline(states[k])
    ensures NothingLoses(states, events, k + 1)
  {
    assert !Loses(states[k], events[k]);
  }

  /** If no re-initialisation timer fires between the clean-up of a lost connection and the next connection, no step
      loses an aircraft: without a connection there is none. */
  lemma {:induction false} OnlineReAddsLoseNobody(states: seq<System>, events: seq<Event>, k: nat)
    requires IsExecution(states, events) && k < |states|
    requires forall i :: 0 <= i < k ==> ReAddsWhileOnline(states[i], events[i])
    ensures EmptyOffline(states[k]) && NothingLoses(states, events, k)
  {
    if k > 0 {
      OnlineReAddsLoseNobody(states, events, k - 1);
      NobodyLostUntil(states, events, k - 1);
      assert Enabled(states[k - 1], events[k - 1]);
      StepKeepsEmptyOffline(states[k - 1], events[k - 1]);
      NothingLosesOneMore(states, events, k - 1);
    }
  }
}
