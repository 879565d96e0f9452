/** When the analyzer checks at all, and which losses it hears of. */
module AnalyzerLaws {
  import opened Common
  import opened MonitorSpec
  import opened EvaluationFrames
  import opened Airspace
  import W = Watchdog

  // ----- the checks -----

  predicate SwitchesChecks(msg: WatchMsg) {
    msg.GoOnline? || msg.GoOffline?
  }

  /** Whether the timer of the analyzer will run once the messages are handled. */
  function ChecksAfter(q: seq<WatchMsg>, checking: bool): bool {
    if q == [] then checking
    else if SwitchesChecks(q[|q| - 1]) then q[|q| - 1].GoOnline?
    else ChecksAfter(q[..|q| - 1], checking)
  }

  lemma {:induction false} ChecksAfterAppend(q: seq<WatchMsg>, r: seq<WatchMsg>, checking: bool)
    ensures ChecksAfter(q + r, checking) == ChecksAfter(r, ChecksAfter(q, checking))
    decreases |r|
  {
    if r == [] {
      assert q + r == q;
    } else {
      assert (q + r)[..|q + r| - 1] == q + r[..|r| - 1];
      ChecksAfterAppend(q, r[..|r| - 1], checking);
    }
  }

  /** The timer is left alone. */
  predicate SwitchNothing(q: seq<WatchMsg>) {
    forall i :: 0 <= i < |q| ==> !SwitchesChecks(q[i])
  }

  lemma {:induction false} OthersSwitchNothing(q: seq<WatchMsg>, checking: bool)
    requires SwitchNothing(q)
    ensures ChecksAfter(q, checking) == checking
  {
    if q != [] { OthersSwitchNothing(q[..|q| - 1], checking); }
  }

  lemma {:induction false} SignalsSwitchNothing(q: seq<WatchMsg>, signals: seq<Signal>, checking: bool)
    ensures ChecksAfter(q + ForAnalyzer(signals), checking) == ChecksAfter(q, checking)
  {
    if signals == [] {
      assert q + [] == q;
    } else {
      var front, last := signals[..|signals| - 1], signals[|signals| - 1];
      SignalsSwitchNothing(q, front, checking);
      OthersSwitchNothing(Forwarded(last), ChecksAfter(q, checking));
      ChecksAfterAppend(q + ForAnalyzer(front), Forwarded(last), checking);
      assert q + ForAnalyzer(signals) == q + ForAnalyzer(front) + Forwarded(last);
    }
  }

  lemma PacketsSwitchNothing(q: seq<WatchMsg>, msg: MonitorMsg, checking: bool)
    ensures ChecksAfter(q + Direct(msg), checking) == ChecksAfter(q, checking)
  {
    ChecksAfterAppend(q, Direct(msg), checking);
    OthersSwitchNothing(Direct(msg), ChecksAfter(q, checking));
  }

  lemma FirstSwitches(q: seq<WatchMsg>, checking: bool)
    requires q != []
    ensures ChecksAfter(q, checking)
         == ChecksAfter(q[1..], if SwitchesChecks(q[0]) then q[0].GoOnline? else checking)
  {
    assert [q[0]] + q[1..] == q && [q[0]][..0] == [];
    ChecksAfterAppend([q[0]], q[1..], checking);
    assert ChecksAfter([], checking) == checking;
  }

  /** Whether the checks will run, after all messages on their way. */
  predicate WillCheck(s: System) {
    ChecksAfter(s.watchInbox, s.checking)
  }

  lemma StepSwitches(s: System, e: Event)
    requires Enabled(s, e)
    ensures WillCheck(Step(s, e)) == if e.Connect? then true else if e.Disconnect? then false else WillCheck(s)
  {
    var q := s.watchInbox;
    match e
    case Receive(msg) => PacketsSwitchNothing(q, msg, s.checking);
    case Connect => assert (q + [GoOnline])[|q|] == GoOnline;
    case Disconnect => assert (q + [GoOffline])[|q|] == GoOffline;
    case AnalyzerTakes => FirstSwitches(q, s.checking);
    case MonitorTakes(_) => SignalsSwitchNothing(q, MonitorStep(s, e).signals, s.checking);
    case TimerFires(_, _) => SignalsSwitchNothing(q, MonitorStep(s, e).signals, s.checking);
    case ReInitialize(_) => SignalsSwitchNothing(q, MonitorStep(s, e).signals, s.checking);
    case _ =>
  }

  /** Checks follow the connection: once there was one, and its messages are handled, they run if and only if it
      stands. */
  lemma {:induction false} ChecksFollowTheConnection(states: seq<System>, events: seq<Event>, k: nat)
    requires IsExecution(states, events) && k < |states|
    ensures if exists j :: 0 <= j < k && events[j].Connect? then WillCheck(states[k]) == states[k].connected
            else WillCheck(states[k]) && !states[k].connected
    ensures SwitchNothing(states[k].watchInbox) ==> states[k].checking == WillCheck(states[k])
  {
    if k > 0 {
      ChecksFollowTheConnection(states, events, k - 1);
      var s, e := states[k - 1], events[k - 1];
      assert Enabled(s, e) && states[k] == Step(s, e);
      StepSwitches(s, e);
    }
    if SwitchNothing(states[k].watchInbox) { OthersSwitchNothing(states[k].watchInbox, states[k].checking); }
  }

  /** The watchdog is enabled as it was told last; at first it is. */
  lemma {:induction false} EnabledAsToldLast(states: seq<System>, events: seq<Event>, j: nat, k: nat)
    requires IsExecution(states, events) && j <= k < |states|
    requires forall i {:trigger events[i]} :: j <= i < k ==> !events[i].EnableWatchdog?
    ensures states[k].watch.enabled ==
              if j == 0 then true
              else if events[j - 1].EnableWatchdog? then events[j - 1].enabled else states[j].watch.enabled
  {
    if k > 0 {
      var s, e := states[k - 1], events[k - 1];
      assert Enabled(s, e) && states[k] == Step(s, e);
      if j < k { EnabledAsToldLast(states, events, j, k - 1); }
    }
  }

  /** A disabled watchdog gives every aircraft it knows one second, counted from its latest check. */
  lemma DisabledAircraftGetASecond(w: W.Watch, now: int, later: int, cs: Callsign)
    requires !w.enabled && W.Executes(w, now) && cs in w.aircraft && cs !in w.atc
    requires now >= 0 && now <= later <= now + 11250
    ensures cs in W.ExpiredAircraft(W.Checked(w, now).(enabled := true), later) <==> later - now >= 1000
  {
  }

  // ----- losses -----

  /** The step removes the aircraft for a reason the analyzer hears of. */
  predicate IsLost(s: System, e: Event, cs: Callsign) {
    && cs in s.mon.inRange
    && (e.ReInitialize?
        || (e.MonitorTakes? && s.inbox != []
            && (s.inbox[0].Disconnected?
                || ((s.inbox[0].PilotDisconnected? || s.inbox[0].AircraftTimeout?) && s.inbox[0].cs == cs))))
  }

  predicate GoesOffline(s: System, e: Event, cs: Callsign) {
    && e.MonitorTakes? && s.inbox != [] && s.connected && cs in s.mon.atcOnline
    && (s.inbox[0].AtcDisconnected? || s.inbox[0].AtcTimeout?) && s.inbox[0].cs == cs
  }

  lemma MessagesLose(m: Monitor, msg: MonitorMsg, order: seq<Callsign>, now: int, connected: bool, cs: Callsign)
    requires msg.Disconnected? ==> Enumerates(order, m.inRange.Keys)
    ensures RemovedAircraft(cs) in Handle(m, msg, order, now, connected).signals <==>
      && cs in m.inRange
      && (msg.Disconnected? || ((msg.PilotDisconnected? || msg.AircraftTimeout?) && msg.cs == cs))
    ensures AtcOffline(cs) in Handle(m, msg, order, now, connected).signals <==>
      connected && cs in m.atcOnline && (msg.AtcDisconnected? || msg.AtcTimeout?) && msg.cs == cs
  {
    match msg
    case Position(who, distance, moving, copilot) =>
      PositionsLoseNobody(m, who, distance, moving, copilot, now, connected);
    case IcaoCodes(who, lookup) => IcaoCodesEvaluate(m, who, lookup, now, connected);
    case FsInnPacket(who, packet, lookup) => FsInnPacketEvaluates(m, who, packet, lookup, now, connected, 0, now);
    case Disconnected => RemovalsOf(order, cs);
    case _ =>
  }

  lemma PositionsLoseNobody(m: Monitor, who: Callsign, distance: Option<int>, moving: bool, copilot: bool, now: int,
                            connected: bool)
    ensures forall signal :: signal in OnPosition(m, who, distance, moving, copilot, now, connected).signals ==>
              signal.AddedSituation? || signal.PilotQueries?
  {
  }

  lemma RemovalsOf(order: seq<Callsign>, cs: Callsign)
    ensures RemovedAircraft(cs) in Removals(order) <==> cs in order
    ensures AtcOffline(cs) !in Removals(order)
  {
    if i :| 0 <= i < |order| && order[i] == cs { assert Removals(order)[i] == RemovedAircraft(cs); }
  }

  /** In every step: the loss of an aircraft is signalled if and only if it was in range and is lost by a time-out, a
      lost connection or a re-initialisation (not by the range limit), and that of a station if and only if it was
      online. */
  lemma LossesAreSignalledIff(s: System, e: Event, cs: Callsign)
    requires Enabled(s, e)
    ensures RemovedAircraft(cs) in Signals(s, e) <==> IsLost(s, e, cs)
    ensures AtcOffline(cs) in Signals(s, e) <==> GoesOffline(s, e, cs)
  {
    if e.MonitorTakes? {
      MessagesLose(s.mon, s.inbox[0], e.order, s.now, s.connected, cs);
    } else if e.TimerFires? {
      var taken := s.mon.(timers := s.mon.timers - multiset{e.timer});
      if e.timer.job.ReAdd? {
        ReAddEvaluates(taken, e.timer.cs, e.timer.job.aircraft, s.now, s.connected);
      } else {
        TimerEvaluates(taken, e.timer, e.lookup, s.now, s.connected);
      }
    } else if e.ReInitialize? {
      RemovalsOf(e.order, cs);
    }
  }

  /** A lost connection makes the monitor forget all but timers and limits. */
  lemma LostConnectionForgetsAll(s: System, e: Event)
    requires Enabled(s, e) && e.MonitorTakes? && s.inbox[0].Disconnected?
    ensures var m' := Step(s, e).mon;
            && m'.inRange == map[] && m'.tracks == map[] && m'.readiness == map[] && m'.fsInn == map[]
            && m'.atcOnline == {} && m'.timers == s.mon.timers
            && m'.maxNM == s.mon.maxNM && m'.hysteresisNM == s.mon.hysteresisNM
  {
  }
}
