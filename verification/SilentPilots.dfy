/** From the last sign of a pilot or station to its removal, across both threads: a check reports it in time, the
    monitor
    drops it when it handles the report, and the analyzer may hear of a removal at any time in between. */
module SilentPilots {
  import opened Common
  import opened MonitorSpec
  import opened Airspace
  import opened StampQueue
  import opened EvaluationFrames
  import opened StationFrames
  import G = GhostStations
  import N = NoGhosts
  import W = Watchdog

  function Stamps(s: System, who: Subject): map<Callsign, int> {
    if who.Pilot? then s.watch.aircraft else s.watch.atc
  }

  predicate IsStamped(s: System, who: Subject) {
    who.cs in Stamps(s, who)
  }

  function TimeoutMs(who: Subject): int {
    if who.Pilot? then 15000 else 50000
  }

  function TimeoutOf(who: Subject): MonitorMsg {
    if who.Pilot? then AircraftTimeout(who.cs) else AtcTimeout(who.cs)
  }

  /** What the monitor signals when it takes `who` off. */
  function RemovalOf(who: Subject): Signal {
    if who.Pilot? then RemovedAircraft(who.cs) else AtcOffline(who.cs)
  }

  predicate IsKnown(m: Monitor, who: Subject) {
    if who.Pilot? then who.cs in m.inRange else who.cs in m.atcOnline
  }

  /** The analyzer checks, its last check was not too long ago, and no grace period is under way. Stations are reported
      by
      a disabled watchdog as well. */
  predicate ChecksRegularly(s: System, who: Subject) {
    && s.checking && (who.Pilot? ==> s.watch.enabled)
    && s.now - s.watch.lastCall <= 11250 && s.watch.holdUntil <= s.now
  }

  /** The analyzer handles this message. */
  predicate Hears(s: System, e: Event, msg: WatchMsg) {
    e.AnalyzerTakes? && s.watchInbox != [] && s.watchInbox[0] == msg
  }

  predicate Reports(s: System, e: Event, who: Subject) {
    e.AnalyzerChecks? && who.cs in if who.Pilot? then e.aircraft else e.atc
  }

  /** Stamped at `ts`, and not looked at since that is too long ago. */
  predicate NotReportedYet(s: System, who: Subject, ts: int) {
    IsStamped(s, who) && Stamps(s, who)[who.cs] == ts && s.watch.lastCall < ts + TimeoutMs(who)
  }

  lemma TimeoutsPost(aircraft: seq<Callsign>, atc: seq<Callsign>, cs: Callsign)
    requires cs in atc
    ensures AtcTimeout(cs) in Timeouts(aircraft, atc)
  {
    var i :| 0 <= i < |atc| && atc[i] == cs;
    assert Timeouts(aircraft, atc)[|aircraft| + i] == AtcTimeout(cs);
  }

  lemma CheckStep(s: System, e: Event, who: Subject, ts: int)
    requires Enabled(s, e) && e.AnalyzerChecks? && ChecksRegularly(s, who) && NotReportedYet(s, who, ts)
    ensures Reports(s, e, who) || NotReportedYet(Step(s, e), who, ts)
    ensures Reports(s, e, who) ==> !IsStamped(Step(s, e), who) && TimeoutOf(who) in Step(s, e).inbox
  {
    assert W.Executes(s.watch, s.now);
    var expired := if who.Pilot? then W.ExpiredAircraft(s.watch, s.now) else W.ExpiredAtc(s.watch, s.now);
    assert who.cs in expired <==> ts <= s.now - TimeoutMs(who);
    if Reports(s, e, who) {
      if who.Station? { TimeoutsPost(e.aircraft, e.atc, who.cs); }
      assert TimeoutOf(who) in Timeouts(e.aircraft, e.atc);
    }
  }

  /** A silent step: the stamp stays, or a check reports it, or the analyzer hears of its removal. */
  lemma SilentStep(s: System, e: Event, who: Subject, ts: int)
    requires Enabled(s, e) && ChecksRegularly(s, who) && ChecksRegularly(Step(s, e), who)
    requires !Hears(s, e, TouchOf(who)) && NotReportedYet(s, who, ts)
    ensures NotReportedYet(Step(s, e), who, ts)
         || (!IsStamped(Step(s, e), who) && (Reports(s, e, who) || Hears(s, e, DropOf(who))))
    ensures Reports(s, e, who) ==> TimeoutOf(who) in Step(s, e).inbox
  {
    if e.AnalyzerChecks? { CheckStep(s, e, who, ts); }
  }

  /** Without a touch, what is not stamped stays so. */
  lemma UnstampedStep(s: System, e: Event, who: Subject)
    requires Enabled(s, e) && ChecksRegularly(s, who) && !Hears(s, e, TouchOf(who)) && !IsStamped(s, who)
    ensures !IsStamped(Step(s, e), who)
  {
  }

  /** The analyzer handles a touch at event i and no other one before state k, and checks regularly until then. */
  ghost predicate Silent(states: seq<System>, events: seq<Event>, i: nat, k: nat, who: Subject)
    requires i < k <= |events| < |states|
  {
    && Hears(states[i], events[i], TouchOf(who))
    && (forall n {:trigger events[n]} :: i < n < k ==> !Hears(states[n], events[n], TouchOf(who)))
    && (forall n :: i < n <= k ==> ChecksRegularly(states[n], who))
  }

  lemma {:induction false} ChecksAreInThePast(states: seq<System>, events: seq<Event>, k: nat)
    requires IsExecution(states, events) && k < |states|
    ensures states[k].watch.lastCall <= states[k].now
  {
    if k > 0 {
      ChecksAreInThePast(states, events, k - 1);
      assert Enabled(states[k - 1], events[k - 1]);
    }
  }

  lemma TouchStep(s: System, who: Subject)
    requires Hears(s, AnalyzerTakes, TouchOf(who)) && s.watch.lastCall <= s.now
    ensures NotReportedYet(Step(s, AnalyzerTakes), who, s.now)
  {
  }

  /** Event n reports `who`, in time. */
  ghost predicate ReportedInTime(states: seq<System>, events: seq<Event>, n: nat, who: Subject, ts: int)
    requires n < |events| < |states|
  {
    && Reports(states[n], events[n], who) && TimeoutOf(who) in states[n + 1].inbox
    && states[n].now < ts + TimeoutMs(who) + 11250
  }

  /** The stamp has ended at event n, by a report or by a removal. */
  ghost predicate EndsAt(states: seq<System>, events: seq<Event>, n: nat, who: Subject, ts: int)
    requires n < |events| < |states|
  {
    && NotReportedYet(states[n], who, ts)
    && (ReportedInTime(states, events, n, who, ts) || Hears(states[n], events[n], DropOf(who)))
  }

  /** The stamp of the touch lasts, or it has ended once and there is none. */
  lemma {:induction false} LastsOrEnds(states: seq<System>, events: seq<Event>, i: nat, k: nat, who: Subject)
    returns (ended: bool, n: nat)
    requires IsExecution(states, events) && i < k <= |events| && Silent(states, events, i, k, who)
    ensures !ended ==> NotReportedYet(states[k], who, states[i].now)
    ensures ended ==> i < n < k && EndsAt(states, events, n, who, states[i].now) && !IsStamped(states[k], who)
  {
    if k == i + 1 {
      assert Enabled(states[i], events[i]);
      ChecksAreInThePast(states, events, i);
      TouchStep(states[i], who);
      ended, n := false, 0;
    } else {
      ended, n := LastsOrEnds(states, events, i, k - 1, who);
      var s, e := states[k - 1], events[k - 1];
      assert Enabled(s, e) && ChecksRegularly(s, who) && ChecksRegularly(states[k], who);
      if ended {
        UnstampedStep(s, e, who);
      } else {
        SilentStep(s, e, who, states[i].now);
        ended, n := !NotReportedYet(states[k], who, states[i].now), k - 1;
      }
    }
  }

  // ----- what becomes of a report -----

  /** Event l is the monitor's handling of the report, and `who` is gone then; a station that is handled after the
      connection was lost is cleared with everything else. */
  ghost predicate TakenOff(states: seq<System>, events: seq<Event>, l: nat, who: Subject)
    requires l < |events| < |states|
  {
    && events[l].MonitorTakes? && states[l].inbox != [] && states[l].inbox[0] == TimeoutOf(who)
    && (IsKnown(states[l + 1].mon, who) ==> who.Station? && !states[l].connected)
  }

  lemma ReportStep(s: System, e: Event, who: Subject)
    requires Enabled(s, e) && TimeoutOf(who) in s.inbox
    ensures || TimeoutOf(who) in Step(s, e).inbox
            || (&& e.MonitorTakes? && s.inbox[0] == TimeoutOf(who)
                && (IsKnown(Step(s, e).mon, who) ==> who.Station? && !s.connected))
  {
    if e.MonitorTakes? { assert s.inbox == [s.inbox[0]] + s.inbox[1..]; }
  }

  lemma {:induction false} ReportIsHandled(states: seq<System>, events: seq<Event>, j: nat, k: nat, who: Subject)
    requires IsExecution(states, events) && j < k <= |events| && TimeoutOf(who) in states[j + 1].inbox
    ensures TimeoutOf(who) in states[k].inbox || exists l :: j < l < k && TakenOff(states, events, l, who)
  {
    if k > j + 1 {
      ReportIsHandled(states, events, j, k - 1, who);
      if TimeoutOf(who) in states[k - 1].inbox {
        assert Enabled(states[k - 1], events[k - 1]);
        ReportStep(states[k - 1], events[k - 1], who);
        if TimeoutOf(who) !in states[k].inbox { assert TakenOff(states, events, k - 1, who); }
      }
    }
  }

  // ----- where a removal comes from -----

  lemma {:induction false} DropIsForwarded(signals: seq<Signal>, who: Subject)
    requires DropOf(who) in ForAnalyzer(signals)
    ensures RemovalOf(who) in signals
  {
    if signals != [] {
      var front, last := signals[..|signals| - 1], signals[|signals| - 1];
      if DropOf(who) in ForAnalyzer(front) { DropIsForwarded(front, who); }
    }
  }

  lemma DropIsPosted(s: System, e: Event, who: Subject)
    requires Enabled(s, e) && DropOf(who) in Step(s, e).watchInbox && DropOf(who) !in s.watchInbox
    ensures RemovalOf(who) in Signals(s, e)
  {
    if DropOf(who) in ForAnalyzer(Signals(s, e)) { DropIsForwarded(Signals(s, e), who); }
  }

  /** The monitor signals a removal when it takes off what it knew: handling a time-out or log-off, re-initialising or
      cleaning up. */
  lemma RemovalLeaves(s: System, e: Event, who: Subject)
    requires Enabled(s, e) && RemovalOf(who) in Signals(s, e)
    ensures IsKnown(s.mon, who) && !IsKnown(Step(s, e).mon, who)
    ensures e.ReInitialize? || (e.MonitorTakes? && (s.inbox[0].Disconnected? || LogsOff(s.inbox[0], who)))
  {
    if e.MonitorTakes? {
      MessageRemoves(s.mon, s.inbox[0], e.order, s.now, s.connected, who);
    } else if e.TimerFires? {
      TimerRemovesNobody(s.mon.(timers := s.mon.timers - multiset{e.timer}), e.timer, e.lookup, s.now, s.connected,
          who);
    }
  }

  predicate LogsOff(msg: MonitorMsg, who: Subject) {
    msg == TimeoutOf(who) || msg == if who.Pilot? then PilotDisconnected(who.cs) else AtcDisconnected(who.cs)
  }

  lemma TimerRemovesNobody(m: Monitor, t: Timer, lookup: Lookup, now: int, connected: bool, who: Subject)
    ensures RemovalOf(who) !in OnTimer(m, t, lookup, now, connected).signals
  {
    if t.job.ReAdd? {
      ReAddEvaluates(m, t.cs, t.job.aircraft, now, connected);
    } else {
      TimerEvaluates(m, t, lookup, now, connected);
    }
  }

  lemma MessageRemoves(m: Monitor, msg: MonitorMsg, order: seq<Callsign>, now: int, connected: bool, who: Subject)
    requires msg.Disconnected? ==> Enumerates(order, m.inRange.Keys)
    requires RemovalOf(who) in Handle(m, msg, order, now, connected).signals
    ensures IsKnown(m, who) && !IsKnown(Handle(m, msg, order, now, connected).mon, who)
    ensures msg.Disconnected? || LogsOff(msg, who)
  {
    match msg
    case IcaoCodes(cs, lookup) => IcaoCodesEvaluate(m, cs, lookup, now, connected);
    case FsInnPacket(cs, packet, lookup) => FsInnPacketEvaluates(m, cs, packet, lookup, now, connected, 0, now);
    case _ =>
  }

  /** Event p made `who` leave, and posted its removal to the analyzer. */
  ghost predicate LeftAt(states: seq<System>, events: seq<Event>, p: nat, who: Subject)
    requires p < |events| < |states|
  {
    && Enabled(states[p], events[p]) && RemovalOf(who) in Signals(states[p], events[p])
    && IsKnown(states[p].mon, who) && !IsKnown(states[p + 1].mon, who)
  }

  lemma {:induction false} QueuedDropWasPosted(states: seq<System>, events: seq<Event>, k: nat, who: Subject)
    returns (p: nat)
    requires IsExecution(states, events) && k < |states| && DropOf(who) in states[k].watchInbox
    ensures p < k && LeftAt(states, events, p, who)
  {
    assert k > 0;
    assert Enabled(states[k - 1], events[k - 1]);
    if DropOf(who) in states[k - 1].watchInbox {
      p := QueuedDropWasPosted(states, events, k - 1, who);
    } else {
      p := k - 1;
      DropIsPosted(states[p], events[p], who);
      RemovalLeaves(states[p], events[p], who);
    }
  }

  // ----- main results -----

  /** No stamp is left after the time-out and one more interval. */
  lemma SilenceEndsTheStamp(states: seq<System>, events: seq<Event>, i: nat, k: nat, who: Subject) returns (n: nat)
    requires IsExecution(states, events) && i < k <= |events| && Silent(states, events, i, k, who)
    requires states[k].now >= states[i].now + TimeoutMs(who) + 11250
    ensures !IsStamped(states[k], who) && i < n < k && EndsAt(states, events, n, who, states[i].now)
  {
    var ended;
    ended, n := LastsOrEnds(states, events, i, k, who);
    assert ended by { assert ChecksRegularly(states[k], who); }
  }

  /** Main result: in every execution with regular checks, a pilot the analyzer has not heard of for 26 250 ms (a
      station
      for 61 250 ms) has met one of two ends first. Either a check reported it in that time, and the report still waits
      for the monitor, or the monitor has handled it and the pilot was gone then. Or the analyzer heard of its removal
      without a report, and an earlier event had made it leave. */
  lemma SilentPilotIsRemoved(states: seq<System>, events: seq<Event>, i: nat, k: nat, who: Subject)
    returns (n: nat, p: nat)
    requires IsExecution(states, events) && i < k <= |events| && Silent(states, events, i, k, who)
    requires states[k].now >= states[i].now + TimeoutMs(who) + 11250
    ensures i < n < k
    ensures if Reports(states[n], events[n], who) then
              && ReportedInTime(states, events, n, who, states[i].now)
              && (TimeoutOf(who) in states[k].inbox || exists l :: n < l < k && TakenOff(states, events, l, who))
            else
              Hears(states[n], events[n], DropOf(who)) && p < n && LeftAt(states, events, p, who)
  {
    n := SilenceEndsTheStamp(states, events, i, k, who);
    if Reports(states[n], events[n], who) {
      p := 0;
      ReportIsHandled(states, events, n, k, who);
    } else {
      p := QueuedDropWasPosted(states, events, n, who);
    }
  }

  /** Hence, as no aircraft with a situation is a ghost: after that silence an aircraft has no situation any more,
      unless
      its report waits for the monitor or a new touch waits for the analyzer. Without re-initialisations it is out of
      range then. */
  lemma SilentPilotIsGone(states: seq<System>, events: seq<Event>, i: nat, k: nat, cs: Callsign)
    requires IsExecution(states, events) && i < k <= |events| && Silent(states, events, i, k, Pilot(cs))
    requires states[k].now >= states[i].now + 26250 && !ClearPending(states[k])
    requires HasSituations(states[k].mon, cs)
          || (cs in states[k].mon.inRange && forall j :: 0 <= j < k ==> !events[j].ReInitialize?)
    ensures AircraftTimeout(cs) in states[k].inbox || TouchAircraft(cs) in states[k].watchInbox
  {
    var n := SilenceEndsTheStamp(states, events, i, k, Pilot(cs));
    if !HasSituations(states[k].mon, cs) { N.WithoutReInitializationAllAreSituated(states, events, k); }
    N.NoGhostAircraft(states, events, k, cs);
    StampedAfterMeansLastTouchWins(states[k].watchInbox, Pilot(cs), N.KnownToAnalyzer(states[k], cs));
  }

  /** And, as no station is a ghost without a race: a silent station is offline, unless its removal or a new touch
      waits. */
  lemma SilentStationIsGone(states: seq<System>, events: seq<Event>, i: nat, k: nat, cs: Callsign)
    requires IsExecution(states, events) && i < k <= |events| && Silent(states, events, i, k, Station(cs))
    requires states[k].now >= states[i].now + 61250 && !ClearPending(states[k])
    requires cs in states[k].mon.atcOnline && G.NoRaces(states, events, k, cs)
    ensures || AtcTimeout(cs) in states[k].inbox || AtcDisconnected(cs) in states[k].inbox
            || TouchAtc(cs) in states[k].watchInbox
  {
    var n := SilenceEndsTheStamp(states, events, i, k, Station(cs));
    G.OnlineStationsAreCovered(states, events, k, cs);
    StampedAfterMeansLastTouchWins(states[k].watchInbox, Station(cs), false);
  }
}
