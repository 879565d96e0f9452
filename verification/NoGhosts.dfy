/** No ghost aircraft: whatever the interleaving of the threads, an aircraft the monitor keeps in range
    is known to the watchdog, or a message that restores this is under way. */
module NoGhosts {
  import opened Common
  import opened MonitorSpec
  import opened Airspace
  import opened StampQueue
  import opened EvaluationFrames
  import W = Watchdog

  /** Stamped now, or about to be removed by a time-out that is already posted. */
  predicate KnownToAnalyzer(s: System, cs: Callsign) {
    cs in s.watch.aircraft || AircraftTimeout(cs) in s.inbox
  }

  predicate Covered(s: System, cs: Callsign) {
    StampedAfter(s.watchInbox, Pilot(cs), KnownToAnalyzer(s, cs))
  }

  /** Signals about other callsigns leave the coverage of `cs` alone. */
  lemma {:induction false} UnrelatedSignals(signals: seq<Signal>, cs: Callsign, stamped: bool)
    requires forall i :: 0 <= i < |signals| ==> signals[i] != RemovedAircraft(cs)
    ensures stamped ==> StampedAfter(ForAnalyzer(signals), Pilot(cs), stamped)
    ensures AddedSituation(cs) in signals ==> StampedAfter(ForAnalyzer(signals), Pilot(cs), stamped)
  {
    if signals != [] {
      var n := |signals| - 1;
      var before := StampedAfter(ForAnalyzer(signals[..n]), Pilot(cs), stamped);
      UnrelatedSignals(signals[..n], cs, stamped);
      StampedAfterAppend(ForAnalyzer(signals[..n]), Forwarded(signals[n]), Pilot(cs), stamped);
      OneSignal(signals[n], cs, before);
      assert AddedSituation(cs) in signals ==> AddedSituation(cs) in signals[..n] || signals[n] == AddedSituation(cs);
    }
  }

  lemma OneSignal(signal: Signal, cs: Callsign, stamped: bool)
    requires signal != RemovedAircraft(cs)
    ensures stamped || signal == AddedSituation(cs) ==> StampedAfter(Forwarded(signal), Pilot(cs), stamped)
  {
    var f := Forwarded(signal);
    if |f| == 1 { assert f[..0] == []; }
  }

  /** The invariant: situations are only kept for aircraft in range, and unless a lost connection is still
      to be handled, every aircraft with a stored situation is covered. */
  ghost predicate Safe(s: System) {
    && s.mon.tracks.Keys <= s.mon.inRange.Keys
    && (!ClearPending(s) ==> forall cs :: HasSituations(s.mon, cs) ==> Covered(s, cs))
  }

  /** What one activity of the monitor may do to the coverage. */
  ghost predicate Harmless(m: Monitor, o: Outcome) {
    && o.mon.tracks.Keys <= o.mon.inRange.Keys
    && forall cs :: HasSituations(o.mon, cs) ==>
      || (AddedSituation(cs) in o.signals && RemovedAircraft(cs) !in o.signals)
      || (HasSituations(m, cs) && RemovedAircraft(cs) !in o.signals)
  }

  /** No aircraft and no situation is lost, and none is reported lost. */
  ghost predicate Quiet(m: Monitor, o: Outcome) {
    && o.mon.tracks == m.tracks
    && m.inRange.Keys <= o.mon.inRange.Keys
    && forall cs :: RemovedAircraft(cs) !in o.signals
  }

  lemma TimersAreQuiet(m: Monitor, t: Timer, lookup: Lookup, now: int, connected: bool)
    ensures Quiet(m, OnTimer(m, t, lookup, now, connected))
  {
    if t.job.ReAdd? {
      ReAddEvaluates(m, t.cs, t.job.aircraft, now, connected);
    } else {
      TimerEvaluates(m, t, lookup, now, connected);
    }
  }

  lemma PositionIsHarmless(m: Monitor, cs: Callsign, distance: Option<int>, moving: bool, copilot: bool, now: int,
                           connected: bool)
    requires m.tracks.Keys <= m.inRange.Keys
    ensures Harmless(m, OnPosition(m, cs, distance, moving, copilot, now, connected))
  {
  }

  lemma HandlingIsHarmless(m: Monitor, msg: MonitorMsg, order: seq<Callsign>, now: int, connected: bool)
    requires m.tracks.Keys <= m.inRange.Keys
    ensures Harmless(m, Handle(m, msg, order, now, connected))
    ensures (msg.AircraftTimeout? || msg.PilotDisconnected?) ==>
      !HasSituations(Handle(m, msg, order, now, connected).mon, msg.cs)
  {
    match msg
    case Position(cs, distance, moving, copilot) =>
      PositionIsHarmless(m, cs, distance, moving, copilot, now, connected);
    case IcaoCodes(cs, lookup) => IcaoCodesEvaluate(m, cs, lookup, now, connected);
    case FsInnPacket(cs, packet, lookup) => FsInnPacketEvaluates(m, cs, packet, lookup, now, connected, 0, now);
    case _ =>
  }

  /** The monitor's part of a step keeps everything with a situation covered. */
  lemma HarmlessKeepsCoverage(s: System, o: Outcome, inbox: seq<MonitorMsg>, cs: Callsign)
    requires Harmless(s.mon, o) && HasSituations(o.mon, cs)
    requires HasSituations(s.mon, cs) ==> Covered(s, cs)
    requires AircraftTimeout(cs) in s.inbox ==> AircraftTimeout(cs) in inbox
    ensures Covered(s.(mon := o.mon, inbox := inbox, watchInbox := s.watchInbox + ForAnalyzer(o.signals)), cs)
  {
    var known := cs in s.watch.aircraft || AircraftTimeout(cs) in inbox;
    StampedAfterAppend(s.watchInbox, ForAnalyzer(o.signals), Pilot(cs), known);
    if HasSituations(s.mon, cs) { StampedAfterMonotone(s.watchInbox, Pilot(cs), KnownToAnalyzer(s, cs), known); }
    UnrelatedSignals(o.signals, cs, StampedAfter(s.watchInbox, Pilot(cs), known));
  }

  lemma MonitorStepIsSafe(s: System, e: Event)
    requires Safe(s) && Enabled(s, e)
    requires e.MonitorTakes? || e.TimerFires? || e.ReInitialize?
    ensures Safe(Step(s, e))
  {
    var o := MonitorStep(s, e);
    var s' := Step(s, e);
    if e.MonitorTakes? {
      HandlingIsHarmless(s.mon, s.inbox[0], e.order, s.now, s.connected);
      assert s.inbox == [s.inbox[0]] + s.inbox[1..];
    } else if e.TimerFires? {
      TimersAreQuiet(s.mon.(timers := s.mon.timers - multiset{e.timer}), e.timer, e.lookup, s.now, s.connected);
    }
    if !ClearPending(s') && !(e.MonitorTakes? && s.inbox[0].Disconnected?) {
      forall cs | HasSituations(s'.mon, cs)
        ensures Covered(s', cs)
      {
        HarmlessKeepsCoverage(s, o, s'.inbox, cs);
      }
    }
  }

  lemma AnalyzerStepIsSafe(s: System, e: Event)
    requires Safe(s) && Enabled(s, e)
    requires e.AnalyzerTakes? || e.AnalyzerChecks? || e.EnableWatchdog?
    ensures Safe(Step(s, e))
  {
    var s' := Step(s, e);
    if !ClearPending(s') {
      assert !ClearPending(s);
      forall cs | HasSituations(s'.mon, cs)
        ensures Covered(s', cs)
      {
        if e.AnalyzerTakes? {
          StampedAfterFirst(s.watchInbox, Pilot(cs), KnownToAnalyzer(s, cs));
          StampedAfterMonotone(s'.watchInbox, Pilot(cs),
              StampedAfterMsg(s.watchInbox[0], Pilot(cs), KnownToAnalyzer(s, cs)),
              KnownToAnalyzer(s', cs));
        } else {
          assert KnownToAnalyzer(s, cs) ==> KnownToAnalyzer(s', cs);
          StampedAfterMonotone(s.watchInbox, Pilot(cs), KnownToAnalyzer(s, cs), KnownToAnalyzer(s', cs));
        }
      }
    }
  }

  lemma NetworkStepIsSafe(s: System, e: Event)
    requires Safe(s) && Enabled(s, e)
    requires e.Receive? || e.Connect?
    ensures Safe(Step(s, e))
  {
    var s' := Step(s, e);
    if !ClearPending(s') {
      forall cs | HasSituations(s'.mon, cs)
        ensures Covered(s', cs)
      {
        var r := if e.Receive? then Direct(e.msg) else [GoOnline];
        var known := KnownToAnalyzer(s, cs);
        if |r| == 1 { assert r[..0] == []; }
        StampedAfterMonotone(s.watchInbox, Pilot(cs), known, KnownToAnalyzer(s', cs));
        StampedAfterAppend(s.watchInbox, r, Pilot(cs), KnownToAnalyzer(s', cs));
      }
    }
  }

  lemma StepIsSafe(s: System, e: Event)
    requires Safe(s) && Enabled(s, e)
    ensures Safe(Step(s, e))
  {
    match e
    case MonitorTakes(_) => MonitorStepIsSafe(s, e);
    case TimerFires(_, _) => MonitorStepIsSafe(s, e);
    case ReInitialize(_) => MonitorStepIsSafe(s, e);
    case AnalyzerTakes => AnalyzerStepIsSafe(s, e);
    case AnalyzerChecks(_, _) => AnalyzerStepIsSafe(s, e);
    case EnableWatchdog(_) => AnalyzerStepIsSafe(s, e);
    case Receive(_) => NetworkStepIsSafe(s, e);
    case Connect => NetworkStepIsSafe(s, e);
    case Disconnect =>
      assert Step(s, e).inbox[|s.inbox|] == Disconnected;
    case Advance(_) =>
      assert forall cs :: Covered(Step(s, e), cs) == Covered(s, cs);
    case SetMaxRange(_) =>
      assert forall cs :: Covered(Step(s, e), cs) == Covered(s, cs);
  }

  lemma {:induction false} ExecutionsAreSafe(states: seq<System>, events: seq<Event>, k: nat)
    requires IsExecution(states, events) && k < |states|
    ensures Safe(states[k])
  {
    if k > 0 {
      ExecutionsAreSafe(states, events, k - 1);
      assert Enabled(states[k - 1], events[k - 1]);
      StepIsSafe(states[k - 1], events[k - 1]);
    }
  }

  /** Main result: in every reachable state, an aircraft of which a situation is stored is covered. */
  lemma NoGhostAircraft(states: seq<System>, events: seq<Event>, k: nat, cs: Callsign)
    requires IsExecution(states, events) && k < |states|
    requires HasSituations(states[k].mon, cs) && !ClearPending(states[k])
    ensures cs in states[k].mon.inRange && Covered(states[k], cs)
  {
    ExecutionsAreSafe(states, events, k);
  }

  /** Once the queues have drained, all these aircraft are watched. */
  lemma DrainedQueuesMeanWatched(states: seq<System>, events: seq<Event>, k: nat, cs: Callsign)
    requires IsExecution(states, events) && k < |states|
    requires states[k].inbox == [] && states[k].watchInbox == []
    requires HasSituations(states[k].mon, cs)
    ensures cs in states[k].watch.aircraft
  {
    NoGhostAircraft(states, events, k, cs);
  }

  // ----- aircraft in range without a situation -----

  /** Every aircraft in range has a situation, and none is about to be added again without one. */
  ghost predicate Situated(m: Monitor) {
    && (forall cs :: cs in m.inRange ==> HasSituations(m, cs))
    && (forall t :: t in m.timers ==> !t.job.ReAdd?)
  }

  lemma EvaluationSituates(m: Monitor, o: Outcome, cs: Callsign)
    requires Situated(m) && Evaluates(m, o, cs)
    ensures Situated(o.mon)
  {
    forall c | c in o.mon.inRange ensures HasSituations(o.mon, c) { assert c in m.inRange.Keys; }
  }

  lemma DropSituates(m: Monitor, cs: Callsign)
    requires Situated(m)
    ensures Situated(MonitorSpec.DropAircraft(m, cs))
  {
  }

  /** After storing, the aircraft has a situation, and all others have what they had. */
  lemma StoringSituates(m: Monitor, cs: Callsign, moving: bool)
    requires Situated(m)
    ensures var m' := StoreSituation(m, cs, moving).mon;
            Situated(m') && HasSituations(m', cs) && m' == m.(tracks := m'.tracks)
  {
  }

  lemma AddingSituates(m: Monitor, cs: Callsign, aircraft: Aircraft, now: int)
    requires Situated(m) && HasSituations(m, cs)
    ensures Situated(AddAircraft(m, cs, aircraft, now))
  {
  }

  lemma PositionSituates(m: Monitor, cs: Callsign, distance: Option<int>, moving: bool, copilot: bool, now: int,
                         connected: bool)
    requires Situated(m)
    ensures Situated(OnPosition(m, cs, distance, moving, copilot, now, connected).mon)
  {
    var kept := if Expels(m, distance) then MonitorSpec.DropAircraft(m, cs) else m;
    DropSituates(m, cs);
    StoringSituates(kept, cs, moving);
    AddingSituates(StoreSituation(kept, cs, moving).mon, cs, Aircraft(false, false), now);
  }

  lemma HandlingSituates(m: Monitor, msg: MonitorMsg, order: seq<Callsign>, now: int, connected: bool)
    requires Situated(m)
    ensures Situated(Handle(m, msg, order, now, connected).mon)
  {
    match msg
    case Position(cs, distance, moving, copilot) => PositionSituates(m, cs, distance, moving, copilot, now, connected);
    case IcaoCodes(cs, lookup) =>
      IcaoCodesEvaluate(m, cs, lookup, now, connected);
      EvaluationSituates(m, OnIcaoCodes(m, cs, lookup, now, connected), cs);
    case FsInnPacket(cs, packet, lookup) =>
      FsInnPacketEvaluates(m, cs, packet, lookup, now, connected, 0, now);
      EvaluationSituates(m, OnFsInnPacket(m, cs, packet, lookup, now, connected, 0, now), cs);
    case _ =>
  }

  lemma StepSituates(s: System, e: Event)
    requires Enabled(s, e) && Situated(s.mon) && !e.ReInitialize?
    ensures Situated(Step(s, e).mon)
  {
    if e.MonitorTakes? {
      HandlingSituates(s.mon, s.inbox[0], e.order, s.now, s.connected);
    } else if e.TimerFires? {
      var taken := s.mon.(timers := s.mon.timers - multiset{e.timer});
      TimerEvaluates(taken, e.timer, e.lookup, s.now, s.connected);
      EvaluationSituates(taken, OnTimer(taken, e.timer, e.lookup, s.now, s.connected), e.timer.cs);
    }
  }

  lemma {:induction false} WithoutReInitializationAllAreSituated(states: seq<System>, events: seq<Event>, k: nat)
    requires IsExecution(states, events) && k < |states|
    requires forall i :: 0 <= i < k ==> !events[i].ReInitialize?
    ensures Situated(states[k].mon)
  {
    if k > 0 {
      WithoutReInitializationAllAreSituated(states, events, k - 1);
      assert Enabled(states[k - 1], events[k - 1]);
      StepSituates(states[k - 1], events[k - 1]);
    }
  }

  /** So without re-initialisations the main result is about all aircraft in range: each is covered, and watched once
      the queues have drained. */
  lemma AllAircraftInRangeAreCovered(states: seq<System>, events: seq<Event>, k: nat, cs: Callsign)
    requires IsExecution(states, events) && k < |states| && (forall i :: 0 <= i < k ==> !events[i].ReInitialize?)
    requires cs in states[k].mon.inRange && !ClearPending(states[k])
    ensures Covered(states[k], cs)
    ensures states[k].inbox == [] && states[k].watchInbox == [] ==> cs in states[k].watch.aircraft
  {
    WithoutReInitializationAllAreSituated(states, events, k);
    NoGhostAircraft(states, events, k, cs);
  }
}
