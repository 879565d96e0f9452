/** Concrete executions that show where the safety results need their conditions. */
module Witnesses {
  import opened Common
  import opened MonitorSpec
  import opened Airspace
  import opened Readiness
  import opened StampQueue
  import N = NobodyStranded
  import W = Watchdog

  const AIRCRAFT: Callsign := "DLH1"
  const STATION: Callsign := "EDDF_TWR"

  function Online(): System {
    Start(0).(connected := true)
  }

  function Tracked(): System {
    Online().(
      mon := INITIAL.(inRange := map[AIRCRAFT := Aircraft(false, false)],
                      tracks := map[AIRCRAFT := Track(MAX_SITUATIONS, true)],
                      timers := multiset{Timer(VERIFY_MS, AIRCRAFT, Verify)}),
      watch := W.Started(0).(aircraft := map[AIRCRAFT := 0]))
  }

  ghost function Then(run: (seq<System>, seq<Event>), e: Event): (seq<System>, seq<Event>)
    requires run.0 != [] && Enabled(run.0[|run.0| - 1], e)
  {
    (run.0 + [Step(run.0[|run.0| - 1], e)], run.1 + [e])
  }

  lemma Extend(run: (seq<System>, seq<Event>), e: Event) returns (longer: (seq<System>, seq<Event>))
    requires IsExecution(run.0, run.1)
    requires Enabled(run.0[|run.0| - 1], e)
    ensures longer == Then(run, e) && IsExecution(longer.0, longer.1)
    ensures longer.0[|longer.0| - 1] == Step(run.0[|run.0| - 1], e)
  {
    longer := Then(run, e);
    forall k | 0 <= k < |longer.1|
      ensures Enabled(longer.0[k], longer.1[k]) && longer.0[k + 1] == Step(longer.0[k], longer.1[k])
    {
      if k < |run.1| { assert longer.1[k] == run.1[k]; }
    }
  }

  lemma ConnectFirst() returns (run: (seq<System>, seq<Event>))
    ensures IsExecution(run.0, run.1) && run.0[|run.0| - 1] == Online()
  {
    run := ([Start(0)], []);
    run := Extend(run, Connect);
    run := Extend(run, AnalyzerTakes);
  }

  lemma AircraftAppears() returns (run: (seq<System>, seq<Event>))
    ensures IsExecution(run.0, run.1) && run.0[|run.0| - 1] == Tracked()
  {
    run := ConnectFirst();
    run := Extend(run, Receive(Position(AIRCRAFT, Some(10), true, false)));
    var o := OnPosition(INITIAL, AIRCRAFT, Some(10), true, false, 0, true);
    assert o.signals == [AddedSituation(AIRCRAFT), PilotQueries(AIRCRAFT, true)];
    assert o.signals[..1] == [AddedSituation(AIRCRAFT)];
    OneSignalForwarded(AddedSituation(AIRCRAFT));
    run := Extend(run, MonitorTakes([]));
    run := Extend(run, AnalyzerTakes);
    run := Extend(run, AnalyzerTakes);
  }

  /** Re-initialisation signals the removal of an aircraft but adds it again without a situation: if no
      further position arrives, the aircraft stays in range and the watchdog never hears of it. */
  lemma ReInitializationLeavesAGhost() returns (states: seq<System>, events: seq<Event>, last: System)
    ensures IsExecution(states, events) && last == states[|states| - 1]
    ensures last.connected && last.inbox == [] && last.watchInbox == []
    ensures AIRCRAFT in last.mon.inRange && AIRCRAFT !in last.watch.aircraft
  {
    var run := AircraftAppears();
    var order := [AIRCRAFT];
    var timer := Timer(REINIT_STEP_MS, AIRCRAFT, ReAdd(Aircraft(false, false)));
    assert order[..0] == [];
    assert ReAddTimers(Tracked().mon.inRange, order, 0) == multiset{timer};
    assert Removals(order) == [RemovedAircraft(AIRCRAFT)];
    OneSignalForwarded(RemovedAircraft(AIRCRAFT));
    run := Extend(run, ReInitialize(order));
    run := Extend(run, AnalyzerTakes);
    run := Extend(run, Advance(REINIT_STEP_MS));
    var before := run.0[|run.0| - 1];
    assert timer in before.mon.timers;
    run := Extend(run, TimerFires(timer, Lookup(false, false, Aircraft(false, false))));
    states, events, last := run.0, run.1, run.0[|run.0| - 1];
  }

  /** The station went online at 0 and was heard of then only; all messages are handled. */
  function Heard(now: int, lastCall: int, holdUntil: int): System {
    Online().(now := now,
              mon := INITIAL.(atcOnline := {STATION}),
              watch := W.Started(0).(atc := map[STATION := 0], lastCall := lastCall, holdUntil := holdUntil))
  }

  lemma StationAppears() returns (run: (seq<System>, seq<Event>))
    ensures IsExecution(run.0, run.1) && run.0[|run.0| - 1] == Heard(0, 0, -1)
  {
    run := ConnectFirst();
    run := Extend(run, Receive(AtcPosition(STATION)));
    assert OnAtcPosition(INITIAL, STATION, true) == Outcome(INITIAL.(atcOnline := {STATION}), []);
    run := Extend(run, MonitorTakes([]));
    run := Extend(run, AnalyzerTakes);
  }

  /** A check that is late, or within the grace period of a late one, reports nobody. */
  lemma SkippedCheck(run: (seq<System>, seq<Event>), lastCall: int, holdUntil: int, to: int)
    returns (longer: (seq<System>, seq<Event>))
    requires IsExecution(run.0, run.1) && run.0[|run.0| - 1] == Heard(lastCall, lastCall, holdUntil)
    requires lastCall <= to && (to - lastCall > W.CALL_THRESHOLD_MS || holdUntil > to)
    ensures IsExecution(longer.0, longer.1)
    ensures longer.0[|longer.0| - 1]
         == Heard(to, to, if to - lastCall > W.CALL_THRESHOLD_MS then to + 2 * W.CALL_THRESHOLD_MS else holdUntil)
  {
    longer := Extend(run, Advance(to));
    longer := Extend(longer, AnalyzerChecks([], []));
    assert [] + Timeouts([], []) == [];
  }

  /** A stalled process, then checks every 10 s: the first one after the grace period reports the station. */
  lemma StationTimesOut() returns (run: (seq<System>, seq<Event>))
    ensures IsExecution(run.0, run.1)
    ensures run.0[|run.0| - 1]
            == Heard(70000, 70000, -1).(watch := W.Started(0).(lastCall := 70000), inbox := [AtcTimeout(STATION)])
  {
    run := StationAppears();
    run := SkippedCheck(run, 0, -1, 40000);
    run := SkippedCheck(run, 40000, 62500, 50000);
    run := SkippedCheck(run, 50000, 62500, 60000);
    run := Extend(run, Advance(70000));
    var s := Heard(70000, 60000, 62500);
    assert W.Stale(s.watch.atc, W.ATC_TIMEOUT_MS, 70000) == {STATION};
    assert W.Stale(s.watch.aircraft, W.AIRCRAFT_TIMEOUT_MS, 70000) == {};
    assert s.watch.atc - {STATION} == map[];
    assert Timeouts([], [STATION]) == [AtcTimeout(STATION)];
    run := Extend(run, AnalyzerChecks([], [STATION]));
  }

  /** The monitor does not touch stations itself: a position that arrives while the time-out of its station is still
      posted is the last the analyzer hears of the station before the monitor signals the removal to it. */
  lemma LatePositionLeavesAGhostStation() returns (states: seq<System>, events: seq<Event>, last: System)
    ensures IsExecution(states, events) && last == states[|states| - 1]
    ensures last.connected && last.inbox == [] && last.watchInbox == []
    ensures STATION in last.mon.atcOnline && STATION !in last.watch.atc
  {
    var run := StationTimesOut();
    run := Extend(run, Receive(AtcPosition(STATION)));
    TimeOutIsHandled(run.0[|run.0| - 1]);
    run := Extend(run, MonitorTakes([]));
    PositionIsHandled(run.0[|run.0| - 1]);
    run := Extend(run, MonitorTakes([]));
    run := Extend(run, AnalyzerTakes);
    run := Extend(run, AnalyzerTakes);
    states, events, last := run.0, run.1, run.0[|run.0| - 1];
  }

  lemma TimeOutIsHandled(s: System)
    requires s.connected && s.mon.atcOnline == {STATION} && s.watchInbox == [TouchAtc(STATION)]
    requires s.inbox == [AtcTimeout(STATION), AtcPosition(STATION)]
    ensures Step(s, MonitorTakes([])) == s.(mon := s.mon.(atcOnline := {}), inbox := [AtcPosition(STATION)],
                                            watchInbox := [TouchAtc(STATION), DropAtc(STATION)])
  {
    OneSignalForwarded(AtcOffline(STATION));
    assert OnAtcDisconnected(s.mon, STATION, true) == Outcome(s.mon.(atcOnline := {}), [AtcOffline(STATION)]);
  }

  lemma PositionIsHandled(s: System)
    requires s.connected && s.mon.atcOnline == {} && s.inbox == [AtcPosition(STATION)]
    ensures Step(s, MonitorTakes([])) == s.(mon := s.mon.(atcOnline := {STATION}), inbox := [])
  {
    assert OnAtcPosition(s.mon, STATION, true) == Outcome(s.mon.(atcOnline := {STATION}), []);
  }

  const NO_LOOKUP := Lookup(false, false, Aircraft(false, false))

  lemma Fire(run: (seq<System>, seq<Event>), t: Timer) returns (longer: (seq<System>, seq<Event>))
    requires IsExecution(run.0, run.1)
    requires var s := run.0[|run.0| - 1]; t in s.mon.timers && t.due <= s.now
    ensures IsExecution(longer.0, longer.1)
    ensures longer.0[|longer.0| - 1] == Step(run.0[|run.0| - 1], TimerFires(t, NO_LOOKUP))
  {
    longer := Extend(run, TimerFires(t, NO_LOOKUP));
  }

  /** The aircraft was removed with the lost connection and is added again by a late re-initialisation timer. */
  lemma ReAddedOffline() returns (run: (seq<System>, seq<Event>), last: System)
    ensures IsExecution(run.0, run.1) && last == run.0[|run.0| - 1]
    ensures !last.connected && last.inbox == [] && last.now == REINIT_STEP_MS
    ensures last.mon.inRange == map[AIRCRAFT := Aircraft(false, false)] && last.mon.readiness == map[]
    ensures last.mon.timers
            == multiset{Timer(VERIFY_MS, AIRCRAFT, Verify), Timer(REINIT_STEP_MS + VERIFY_MS, AIRCRAFT, Verify)}
  {
    run := AircraftAppears();
    var order := [AIRCRAFT];
    var timer := Timer(REINIT_STEP_MS, AIRCRAFT, ReAdd(Aircraft(false, false)));
    assert order[..0] == [];
    assert ReAddTimers(Tracked().mon.inRange, order, 0) == multiset{timer};
    run := Extend(run, ReInitialize(order));
    run := Extend(run, Disconnect);
    run := Extend(run, MonitorTakes([]));
    run := Extend(run, Advance(REINIT_STEP_MS));
    var before := run.0[|run.0| - 1];
    assert before.mon.timers == multiset{Timer(VERIFY_MS, AIRCRAFT, Verify), timer};
    run := Fire(run, timer);
    last := run.0[|run.0| - 1];
  }

  /** Offline, the first verification only marks the record and schedules a second one ... */
  lemma FirstVerificationOffline(s: System, t: Timer)
    requires !s.connected && AIRCRAFT in s.mon.inRange && AIRCRAFT !in s.mon.readiness
    requires t.cs == AIRCRAFT && t.job.Verify? && t in s.mon.timers && t.due <= s.now
    ensures Step(s, TimerFires(t, NO_LOOKUP)) ==
      s.(mon := s.mon.(timers := s.mon.timers - multiset{t} + multiset{Timer(s.now + VERIFY_MS, AIRCRAFT, Verify)},
                       readiness := s.mon.readiness[AIRCRAFT := NOT_READY.AddFlag(Verified, s.now)]))
  {
    assert s.watchInbox + ForAnalyzer([]) == s.watchInbox;
  }

  /** ... which has no effect. */
  lemma SecondVerificationOffline(s: System, t: Timer)
    requires !s.connected && AIRCRAFT in s.mon.inRange && AIRCRAFT in s.mon.readiness
    requires s.mon.readiness[AIRCRAFT].verified && !s.mon.readiness[AIRCRAFT].sent
    requires t.cs == AIRCRAFT && t.job.Verify? && t in s.mon.timers && t.due <= s.now
    ensures Step(s, TimerFires(t, NO_LOOKUP)) == s.(mon := s.mon.(timers := s.mon.timers - multiset{t}))
  {
    assert s.watchInbox + ForAnalyzer([]) == s.watchInbox;
    assert s.mon.readiness[AIRCRAFT := s.mon.readiness[AIRCRAFT]] == s.mon.readiness;
  }

  /** Offline with the re-added aircraft, verified once but never announced. */
  predicate VerifiedOffline(s: System, now: int, timers: multiset<Timer>) {
    && !s.connected && s.inbox == [] && s.now == now && s.mon.timers == timers
    && AIRCRAFT in s.mon.inRange && AIRCRAFT in s.mon.readiness
    && s.mon.readiness[AIRCRAFT].verified && !s.mon.readiness[AIRCRAFT].sent
  }

  lemma FirstRoundOffline() returns (run: (seq<System>, seq<Event>))
    ensures IsExecution(run.0, run.1)
    ensures VerifiedOffline(run.0[|run.0| - 1], REINIT_STEP_MS + VERIFY_MS,
            multiset{Timer(REINIT_STEP_MS + 2 * VERIFY_MS, AIRCRAFT, Verify)})
  {
    var s0;
    run, s0 := ReAddedOffline();
    var first, second := Timer(VERIFY_MS, AIRCRAFT, Verify), Timer(REINIT_STEP_MS + VERIFY_MS, AIRCRAFT, Verify);
    run := Extend(run, Advance(REINIT_STEP_MS + VERIFY_MS));
    var s1 := s0.(now := REINIT_STEP_MS + VERIFY_MS);
    FirstVerificationOffline(s1, first);
    run := Fire(run, first);
    var s2 := run.0[|run.0| - 1];
    assert s2.mon.timers == multiset{second, Timer(REINIT_STEP_MS + 2 * VERIFY_MS, AIRCRAFT, Verify)};
    SecondVerificationOffline(s2, second);
    run := Fire(run, second);
  }

  /** After 48 s offline both verifications are spent. On the next connection the aircraft is in range with a
      valid callsign, was never announced, and no timer will ever look after it. */
  lemma OfflineReAddStrandsAnAircraft() returns (states: seq<System>, events: seq<Event>, last: System)
    ensures IsExecution(states, events) && last == states[|states| - 1]
    ensures last.connected && !ClearPending(last)
    ensures Announceable(last.mon, AIRCRAFT) && !N.Announced(last.mon, AIRCRAFT)
    ensures last.mon.timers == multiset{}
  {
    var run := FirstRoundOffline();
    var third := Timer(REINIT_STEP_MS + 2 * VERIFY_MS, AIRCRAFT, Verify);
    run := Extend(run, Advance(REINIT_STEP_MS + 2 * VERIFY_MS));
    SecondVerificationOffline(run.0[|run.0| - 1], third);
    run := Fire(run, third);
    run := Extend(run, Connect);
    states, events, last := run.0, run.1, run.0[|run.0| - 1];
  }

  // ----- an aircraft that leaves and returns -----

  const FAR := 200    // beyond the hysteresis limit of the default range

  const VERIFIED_ONCE := Readiness(VERIFY_MS, false, false, false, true)
  const SENT := Readiness(VERIFY_MS, false, false, true, false)

  /** The monitor with the aircraft in range, or without it. */
  function Knowing(present: bool, record: map<Callsign, Readiness>, timers: multiset<Timer>): Monitor {
    INITIAL.(inRange := if present then map[AIRCRAFT := Aircraft(false, false)] else map[],
             tracks := if present then map[AIRCRAFT := Track(MAX_SITUATIONS, true)] else map[],
             readiness := record, timers := timers)
  }

  /** The aircraft is not announced from event i on. */
  ghost predicate SilentSince(run: (seq<System>, seq<Event>), i: nat) {
    && IsExecution(run.0, run.1)
    && forall k {:trigger run.1[k]} :: i <= k < |run.1| ==> ReadyForMatching(AIRCRAFT) !in Signals(run.0[k], run.1[k])
  }

  lemma ExtendSilently(run: (seq<System>, seq<Event>), i: nat, e: Event) returns (longer: (seq<System>, seq<Event>))
    requires SilentSince(run, i) && Enabled(run.0[|run.0| - 1], e)
    requires ReadyForMatching(AIRCRAFT) !in Signals(run.0[|run.0| - 1], e)
    ensures longer == Then(run, e) && SilentSince(longer, i)
    ensures longer.0[|longer.0| - 1] == Step(run.0[|run.0| - 1], e)
  {
    longer := Extend(run, e);
    forall k | i <= k < |longer.1| ensures ReadyForMatching(AIRCRAFT) !in Signals(longer.0[k], longer.1[k]) {
      if k < |run.1| {
        assert longer.0[k] == run.0[k] && longer.1[k] == run.1[k];
      } else {
        assert longer.0[k] == run.0[|run.0| - 1] && longer.1[k] == e;
      }
    }
  }

  ghost predicate Extends(longer: (seq<System>, seq<Event>), run: (seq<System>, seq<Event>)) {
    run.0 <= longer.0 && run.1 <= longer.1
  }

  lemma FirstVerification(s: System)
    requires s.connected && s.now == VERIFY_MS
             && s.mon == Knowing(true, map[], multiset{Timer(VERIFY_MS, AIRCRAFT, Verify)})
    ensures Step(s, TimerFires(Timer(VERIFY_MS, AIRCRAFT, Verify), NO_LOOKUP)).mon
         == Knowing(true, map[AIRCRAFT := VERIFIED_ONCE], multiset{Timer(2 * VERIFY_MS, AIRCRAFT, Verify)})
  {
  }

  lemma SecondVerification(s: System)
    requires s.connected && s.now == 2 * VERIFY_MS
    requires s.mon == Knowing(true, map[AIRCRAFT := VERIFIED_ONCE], multiset{Timer(2 * VERIFY_MS, AIRCRAFT, Verify)})
    ensures var e := TimerFires(Timer(2 * VERIFY_MS, AIRCRAFT, Verify), NO_LOOKUP);
            Step(s, e).mon == Knowing(true, map[AIRCRAFT := SENT], multiset{})
                && Signals(s, e) == [ReadyForMatching(AIRCRAFT)]
  {
    assert IsValidAircraftCallsign(AIRCRAFT);
  }

  lemma Expelled(s: System)
    requires s.connected && s.mon == Knowing(true, map[AIRCRAFT := SENT], multiset{})
    requires s.inbox == [Position(AIRCRAFT, Some(FAR), true, false)]
    ensures Step(s, MonitorTakes([])).mon == Knowing(false, map[AIRCRAFT := SENT], multiset{})
    ensures Signals(s, MonitorTakes([])) == []
  {
    assert s.mon.inRange - {AIRCRAFT} == map[] && s.mon.tracks - {AIRCRAFT} == map[];
  }

  lemma Returns(s: System)
    requires s.connected && s.now == 2 * VERIFY_MS && s.mon == Knowing(false, map[AIRCRAFT := SENT], multiset{})
    requires s.inbox == [Position(AIRCRAFT, Some(10), true, false)]
    ensures Step(s, MonitorTakes([])).mon
            == Knowing(true, map[AIRCRAFT := SENT], multiset{Timer(3 * VERIFY_MS, AIRCRAFT, Verify)})
    ensures ReadyForMatching(AIRCRAFT) !in Signals(s, MonitorTakes([]))
  {
  }

  lemma ThirdVerification(s: System)
    requires s.connected && s.now == 3 * VERIFY_MS
    requires s.mon == Knowing(true, map[AIRCRAFT := SENT], multiset{Timer(3 * VERIFY_MS, AIRCRAFT, Verify)})
    ensures var e := TimerFires(Timer(3 * VERIFY_MS, AIRCRAFT, Verify), NO_LOOKUP);
            Step(s, e).mon == Knowing(true, map[AIRCRAFT := SENT], multiset{}) && Signals(s, e) == []
  {
    assert map[AIRCRAFT := SENT][AIRCRAFT := SENT] == map[AIRCRAFT := SENT];
  }

  /** Announced by its second verification, after 48 s. */
  lemma AnnouncedOnce() returns (run: (seq<System>, seq<Event>))
    ensures |run.1| > 0 && AnnouncedAt(run, |run.1| - 1) && SilentSince(run, |run.1|)
    ensures var s := run.0[|run.0| - 1];
            s.connected && s.now == 2 * VERIFY_MS && s.inbox == []
                && s.mon == Knowing(true, map[AIRCRAFT := SENT], multiset{})
  {
    run := AircraftAppears();
    run := Extend(run, Advance(VERIFY_MS));
    FirstVerification(run.0[|run.0| - 1]);
    run := Fire(run, Timer(VERIFY_MS, AIRCRAFT, Verify));
    run := Extend(run, Advance(2 * VERIFY_MS));
    SecondVerification(run.0[|run.0| - 1]);
    run := Extend(run, TimerFires(Timer(2 * VERIFY_MS, AIRCRAFT, Verify), NO_LOOKUP));
  }

  lemma Leaves(run: (seq<System>, seq<Event>), i: nat) returns (longer: (seq<System>, seq<Event>))
    requires SilentSince(run, i)
    requires var s := run.0[|run.0| - 1];
             s.connected && s.now == 2 * VERIFY_MS && s.inbox == []
                 && s.mon == Knowing(true, map[AIRCRAFT := SENT], multiset{})
    ensures SilentSince(longer, i) && |longer.1| == |run.1| + 2
    ensures Extends(longer, run)
    ensures var s := longer.0[|longer.0| - 1];
            s.connected && s.now == 2 * VERIFY_MS && s.inbox == []
                && s.mon == Knowing(false, map[AIRCRAFT := SENT], multiset{})
  {
    longer := ExtendSilently(run, i, Receive(Position(AIRCRAFT, Some(FAR), true, false)));
    Expelled(longer.0[|longer.0| - 1]);
    longer := ExtendSilently(longer, i, MonitorTakes([]));
  }

  lemma ComesBack(run: (seq<System>, seq<Event>), i: nat) returns (longer: (seq<System>, seq<Event>))
    requires SilentSince(run, i)
    requires var s := run.0[|run.0| - 1];
             s.connected && s.now == 2 * VERIFY_MS && s.inbox == []
                 && s.mon == Knowing(false, map[AIRCRAFT := SENT], multiset{})
    ensures SilentSince(longer, i) && |longer.1| == |run.1| + 2
    ensures Extends(longer, run)
    ensures var s := longer.0[|longer.0| - 1];
            && s.connected && s.now == 2 * VERIFY_MS && s.inbox == []
            && s.mon == Knowing(true, map[AIRCRAFT := SENT], multiset{Timer(3 * VERIFY_MS, AIRCRAFT, Verify)})
  {
    longer := ExtendSilently(run, i, Receive(Position(AIRCRAFT, Some(10), true, false)));
    Returns(longer.0[|longer.0| - 1]);
    longer := ExtendSilently(longer, i, MonitorTakes([]));
  }

  lemma IsVerifiedInVain(run: (seq<System>, seq<Event>), i: nat) returns (longer: (seq<System>, seq<Event>))
    requires SilentSince(run, i)
    requires var s := run.0[|run.0| - 1];
             && s.connected && s.now == 2 * VERIFY_MS && s.inbox == []
             && s.mon == Knowing(true, map[AIRCRAFT := SENT], multiset{Timer(3 * VERIFY_MS, AIRCRAFT, Verify)})
    ensures SilentSince(longer, i)
    ensures Extends(longer, run)
    ensures var s := longer.0[|longer.0| - 1];
            s.connected && s.inbox == [] && s.mon == Knowing(true, map[AIRCRAFT := SENT], multiset{})
  {
    longer := ExtendSilently(run, i, Advance(3 * VERIFY_MS));
    ThirdVerification(longer.0[|longer.0| - 1]);
    longer := ExtendSilently(longer, i, TimerFires(Timer(3 * VERIFY_MS, AIRCRAFT, Verify), NO_LOOKUP));
  }

  /** An announced aircraft leaves by the range limit and returns. Its next verification finds the record of the first
      visit and does nothing: the aircraft is in range for good, no timer is left, and it is not announced again. */
  lemma ReturningAircraftIsNotAnnounced() returns (run: (seq<System>, seq<Event>), announced: nat, gone: nat)
    ensures AnnouncedAt(run, announced) && announced < gone < |run.1| && SilentSince(run, announced + 1)
    ensures AIRCRAFT !in run.0[gone].mon.inRange
    ensures var last := run.0[|run.1|];
            last.connected && last.inbox == [] && last.mon == Knowing(true, map[AIRCRAFT := SENT], multiset{})
  {
    var first := AnnouncedOnce();
    announced := |first.1| - 1;
    run, gone := LeavesAndReturns(first);
    AnnouncedAtExtends(first, run, announced);
  }

  lemma LeavesAndReturns(first: (seq<System>, seq<Event>)) returns (run: (seq<System>, seq<Event>), gone: nat)
    requires SilentSince(first, |first.1|)
    requires var s := first.0[|first.0| - 1];
             s.connected && s.now == 2 * VERIFY_MS && s.inbox == []
                 && s.mon == Knowing(true, map[AIRCRAFT := SENT], multiset{})
    ensures SilentSince(run, |first.1|) && Extends(run, first) && |first.1| <= gone < |run.1|
    ensures AIRCRAFT !in run.0[gone].mon.inRange
    ensures var last := run.0[|run.1|];
            last.connected && last.inbox == [] && last.mon == Knowing(true, map[AIRCRAFT := SENT], multiset{})
  {
    var left := Leaves(first, |first.1|);
    gone := |left.1|;
    var back := ComesBack(left, |first.1|);
    run := IsVerifiedInVain(back, |first.1|);
    assert run.0[gone] == left.0[gone];
  }

  ghost predicate AnnouncedAt(run: (seq<System>, seq<Event>), k: nat) {
    && IsExecution(run.0, run.1) && k < |run.1| && AIRCRAFT in run.0[k].mon.inRange
    && Enabled(run.0[k], run.1[k]) && ReadyForMatching(AIRCRAFT) in Signals(run.0[k], run.1[k])
  }

  lemma AnnouncedAtExtends(first: (seq<System>, seq<Event>), run: (seq<System>, seq<Event>), k: nat)
    requires AnnouncedAt(first, k) && Extends(run, first) && IsExecution(run.0, run.1)
    ensures AnnouncedAt(run, k)
  {
    assert run.0[k] == first.0[k] && run.1[k] == first.1[k];
  }
}
