/** ATC stations and the watchdog. The monitor does not touch stations itself, so a position that is received while an
    older time-out of its station still waits leaves the station online and unwatched; nothing else does. */
module GhostStations {
  import opened Common
  import opened MonitorSpec
  import opened Airspace
  import opened StationFrames
  import opened StampQueue
  import opened RunHistory
  import W = Watchdog

  /** A time-out of the station, or a log-off with an id equal to its callsign. */
  predicate TakesOff(msg: MonitorMsg, cs: Callsign) {
    msg == AtcTimeout(cs) || msg == AtcDisconnected(cs)
  }

  predicate OnlineAfterMsg(msg: MonitorMsg, cs: Callsign, online: bool) {
    if msg == AtcPosition(cs) then true
    else if TakesOff(msg, cs) || msg.Disconnected? then false
    else online
  }

  /** Whether the station is online once the monitor has handled its queue. */
  predicate OnlineAfter(q: seq<MonitorMsg>, cs: Callsign, online: bool) {
    if q == [] then online
    else OnlineAfterMsg(q[|q| - 1], cs, OnlineAfter(q[..|q| - 1], cs, online))
  }

  /** The monitor will take the station off on its way through the queue, and signal it to the analyzer. */
  predicate Removes(q: seq<MonitorMsg>, cs: Callsign, online: bool) {
    q != [] && (Removes(q[..|q| - 1], cs, online)
        || (TakesOff(q[|q| - 1], cs) && OnlineAfter(q[..|q| - 1], cs, online)))
  }

  /** If the station is online once all queued messages are handled, it is watched then. */
  predicate EndsWatched(s: System, cs: Callsign) {
    var online := cs in s.mon.atcOnline;
    OnlineAfter(s.inbox, cs, online) ==>
      !Removes(s.inbox, cs, online) && StampedAfter(s.watchInbox, Station(cs), cs in s.watch.atc)
  }

  /** A position arrives while the removal of its station is still to come. */
  predicate Races(s: System, e: Event, cs: Callsign) {
    e == Receive(AtcPosition(cs)) && Removes(s.inbox, cs, cs in s.mon.atcOnline)
  }

  lemma OnlineAfterOne(q: seq<MonitorMsg>, msg: MonitorMsg, cs: Callsign, online: bool)
    ensures OnlineAfter(q + [msg], cs, online) == OnlineAfterMsg(msg, cs, OnlineAfter(q, cs, online))
    ensures Removes(q + [msg], cs, online)
            == (Removes(q, cs, online) || (TakesOff(msg, cs) && OnlineAfter(q, cs, online)))
  {
    assert (q + [msg])[..|q|] == q;
  }

  /** The same from the front of the queue. */
  lemma {:induction false} OnlineAfterFirst(q: seq<MonitorMsg>, cs: Callsign, online: bool)
    requires q != []
    ensures OnlineAfter(q, cs, online) == OnlineAfter(q[1..], cs, OnlineAfterMsg(q[0], cs, online))
    ensures Removes(q, cs, online)
         == ((TakesOff(q[0], cs) && online) || Removes(q[1..], cs, OnlineAfterMsg(q[0], cs, online)))
  {
    var n := |q| - 1;
    if n == 0 {
      assert q[..0] == [] && q[1..] == [];
    } else {
      OnlineAfterFirst(q[..n], cs, online);
      assert q[..n][1..] == q[1..][..n - 1];
    }
  }

  lemma {:induction false} OnlineAfterMonotone(q: seq<MonitorMsg>, cs: Callsign)
    requires OnlineAfter(q, cs, false)
    ensures OnlineAfter(q, cs, true)
  {
    if q != [] && OnlineAfter(q[..|q| - 1], cs, false) { OnlineAfterMonotone(q[..|q| - 1], cs); }
  }

  lemma {:induction false} ClearForgets(q: seq<MonitorMsg>, cs: Callsign, online: bool)
    requires Disconnected in q
    ensures OnlineAfter(q, cs, online) == OnlineAfter(q, cs, false)
  {
    var front, last := q[..|q| - 1], q[|q| - 1];
    if !last.Disconnected? {
      assert q == front + [last];
      ClearForgets(front, cs, online);
    }
  }

  lemma {:induction false} OtherMessagesDoNotMatter(q: seq<MonitorMsg>, cs: Callsign, online: bool)
    requires forall msg :: msg in q ==> !TakesOff(msg, cs)
    ensures !Removes(q, cs, online)
    ensures online && Disconnected !in q ==> OnlineAfter(q, cs, online)
  {
    if q != [] {
      assert q[|q| - 1] in q;
      assert Disconnected !in q ==> Disconnected !in q[..|q| - 1];
      OtherMessagesDoNotMatter(q[..|q| - 1], cs, online);
    }
  }

  /** Signals about aircraft and other stations do not matter. */
  lemma {:induction false} SignalsKeepStamp(signals: seq<Signal>, cs: Callsign, stamped: bool)
    requires AtcOffline(cs) !in signals
    ensures StampedAfter(ForAnalyzer(signals), Station(cs), stamped) == stamped
  {
    if signals != [] {
      var front, last := signals[..|signals| - 1], signals[|signals| - 1];
      assert last in signals;
      SignalsKeepStamp(front, cs, stamped);
      StampedAfterAppend(ForAnalyzer(front), Forwarded(last), Station(cs), stamped);
      OneSignalKeepsStamp(last, cs, stamped);
    }
  }

  lemma OneSignalKeepsStamp(signal: Signal, cs: Callsign, stamped: bool)
    requires signal != AtcOffline(cs)
    ensures StampedAfter(Forwarded(signal), Station(cs), stamped) == stamped
  {
    var f := Forwarded(signal);
    if |f| == 1 { assert f[..0] == []; }
  }

  // ----- offline -----

  /** Without a connection no station is or comes online, up to a clean-up still to be handled. */
  predicate OfflineIsEmpty(s: System, cs: Callsign) {
    !s.connected ==> !OnlineAfter(s.inbox, cs, false) && (cs in s.mon.atcOnline ==> ClearPending(s))
  }

  lemma OfflineEndsWatched(s: System, cs: Callsign)
    requires !s.connected && OfflineIsEmpty(s, cs)
    ensures !OnlineAfter(s.inbox, cs, cs in s.mon.atcOnline) && EndsWatched(s, cs)
  {
    if cs in s.mon.atcOnline { ClearForgets(s.inbox, cs, true); }
  }

  lemma OfflineMessageKeepsOffline(s: System, e: Event, cs: Callsign)
    requires Enabled(s, e) && e.MonitorTakes? && !s.connected && OfflineIsEmpty(s, cs)
    ensures OfflineIsEmpty(Step(s, e), cs)
  {
    var q, s' := s.inbox, Step(s, e);
    OnlineAfterFirst(q, cs, false);
    if OnlineAfter(q[1..], cs, false) { OnlineAfterMonotone(q[1..], cs); }
    if !ConcernsStations(q[0]) { StationsChangeByMessage(s, e); }
    assert q == [q[0]] + q[1..];
  }

  lemma StepKeepsOffline(s: System, e: Event, cs: Callsign)
    requires Enabled(s, e) && OfflineIsEmpty(s, cs)
    ensures OfflineIsEmpty(Step(s, e), cs)
  {
    var s' := Step(s, e);
    if e.Disconnect? {
      OnlineAfterOne(s.inbox, Disconnected, cs, false);
      assert s'.inbox[|s.inbox|] == Disconnected;
    } else if !s.connected && e.MonitorTakes? {
      OfflineMessageKeepsOffline(s, e, cs);
    } else if !s.connected {
      StationsChangeByMessage(s, e);
      if e.Receive? { OnlineAfterOne(s.inbox, e.msg, cs, false); }
      if e.AnalyzerChecks? { TimeoutsPutNobodyOnline(s.inbox, Timeouts(e.aircraft, e.atc), cs, false); }
    }
  }

  /** A block of time-outs takes stations off at most. */
  lemma {:induction false} TimeoutsPutNobodyOnline(q: seq<MonitorMsg>, block: seq<MonitorMsg>, cs: Callsign,
                                                   online: bool)
    requires forall msg :: msg in block ==> msg.AircraftTimeout? || msg.AtcTimeout?
    ensures OnlineAfter(q + block, cs, online) == (OnlineAfter(q, cs, online) && AtcTimeout(cs) !in block)
    ensures OnlineAfter(q + block, cs, online) ==> Removes(q + block, cs, online) == Removes(q, cs, online)
  {
    if block == [] {
      assert q + block == q;
    } else {
      var front, last := block[..|block| - 1], block[|block| - 1];
      assert q + block == q + front + [last] && block == front + [last];
      assert last in block;
      TimeoutsPutNobodyOnline(q, front, cs, online);
      OnlineAfterOne(q + front, last, cs, online);
    }
  }

  // ----- steps -----

  lemma StationMessageStep(s: System, e: Event, cs: Callsign)
    requires Enabled(s, e) && e.MonitorTakes? && s.connected && ConcernsStations(s.inbox[0])
    ensures EndsWatched(Step(s, e), cs) == EndsWatched(s, cs)
  {
    var msg, s' := s.inbox[0], Step(s, e);
    var online, stamped := cs in s.mon.atcOnline, StampedAfter(s.watchInbox, Station(cs), cs in s.watch.atc);
    OnlineAfterFirst(s.inbox, cs, online);
    OnlineAsHandled(s, e, cs);
    StampAsHandled(s, e, cs);
    assert s'.inbox == s.inbox[1..];
    if TakesOff(msg, cs) && online {
      assert Removes(s.inbox, cs, online);
    } else {
      assert StampedAfter(s'.watchInbox, Station(cs), cs in s'.watch.atc) == stamped;
    }
  }

  lemma OnlineAsHandled(s: System, e: Event, cs: Callsign)
    requires Enabled(s, e) && e.MonitorTakes? && s.connected && ConcernsStations(s.inbox[0])
    ensures (cs in Step(s, e).mon.atcOnline) == OnlineAfterMsg(s.inbox[0], cs, cs in s.mon.atcOnline)
  {
  }

  /** The removal of a station is signalled; the other messages leave its stamp alone. */
  lemma StampAsHandled(s: System, e: Event, cs: Callsign)
    requires Enabled(s, e) && e.MonitorTakes? && s.connected && ConcernsStations(s.inbox[0])
    ensures var s', stamped := Step(s, e), StampedAfter(s.watchInbox, Station(cs), cs in s.watch.atc);
            StampedAfter(s'.watchInbox, Station(cs), cs in s'.watch.atc)
            == (stamped && !(TakesOff(s.inbox[0], cs) && cs in s.mon.atcOnline))
  {
    StationSignals(s.mon, s.inbox[0], e.order, s.now, cs);
    StampAfterSignals(s.watchInbox, Handle(s.mon, s.inbox[0], e.order, s.now, true).signals, cs, cs in s.watch.atc);
  }

  lemma StationSignals(m: Monitor, msg: MonitorMsg, order: seq<Callsign>, now: int, cs: Callsign)
    requires ConcernsStations(msg)
    ensures var signals := Handle(m, msg, order, now, true).signals;
            if TakesOff(msg, cs) && cs in m.atcOnline then signals == [AtcOffline(cs)] else AtcOffline(cs) !in signals
  {
  }

  lemma StampAfterSignals(q: seq<WatchMsg>, signals: seq<Signal>, cs: Callsign, known: bool)
    requires signals == [AtcOffline(cs)] || AtcOffline(cs) !in signals
    ensures StampedAfter(q + ForAnalyzer(signals), Station(cs), known)
            == (StampedAfter(q, Station(cs), known) && signals != [AtcOffline(cs)])
  {
    if signals == [AtcOffline(cs)] {
      OneSignalForwarded(AtcOffline(cs));
      StampedAfterOne(q, DropAtc(cs), Station(cs), known);
    } else {
      StampedAfterAppend(q, ForAnalyzer(signals), Station(cs), known);
      SignalsKeepStamp(signals, cs, StampedAfter(q, Station(cs), known));
    }
  }

  /** The monitor's other activities leave the station alone. */
  lemma OtherActivityStep(s: System, e: Event, cs: Callsign)
    requires Enabled(s, e) && (e.MonitorTakes? || e.TimerFires? || e.ReInitialize? || e.SetMaxRange?)
    requires !(e.MonitorTakes? && ConcernsStations(s.inbox[0]))
    ensures EndsWatched(Step(s, e), cs) == EndsWatched(s, cs)
  {
    var s', signals := Step(s, e), MonitorStep(s, e).signals;
    StationsChangeByMessage(s, e);
    if e.MonitorTakes? { OnlineAfterFirst(s.inbox, cs, cs in s.mon.atcOnline); }
    SignalsKeepStamp(signals, cs, StampedAfter(s.watchInbox, Station(cs), cs in s.watch.atc));
    StampedAfterAppend(s.watchInbox, ForAnalyzer(signals), Station(cs), cs in s.watch.atc);
  }

  lemma AnalyzerTakesStep(s: System, cs: Callsign)
    requires s.watchInbox != []
    ensures EndsWatched(Step(s, AnalyzerTakes), cs) == EndsWatched(s, cs)
  {
    var s' := Step(s, AnalyzerTakes);
    StampedAfterFirst(s.watchInbox, Station(cs), cs in s.watch.atc);
    assert cs in s'.watch.atc <==> StampedAfterMsg(s.watchInbox[0], Station(cs), cs in s.watch.atc);
  }

  lemma AnalyzerChecksStep(s: System, e: Event, cs: Callsign)
    requires Enabled(s, e) && e.AnalyzerChecks? && EndsWatched(s, cs)
    ensures EndsWatched(Step(s, e), cs)
  {
    var block, online := Timeouts(e.aircraft, e.atc), cs in s.mon.atcOnline;
    TimeoutsPutNobodyOnline(s.inbox, block, cs, online);
    TimeoutIsPosted(s, e, cs);
    if OnlineAfter(s.inbox + block, cs, online) {
      assert cs in s.watch.atc <==> cs in Step(s, e).watch.atc;
    }
  }

  /** A station that loses its stamp in a check has its time-out posted. */
  lemma TimeoutIsPosted(s: System, e: Event, cs: Callsign)
    requires Enabled(s, e) && e.AnalyzerChecks?
    ensures cs in s.watch.atc && AtcTimeout(cs) !in Timeouts(e.aircraft, e.atc) ==> cs in Step(s, e).watch.atc
    ensures cs !in s.watch.atc ==> cs !in Step(s, e).watch.atc
  {
    if cs in e.atc {
      var i :| 0 <= i < |e.atc| && e.atc[i] == cs;
      assert Timeouts(e.aircraft, e.atc)[|e.aircraft| + i] == AtcTimeout(cs);
    }
  }

  lemma ReceiveStep(s: System, msg: MonitorMsg, cs: Callsign)
    requires Enabled(s, Receive(msg)) && EndsWatched(s, cs)
    ensures EndsWatched(Step(s, Receive(msg)), cs) <==> !Races(s, Receive(msg), cs)
  {
    var online, stamped := cs in s.mon.atcOnline, cs in s.watch.atc;
    OnlineAfterOne(s.inbox, msg, cs, online);
    if Direct(msg) == [] {
      assert s.watchInbox + [] == s.watchInbox;
    } else {
      StampedAfterOne(s.watchInbox, Direct(msg)[0], Station(cs), stamped);
    }
  }

  lemma ConnectionStep(s: System, e: Event, cs: Callsign)
    requires Enabled(s, e) && (e.Connect? || e.Disconnect?) && EndsWatched(s, cs)
    ensures EndsWatched(Step(s, e), cs)
  {
    if e.Connect? {
      StampedAfterOne(s.watchInbox, GoOnline, Station(cs), cs in s.watch.atc);
    } else {
      OnlineAfterOne(s.inbox, Disconnected, cs, cs in s.mon.atcOnline);
    }
  }

  /** A step loses a station if and only if it is such a race. */
  lemma StepLosesStationIffRace(s: System, e: Event, cs: Callsign)
    requires Enabled(s, e) && OfflineIsEmpty(s, cs) && EndsWatched(s, cs)
    ensures EndsWatched(Step(s, e), cs) <==> !Races(s, e, cs)
  {
    match e
    case Receive(msg) => ReceiveStep(s, msg, cs);
    case Connect => ConnectionStep(s, e, cs);
    case Disconnect => ConnectionStep(s, e, cs);
    case AnalyzerTakes => AnalyzerTakesStep(s, cs);
    case AnalyzerChecks(_, _) => AnalyzerChecksStep(s, e, cs);
    case EnableWatchdog(_) =>
    case Advance(_) =>
    case MonitorTakes(_) =>
      if !s.connected {
        StepKeepsOffline(s, e, cs);
        OfflineEndsWatched(Step(s, e), cs);
      } else if ConcernsStations(s.inbox[0]) {
        StationMessageStep(s, e, cs);
      } else {
        OtherActivityStep(s, e, cs);
      }
    case _ => OtherActivityStep(s, e, cs);
  }

  // ----- executions -----

  lemma {:induction false} OfflineAlwaysEmpty(states: seq<System>, events: seq<Event>, k: nat, cs: Callsign)
    requires IsExecution(states, events) && k < |states|
    ensures OfflineIsEmpty(states[k], cs)
  {
    if k > 0 {
      OfflineAlwaysEmpty(states, events, k - 1, cs);
      assert Enabled(states[k - 1], events[k - 1]);
      StepKeepsOffline(states[k - 1], events[k - 1], cs);
    }
  }

  ghost predicate NoRaces(states: seq<System>, events: seq<Event>, k: nat, cs: Callsign)
    requires k <= |events| < |states|
  {
    forall i :: 0 <= i < k ==> !Races(states[i], events[i], cs)
  }

  lemma {:induction false} WatchedUntil(states: seq<System>, events: seq<Event>, k: nat, cs: Callsign)
    requires IsExecution(states, events) && k < |states| && NoRaces(states, events, k, cs)
    ensures EndsWatched(states[k], cs)
  {
    if k > 0 {
      WatchedUntil(states, events, k - 1, cs);
      OfflineAlwaysEmpty(states, events, k - 1, cs);
      assert Enabled(states[k - 1], events[k - 1]);
      StepLosesStationIffRace(states[k - 1], events[k - 1], cs);
    }
  }

  /** In an execution, a station is in good hands all the time if and only if no position of it ever races. */
  lemma StationIsWatchedIffNoRace(states: seq<System>, events: seq<Event>, cs: Callsign)
    requires IsExecution(states, events)
    ensures (forall k :: 0 <= k < |states| ==> EndsWatched(states[k], cs)) <==> NoRaces(states, events, |events|, cs)
  {
    if NoRaces(states, events, |events|, cs) {
      forall k | 0 <= k < |states| ensures EndsWatched(states[k], cs) { WatchedUntil(states, events, k, cs); }
    } else {
      var k :| 0 <= k < |events| && Races(states[k], events[k], cs);
      if EndsWatched(states[k], cs) {
        OfflineAlwaysEmpty(states, events, k, cs);
        assert Enabled(states[k], events[k]);
        StepLosesStationIffRace(states[k], events[k], cs);
        assert !EndsWatched(states[k + 1], cs);
      }
    }
  }

  /** Without races a station online is stamped once the analyzer has handled its queue, or its removal is posted; and
      it is watched once both queues have drained. */
  lemma OnlineStationsAreCovered(states: seq<System>, events: seq<Event>, k: nat, cs: Callsign)
    requires IsExecution(states, events) && k < |states| && NoRaces(states, events, k, cs)
    requires cs in states[k].mon.atcOnline && !ClearPending(states[k])
    ensures StampedAfter(states[k].watchInbox, Station(cs), cs in states[k].watch.atc)
         || AtcTimeout(cs) in states[k].inbox || AtcDisconnected(cs) in states[k].inbox
    ensures states[k].inbox == [] && states[k].watchInbox == [] ==> cs in states[k].watch.atc
  {
    WatchedUntil(states, events, k, cs);
    if AtcTimeout(cs) !in states[k].inbox && AtcDisconnected(cs) !in states[k].inbox {
      OtherMessagesDoNotMatter(states[k].inbox, cs, true);
    }
  }

  /** There is no race unless a time-out of the station, or a log-off with its callsign, waits. */
  lemma RacesNeedAWaitingRemoval(s: System, e: Event, cs: Callsign)
    requires Races(s, e, cs)
    ensures AtcTimeout(cs) in s.inbox || AtcDisconnected(cs) in s.inbox
  {
    if AtcTimeout(cs) !in s.inbox && AtcDisconnected(cs) !in s.inbox {
      OtherMessagesDoNotMatter(s.inbox, cs, cs in s.mon.atcOnline);
    }
  }

  /** Both queues are worked off, and nothing else happens. */
  ghost predicate IsDrain(states: seq<System>, events: seq<Event>) {
    && IsRun(states, events)
    && forall k :: 0 <= k < |events| ==> states[k].connected && (events[k].MonitorTakes? || events[k].AnalyzerTakes?)
  }

  lemma {:induction false} DrainDecides(states: seq<System>, events: seq<Event>, cs: Callsign)
    requires IsDrain(states, events)
    ensures EndsWatched(states[|events|], cs) == EndsWatched(states[0], cs)
  {
    if events != [] {
      var n := |events| - 1;
      var s, e := states[n], events[n];
      assert Enabled(s, e);
      DrainDecides(states[..n + 1], events[..n], cs);
      if e.AnalyzerTakes? {
        AnalyzerTakesStep(s, cs);
      } else if ConcernsStations(s.inbox[0]) {
        StationMessageStep(s, e, cs);
      } else {
        OtherActivityStep(s, e, cs);
      }
    }
  }

  /** What "good hands" means: when the queues have drained, the station is online and unwatched exactly if it was
      not. */
  lemma DrainedGhost(states: seq<System>, events: seq<Event>, cs: Callsign)
    requires IsDrain(states, events)
    requires states[|events|].inbox == [] && states[|events|].watchInbox == []
    ensures (cs in states[|events|].mon.atcOnline && cs !in states[|events|].watch.atc) <==> !EndsWatched(states[0], cs)
  {
    DrainDecides(states, events, cs);
  }

  // ----- which states have a ghost -----

  /** A ghost station is watched or offline again: a new position while no removal is to come, or its removal. */
  predicate Heals(s: System, e: Event, cs: Callsign) {
    || (e == Receive(AtcPosition(cs)) && !Removes(s.inbox, cs, cs in s.mon.atcOnline))
    || e == Receive(AtcDisconnected(cs))
    || e.Disconnect?
    || (e.AnalyzerChecks? && cs in e.atc)
  }

  lemma GhostReceiveStep(s: System, msg: MonitorMsg, cs: Callsign)
    requires Enabled(s, Receive(msg)) && !EndsWatched(s, cs)
    ensures EndsWatched(Step(s, Receive(msg)), cs) <==> Heals(s, Receive(msg), cs)
  {
    OnlineAfterOne(s.inbox, msg, cs, cs in s.mon.atcOnline);
    if Direct(msg) == [] {
      assert s.watchInbox + [] == s.watchInbox;
    } else {
      StampedAfterOne(s.watchInbox, Direct(msg)[0], Station(cs), cs in s.watch.atc);
    }
  }

  lemma GhostCheckStep(s: System, e: Event, cs: Callsign)
    requires Enabled(s, e) && e.AnalyzerChecks? && !EndsWatched(s, cs)
    ensures EndsWatched(Step(s, e), cs) <==> cs in e.atc
  {
    var block, online := Timeouts(e.aircraft, e.atc), cs in s.mon.atcOnline;
    TimeoutsPutNobodyOnline(s.inbox, block, cs, online);
    TimeoutIsPosted(s, e, cs);
    assert AtcTimeout(cs) in block <==> cs in e.atc;
    if cs !in e.atc { assert cs in s.watch.atc <==> cs in Step(s, e).watch.atc; }
  }

  lemma GhostStep(s: System, e: Event, cs: Callsign)
    requires Enabled(s, e) && OfflineIsEmpty(s, cs) && !EndsWatched(s, cs)
    ensures EndsWatched(Step(s, e), cs) <==> Heals(s, e, cs)
  {
    if !s.connected { OfflineEndsWatched(s, cs); }
    match e
    case Receive(msg) => GhostReceiveStep(s, msg, cs);
    case Disconnect => OnlineAfterOne(s.inbox, Disconnected, cs, cs in s.mon.atcOnline);
    case AnalyzerTakes => AnalyzerTakesStep(s, cs);
    case AnalyzerChecks(_, _) => GhostCheckStep(s, e, cs);
    case EnableWatchdog(_) =>
    case Advance(_) =>
    case MonitorTakes(_) =>
      if ConcernsStations(s.inbox[0]) { StationMessageStep(s, e, cs); } else { OtherActivityStep(s, e, cs); }
    case _ => OtherActivityStep(s, e, cs);
  }

  /** Every step, from any state: a race makes a ghost, and nothing else does; healing ends it, and nothing else does.
      */
  lemma StepMakesAndHealsGhosts(s: System, e: Event, cs: Callsign)
    requires Enabled(s, e) && OfflineIsEmpty(s, cs)
    ensures !EndsWatched(Step(s, e), cs) <==> Races(s, e, cs) || (!EndsWatched(s, cs) && !Heals(s, e, cs))
  {
    if EndsWatched(s, cs) { StepLosesStationIffRace(s, e, cs); } else { GhostStep(s, e, cs); }
  }

  ghost function Ghosts(states: seq<System>, cs: Callsign): seq<bool> {
    seq(|states|, k requires 0 <= k < |states| => !EndsWatched(states[k], cs))
  }

  ghost function Racing(states: seq<System>, events: seq<Event>, cs: Callsign): seq<bool>
    requires |states| == |events| + 1
  {
    seq(|events|, k requires 0 <= k < |events| => Races(states[k], events[k], cs))
  }

  ghost function Healing(states: seq<System>, events: seq<Event>, cs: Callsign): seq<bool>
    requires |states| == |events| + 1
  {
    seq(|events|, k requires 0 <= k < |events| => Heals(states[k], events[k], cs))
  }

  lemma GhostsFollow(states: seq<System>, events: seq<Event>, k: nat, cs: Callsign)
    requires IsExecution(states, events) && k < |events|
    ensures Follows(Ghosts(states, cs), Racing(states, events, cs), Healing(states, events, cs), k)
  {
    assert Enabled(states[k], events[k]);
    OfflineAlwaysEmpty(states, events, k, cs);
    StepMakesAndHealsGhosts(states[k], events[k], cs);
  }

  /** Main result, state by state: in an execution a station is a ghost if and only if a position of it has raced, and
      nothing has healed it since. Once the queues have drained this is about the station itself. */
  lemma GhostIffUnhealedRace(states: seq<System>, events: seq<Event>, k: nat, cs: Callsign)
    requires IsExecution(states, events) && k < |states|
    ensures !EndsWatched(states[k], cs) <==> SetSince(Racing(states, events, cs), Healing(states, events, cs), 0, k)
    ensures states[k].inbox == [] && states[k].watchInbox == [] ==>
              (!EndsWatched(states[k], cs) <==> cs in states[k].mon.atcOnline && cs !in states[k].watch.atc)
  {
    var ghosts, racing, healing := Ghosts(states, cs), Racing(states, events, cs), Healing(states, events, cs);
    forall n: nat | 0 <= n < k ensures Follows(ghosts, racing, healing, n) { GhostsFollow(states, events, n, cs); }
    HistoryDecides(ghosts, racing, healing, 0, k);
  }
}
