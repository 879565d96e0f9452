/** The network thread, the monitor (main thread) and the analyzer thread as one transition system.
    Each thread owns a FIFO of posted messages; the connection status is shared. */
module Airspace {
  import opened Common
  import opened MonitorSpec
  import W = Watchdog

  /** Posted to the monitor. */
  datatype MonitorMsg =
    | Position(cs: Callsign, distance: Option<int>, moving: bool, copilot: bool)
    | InterimPosition(cs: Callsign, moving: bool, copilot: bool)
    | IcaoCodes(cs: Callsign, lookup: Lookup)
    | FsInnPacket(cs: Callsign, packet: Packet, lookup: Lookup)
    | PilotDisconnected(cs: Callsign)  // a log-off: `cs` is a certificate id, which the slot takes for a callsign
    | AtcPosition(cs: Callsign)
    | AtcDisconnected(cs: Callsign)    // a log-off, likewise
    | Connecting(vatsim: bool)
    | Disconnected
    | AircraftTimeout(cs: Callsign)    // from the analyzer
    | AtcTimeout(cs: Callsign)         // from the analyzer

  /** Posted to the analyzer. */
  datatype WatchMsg =
    | TouchAircraft(cs: Callsign)
    | TouchAtc(cs: Callsign)
    | DropAircraft(cs: Callsign)
    | DropAtc(cs: Callsign)
    | GoOnline
    | GoOffline

  /** `checking`: the analyzer's timer runs. */
  datatype System = System(
    now: int,
    connected: bool,
    mon: Monitor,
    inbox: seq<MonitorMsg>,
    watch: W.Watch,
    checking: bool,
    watchInbox: seq<WatchMsg>)

  datatype Event =
    | Advance(to: int)
    | Receive(msg: MonitorMsg)                       // a packet arrives from the network
    | Connect
    | Disconnect
    | MonitorTakes(order: seq<Callsign>)             // the monitor handles its oldest message
    | TimerFires(timer: Timer, lookup: Lookup)
    | ReInitialize(order: seq<Callsign>)
    | SetMaxRange(rangeNM: Option<nat>)
    | AnalyzerTakes                                  // the analyzer handles its oldest message
    | AnalyzerChecks(aircraft: seq<Callsign>, atc: seq<Callsign>)
    | EnableWatchdog(enabled: bool)

  function Start(now: int): System {
    System(now, false, INITIAL, [], W.Started(now), true, [])
  }

  /** Servers put the number of the user into a log-off, or nothing. */
  predicate IsCertificateId(id: string) {
    forall i :: 0 <= i < |id| ==> '0' <= id[i] <= '9'
  }

  predicate FromNetwork(msg: MonitorMsg) {
    && !msg.Disconnected? && !msg.AircraftTimeout? && !msg.AtcTimeout? && !msg.Connecting?
    && (msg.PilotDisconnected? || msg.AtcDisconnected? ==> IsCertificateId(msg.cs))
  }

  /** What may happen next; a timer never fires before it is due, a posted message waits its turn. */
  ghost predicate Enabled(s: System, e: Event) {
    match e
    case Advance(to) => s.now <= to
    case Receive(msg) => if msg.Connecting? then !s.connected else FromNetwork(msg) && s.connected
    case Connect => !s.connected
    case Disconnect => s.connected
    case MonitorTakes(order) => s.inbox != [] && (s.inbox[0].Disconnected? ==> Enumerates(order, s.mon.inRange.Keys))
    case TimerFires(timer, lookup) => timer in s.mon.timers && timer.due <= s.now
    case ReInitialize(order) => Enumerates(order, s.mon.inRange.Keys)
    case SetMaxRange(rangeNM) => true
    case AnalyzerTakes => s.watchInbox != []
    case AnalyzerChecks(aircraft, atc) =>
      && s.checking
      && Enumerates(aircraft, W.ExpiredAircraft(s.watch, s.now))
      && Enumerates(atc, W.ExpiredAtc(s.watch, s.now))
    case EnableWatchdog(enabled) => true
  }

  /** The monitor's slot for a message. */
  function Handle(m: Monitor, msg: MonitorMsg, order: seq<Callsign>, now: int, connected: bool): Outcome {
    match msg
    case Position(cs, distance, moving, copilot) => OnPosition(m, cs, distance, moving, copilot, now, connected)
    case InterimPosition(cs, moving, copilot) => OnInterimPosition(m, cs, moving, copilot, connected)
    case IcaoCodes(cs, lookup) => OnIcaoCodes(m, cs, lookup, now, connected)
    case FsInnPacket(cs, packet, lookup) => OnFsInnPacket(m, cs, packet, lookup, now, connected, 0, now)
    case PilotDisconnected(cs) => OnPilotDisconnected(m, cs)
    case AtcPosition(cs) => OnAtcPosition(m, cs, connected)
    case AtcDisconnected(cs) => OnAtcDisconnected(m, cs, connected)
    case Connecting(vatsim) => Outcome(MonitorSpec.SetMaxRange(m, if vatsim then Some(VATSIM_RANGE_NM) else None), [])
    case Disconnected => OnDisconnected(m, order)
    case AircraftTimeout(cs) => OnPilotDisconnected(m, cs)
    case AtcTimeout(cs) => OnAtcDisconnected(m, cs, connected)
  }

  /** What the monitor does in a step: its new value and the signals it emits. */
  ghost function MonitorStep(s: System, e: Event): Outcome
    requires Enabled(s, e)
  {
    match e
    case MonitorTakes(order) => Handle(s.mon, s.inbox[0], order, s.now, s.connected)
    case TimerFires(timer, lookup) =>
      OnTimer(s.mon.(timers := s.mon.timers - multiset{timer}), timer, lookup, s.now, s.connected)
    case ReInitialize(order) => MonitorSpec.ReInitialize(s.mon, order, s.now)
    case SetMaxRange(rangeNM) => Outcome(MonitorSpec.SetMaxRange(s.mon, rangeNM), [])
    case _ => Outcome(s.mon, [])
  }

  /** The queued signal connections from the monitor to the analyzer. */
  function Forwarded(signal: Signal): seq<WatchMsg> {
    match signal
    case AddedSituation(cs) => [TouchAircraft(cs)]
    case RemovedAircraft(cs) => [DropAircraft(cs)]
    case AtcOffline(cs) => [DropAtc(cs)]
    case ReadyForMatching(cs) => []
    case PilotQueries(cs, withFsInn) => []
  }

  function ForAnalyzer(signals: seq<Signal>): seq<WatchMsg> {
    if signals == [] then []
    else ForAnalyzer(signals[..|signals| - 1]) + Forwarded(signals[|signals| - 1])
  }

  /** Position packets go to the analyzer directly as well. */
  function Direct(msg: MonitorMsg): seq<WatchMsg> {
    match msg
    case Position(cs, distance, moving, copilot) => [TouchAircraft(cs)]
    case AtcPosition(cs) => [TouchAtc(cs)]
    case _ => []
  }

  function HandleWatch(s: System, msg: WatchMsg): System {
    match msg
    case TouchAircraft(cs) => s.(watch := W.TouchAircraft(s.watch, cs, s.now))
    case TouchAtc(cs) => s.(watch := W.TouchAtc(s.watch, cs, s.now))
    case DropAircraft(cs) => s.(watch := W.RemoveAircraft(s.watch, cs))
    case DropAtc(cs) => s.(watch := W.RemoveAtc(s.watch, cs))
    case GoOnline => s.(checking := true)
    case GoOffline => s.(watch := W.Clear(s.watch), checking := false)
  }

  function Timeouts(aircraft: seq<Callsign>, atc: seq<Callsign>): (msgs: seq<MonitorMsg>)
    ensures forall cs :: AircraftTimeout(cs) in msgs <==> cs in aircraft
    ensures forall msg :: msg in msgs ==> msg.AircraftTimeout? || msg.AtcTimeout?
  {
    var a := seq(|aircraft|, i requires 0 <= i < |aircraft| => AircraftTimeout(aircraft[i]));
    var b := seq(|atc|, i requires 0 <= i < |atc| => AtcTimeout(atc[i]));
    assert forall i :: 0 <= i < |aircraft| ==> a[i] == AircraftTimeout(aircraft[i]) && (a + b)[i] == a[i];
    assert forall cs | cs in aircraft :: AircraftTimeout(cs) in a + b by {
      forall cs | cs in aircraft
        ensures AircraftTimeout(cs) in a + b
      {
        var i :| 0 <= i < |aircraft| && aircraft[i] == cs;
        assert (a + b)[i] == AircraftTimeout(cs);
      }
    }
    a + b
  }

  ghost function Step(s: System, e: Event): System
    requires Enabled(s, e)
  {
    var o := MonitorStep(s, e);
    var q := s.watchInbox + ForAnalyzer(o.signals);
    match e
    case Advance(to) => s.(now := to)
    case Receive(msg) => s.(inbox := s.inbox + [msg], watchInbox := s.watchInbox + Direct(msg))
    case Connect => s.(connected := true, watchInbox := s.watchInbox + [GoOnline])
    case Disconnect =>
      s.(connected := false, inbox := s.inbox + [Disconnected], watchInbox := s.watchInbox + [GoOffline])
    case MonitorTakes(order) => s.(mon := o.mon, inbox := s.inbox[1..], watchInbox := q)
    case TimerFires(timer, lookup) => s.(mon := o.mon, watchInbox := q)
    case ReInitialize(order) => s.(mon := o.mon, watchInbox := q)
    case SetMaxRange(rangeNM) => s.(mon := o.mon)
    case AnalyzerTakes => HandleWatch(s.(watchInbox := s.watchInbox[1..]), s.watchInbox[0])
    case AnalyzerChecks(aircraft, atc) =>
      s.(watch := W.Checked(s.watch, s.now), inbox := s.inbox + Timeouts(aircraft, atc))
    case EnableWatchdog(enabled) => s.(watch := s.watch.(enabled := enabled))
  }

  /** `states` is a run under `events`: state k+1 follows from state k by event k. */
  ghost predicate IsRun(states: seq<System>, events: seq<Event>) {
    && |states| == |events| + 1
    && forall k {:trigger events[k]} :: 0 <= k < |events| ==>
        Enabled(states[k], events[k]) && states[k + 1] == Step(states[k], events[k])
  }

  /** A run from the start of the program. */
  ghost predicate IsExecution(states: seq<System>, events: seq<Event>) {
    && IsRun(states, events)
    && states[0].now >= 0
    && states[0] == Start(states[0].now)
  }

  ghost function Signals(s: System, e: Event): seq<Signal>
    requires Enabled(s, e)
  {
    MonitorStep(s, e).signals
  }

  /** The main thread still has to handle a lost connection. */
  predicate ClearPending(s: System) {
    Disconnected in s.inbox
  }
}
