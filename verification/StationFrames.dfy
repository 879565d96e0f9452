/** Which activities of the monitor concern ATC stations. */
module StationFrames {
  import opened Common
  import opened MonitorSpec
  import opened Airspace
  import opened EvaluationFrames

  /** The stations online are the same, and none is signalled to have gone. */
  ghost predicate KeepsStations(m: Monitor, o: Outcome) {
    o.mon.atcOnline == m.atcOnline && forall cs :: AtcOffline(cs) !in o.signals
  }

  lemma TimerKeepsStations(m: Monitor, t: Timer, lookup: Lookup, now: int, connected: bool)
    ensures KeepsStations(m, OnTimer(m, t, lookup, now, connected))
  {
    if t.job.ReAdd? {
      ReAddEvaluates(m, t.cs, t.job.aircraft, now, connected);
    } else {
      TimerEvaluates(m, t, lookup, now, connected);
    }
  }

  lemma PositionKeepsStations(m: Monitor, cs: Callsign, distance: Option<int>, moving: bool, copilot: bool, now: int,
                              connected: bool)
    ensures KeepsStations(m, OnPosition(m, cs, distance, moving, copilot, now, connected))
  {
    var kept := if Expels(m, distance) then MonitorSpec.DropAircraft(m, cs) else m;
    var stored := StoreSituation(kept, cs, moving);
    assert KeepsStations(m, stored);
    assert AddAircraft(stored.mon, cs, Aircraft(false, false), now).atcOnline == m.atcOnline;
  }

  lemma InterimKeepsStations(m: Monitor, cs: Callsign, moving: bool, copilot: bool, connected: bool)
    ensures KeepsStations(m, OnInterimPosition(m, cs, moving, copilot, connected))
  {
  }

  /** The messages that are about stations. */
  predicate ConcernsStations(msg: MonitorMsg) {
    msg.AtcPosition? || msg.AtcDisconnected? || msg.AtcTimeout? || msg.Disconnected?
  }

  lemma HandlingKeepsStations(m: Monitor, msg: MonitorMsg, order: seq<Callsign>, now: int, connected: bool)
    requires !ConcernsStations(msg)
    ensures KeepsStations(m, Handle(m, msg, order, now, connected))
  {
    match msg
    case Position(cs, distance, moving, copilot) =>
      PositionKeepsStations(m, cs, distance, moving, copilot, now, connected);
    case InterimPosition(cs, moving, copilot) => InterimKeepsStations(m, cs, moving, copilot, connected);
    case IcaoCodes(cs, lookup) => IcaoCodesEvaluate(m, cs, lookup, now, connected);
    case FsInnPacket(cs, packet, lookup) => FsInnPacketEvaluates(m, cs, packet, lookup, now, connected, 0, now);
    case _ =>
  }

  lemma StationsChangeByMessage(s: System, e: Event)
    requires Enabled(s, e) && !(e.MonitorTakes? && ConcernsStations(s.inbox[0]))
    ensures KeepsStations(s.mon, MonitorStep(s, e)) && Step(s, e).mon.atcOnline == s.mon.atcOnline
  {
    if e.MonitorTakes? {
      HandlingKeepsStations(s.mon, s.inbox[0], e.order, s.now, s.connected);
    } else if e.TimerFires? {
      var taken := s.mon.(timers := s.mon.timers - multiset{e.timer});
      TimerKeepsStations(taken, e.timer, e.lookup, s.now, s.connected);
    }
  }
}
