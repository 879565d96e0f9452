/** Evaluating the readiness of an aircraft changes no aircraft, situation or station, and reports nobody lost. */
module EvaluationFrames {
  import opened Common
  import opened MonitorSpec
  import opened Readiness

  /** What an evaluation for `cs` leaves alone, and what it may signal and schedule. */
  ghost predicate Evaluates(m: Monitor, o: Outcome, cs: Callsign) {
    && o.mon.inRange.Keys == m.inRange.Keys && o.mon.tracks == m.tracks && o.mon.atcOnline == m.atcOnline
    && (forall t :: t in o.mon.timers ==> t in m.timers || (t.cs == cs && !t.job.ReAdd?))
    && (forall signal :: signal in o.signals ==> signal == ReadyForMatching(cs) || signal == PilotQueries(cs, true))
  }

  lemma SendReadyEvaluates(m: Monitor, cs: Callsign, rf: Flag, now: int, connected: bool, hop: nat, origin: int)
    ensures Evaluates(m, SendReady(m, cs, rf, now, connected, hop, origin), cs)
  {
  }

  lemma IcaoCodesEvaluate(m: Monitor, cs: Callsign, lookup: Lookup, now: int, connected: bool)
    ensures Evaluates(m, OnIcaoCodes(m, cs, lookup, now, connected), cs)
  {
    SendReadyEvaluates(UpdateAircraft(m, cs, lookup.model), cs, ReceivedIcaoCodes, now, connected, 0, now);
  }

  lemma FsInnPacketEvaluates(m: Monitor, cs: Callsign, p: Packet, lookup: Lookup, now: int, connected: bool, hop: nat,
                             origin: int)
    ensures Evaluates(m, OnFsInnPacket(m, cs, p, lookup, now, connected, hop, origin), cs)
  {
    if cs in m.inRange {
      SendReadyEvaluates(WithFsInn(m, cs, p, lookup, now), cs, ReceivedFsInnPacket, now, connected, hop, origin);
    }
  }

  lemma VerificationEvaluates(m: Monitor, cs: Callsign, now: int, connected: bool)
    ensures Evaluates(m, OnVerify(m, cs, now, connected), cs)
  {
    var r := Record(m, cs);
    SendReadyEvaluates(SetRecord(m, cs, r), cs, Verified, now, connected, 0, now);
    SendReadyEvaluates(SetRecord(m, cs, r.AddFlag(Verified, now)), cs, Verified, now, connected, 0, now);
  }

  lemma TimerEvaluates(m: Monitor, t: Timer, lookup: Lookup, now: int, connected: bool)
    requires !t.job.ReAdd?
    ensures Evaluates(m, OnTimer(m, t, lookup, now, connected), t.cs)
  {
    match t.job
    case Verify => VerificationEvaluates(m, t.cs, now, connected);
    case Recheck(flag, hop, origin) =>
      if t.cs in m.fsInn {
        var recalled := m.(fsInn := m.fsInn - {t.cs});
        FsInnPacketEvaluates(recalled, t.cs, m.fsInn[t.cs], lookup, now, connected, hop, origin);
      }
      SendReadyEvaluates(m, t.cs, RecursiveCall, now, connected, hop, origin);
  }

  /** A re-initialisation timer evaluates after it has added the aircraft. */
  lemma ReAddEvaluates(m: Monitor, cs: Callsign, aircraft: Aircraft, now: int, connected: bool)
    ensures Evaluates(AddAircraft(m, cs, aircraft, now), OnReAdd(m, cs, aircraft, now, connected), cs)
  {
    var added := AddAircraft(m, cs, aircraft, now);
    SendReadyEvaluates(added.(readiness := added.readiness - {cs}), cs, ReceivedAll, now, connected, 0, now);
  }
}
