/** The airspace monitor with its fields updated in place. Every slot returns the signals it emits, in order;
    `connected` and `now` are the connection status and the clock at the time of the call. */
module AirspaceMonitor {
  import opened Common
  import opened Readiness
  import Spec = MonitorSpec

  class CAirspaceMonitor {
    var maxDistanceNM: int
    var maxDistanceNMHysteresis: int
    var aircraftInRange: map<Callsign, Spec.Aircraft>
    var situations: map<Callsign, Spec.Track>
    var readiness: map<Callsign, Readiness>
    var tempFsInnPackets: map<Callsign, Spec.Packet>
    var atcStationsOnline: set<Callsign>
    var singleShots: multiset<Spec.Timer>

    ghost function Value(): Spec.Monitor
      reads this
    {
      Spec.Monitor(maxDistanceNM, maxDistanceNMHysteresis, aircraftInRange, situations, readiness,
                   tempFsInnPackets, atcStationsOnline, singleShots)
    }

    constructor ()
      ensures Value() == Spec.INITIAL
    {
      maxDistanceNM, maxDistanceNMHysteresis := 125, Spec.Hysteresis(125);
      aircraftInRange, situations, readiness, tempFsInnPackets := map[], map[], map[], map[];
      atcStationsOnline, singleShots := {}, multiset{};
    }

    method SetMaxRange(rangeNM: Option<nat>)
      modifies this
      ensures Value() == Spec.SetMaxRange(old(Value()), rangeNM)
    {
      if rangeNM.None? {
        maxDistanceNM := -1;
        maxDistanceNMHysteresis := -1;
        return;
      }
      maxDistanceNM := rangeNM.value;
      maxDistanceNMHysteresis := Spec.Hysteresis(rangeNM.value);
    }

    method SingleShot(delayMs: int, cs: Callsign, job: Spec.Job, now: int)
      modifies this`singleShots
      ensures singleShots == old(singleShots) + multiset{Spec.Timer(now + delayMs, cs, job)}
    {
      singleShots := singleShots + multiset{Spec.Timer(now + delayMs, cs, job)};
    }

    /** `m_readiness[callsign]`: creates a missing record. */
    method AddMatchingReadinessFlag(cs: Callsign, flag: Flag, now: int) returns (record: Readiness)
      modifies this`readiness
      ensures record == Spec.Record(old(Value()), cs).AddFlag(flag, now)
      ensures readiness == old(readiness)[cs := record]
    {
      if cs !in readiness { readiness := readiness[cs := NOT_READY]; }
      record := readiness[cs].AddFlag(flag, now);
      readiness := readiness[cs := record];
    }

    method SendReadyForModelMatching(cs: Callsign, rf: Flag, now: int, connected: bool, hop: nat, origin: int)
      returns (signals: seq<Spec.Signal>)
      modifies this
      ensures Spec.Outcome(Value(), signals) == Spec.SendReady(old(Value()), cs, rf, now, connected, hop, origin)
    {
      ghost var before := Value();
      signals := [];
      if !connected { return; }
      var record := AddMatchingReadinessFlag(cs, rf, now);
      ghost var flagged := Spec.SetRecord(before, cs, record);
      assert Value() == flagged;
      DecisionTable(before, cs, rf, now, hop, origin);
      var age := record.AgeMs(now);
      if record.sent && age < Spec.MAX_AGE_THRESHOLD_MS { return; }

      var wait, valid := NeedsMoreData(cs, record, rf, age);
      if wait {
        SingleShot(Spec.CHECK_AGAIN_MS, cs, Spec.Recheck(rf, hop + 1, origin), now);
        assert Value()
            == Spec.Schedule(flagged, Spec.Timer(now + Spec.CHECK_AGAIN_MS, cs, Spec.Recheck(rf, hop + 1, origin)));
        return;
      }
      signals := AnnounceOrForget(cs, valid, now);
    }

    /** Whether to wait for further data, and whether the aircraft can be announced at all. */
    method NeedsMoreData(cs: Callsign, record: Readiness, rf: Flag, age: int) returns (wait: bool, valid: bool)
      ensures valid == Spec.Announceable(Value(), cs) && wait == Waits(Value(), cs, record, rf, age)
    {
      valid := cs in aircraftInRange && IsValidAircraftCallsign(cs);
      var minSituations := cs in situations && situations[cs].count > 1;
      var complete := valid && minSituations && (record.ReceivedAllData() || aircraftInRange[cs].hasModelString);
      wait := rf != Verified && valid && age <= Spec.MAX_AGE_MS && !complete;
    }

    /** The end of the decision: the aircraft is announced, or its record removed. */
    method AnnounceOrForget(cs: Callsign, valid: bool, now: int) returns (signals: seq<Spec.Signal>)
      requires cs in readiness
      modifies this`readiness
      ensures readiness == if valid then old(readiness)[cs := old(readiness)[cs].SetFlag(ReadyForMatchingSent, now)]
              else old(readiness) - {cs}
      ensures signals == if valid then [Spec.ReadyForMatching(cs)] else []
    {
      if valid {
        readiness := readiness[cs := readiness[cs].SetFlag(ReadyForMatchingSent, now)];
        return [Spec.ReadyForMatching(cs)];
      }
      readiness := readiness - {cs};
      signals := [];
    }

    method AddOrUpdateAircraftInRange(cs: Callsign, found: Spec.Aircraft)
      modifies this`aircraftInRange
      ensures Value() == Spec.UpdateAircraft(old(Value()), cs, found)
    {
      if cs in aircraftInRange && IsValidAircraftCallsign(cs) {
        var aircraft := aircraftInRange[cs];
        if !aircraft.hasDbKey {
          aircraftInRange := aircraftInRange[cs := Spec.Aircraft(found.hasModelString || aircraft.hasModelString,
              found.hasDbKey)];
        }
      }
    }

    method OnIcaoCodesReceived(cs: Callsign, lookup: Spec.Lookup, now: int, connected: bool)
      returns (signals: seq<Spec.Signal>)
      modifies this
      ensures Spec.Outcome(Value(), signals) == Spec.OnIcaoCodes(old(Value()), cs, lookup, now, connected)
    {
      if !connected || cs == "" || cs !in aircraftInRange { return []; }
      AddOrUpdateAircraftInRange(cs, lookup.model);
      signals := SendReadyForModelMatching(cs, ReceivedIcaoCodes, now, connected, 0, now);
    }

    method OnCustomFSInnPacketReceived(cs: Callsign, packet: Spec.Packet, lookup: Spec.Lookup, now: int,
                                       connected: bool, hop: nat, origin: int)
      returns (signals: seq<Spec.Signal>)
      modifies this
      ensures Spec.Outcome(Value(), signals)
              == Spec.OnFsInnPacket(old(Value()), cs, packet, lookup, now, connected, hop, origin)
    {
      if cs == "" || !connected { return []; }
      var isAircraft := cs in aircraftInRange;
      var isAtc := cs in atcStationsOnline;
      if !isAircraft && !isAtc {
        tempFsInnPackets := tempFsInnPackets[cs := packet];
        return [];
      }
      signals := [];
      if isAircraft {
        var _ := AddMatchingReadinessFlag(cs, ReceivedFsInnPacket, now);
        var usedModelString := packet.modelString;
        if packet.modelString != "" && !lookup.useModelStrings {
          usedModelString := "";
        } else if !lookup.known {
          usedModelString := "";
        }
        if usedModelString != "" { AddOrUpdateAircraftInRange(cs, lookup.model); }
        signals := SendReadyForModelMatching(cs, ReceivedFsInnPacket, now, connected, hop, origin);
      }
    }

    method RecallFsInnPacket(cs: Callsign, lookup: Spec.Lookup, now: int, connected: bool, hop: nat, origin: int)
      returns (recalled: bool, signals: seq<Spec.Signal>)
      modifies this
      ensures recalled <==> cs in old(tempFsInnPackets)
      ensures if recalled then
                var m := old(Value());
                Spec.Outcome(Value(), signals)
                == Spec.OnFsInnPacket(m.(fsInn := m.fsInn - {cs}), cs, m.fsInn[cs], lookup, now, connected, hop, origin)
              else Value() == old(Value()) && signals == []
    {
      if cs !in tempFsInnPackets { return false, []; }
      var packet := tempFsInnPackets[cs];
      tempFsInnPackets := tempFsInnPackets - {cs};
      signals := OnCustomFSInnPacketReceived(cs, packet, lookup, now, connected, hop, origin);
      recalled := true;
    }

    /** The callback of the 2 s timer. */
    method OnRecheckTimer(cs: Callsign, flag: Flag, lookup: Spec.Lookup, now: int, connected: bool, hop: nat,
                          origin: int)
      returns (signals: seq<Spec.Signal>)
      modifies this
      ensures Spec.Outcome(Value(), signals)
              == Spec.OnRecheck(old(Value()), cs, flag, hop, origin, lookup, now, connected)
    {
      if cs !in aircraftInRange { return []; }
      if flag != ReceivedFsInnPacket {
        var recalled;
        recalled, signals := RecallFsInnPacket(cs, lookup, now, connected, hop, origin);
        if recalled { return; }
      }
      signals := SendReadyForModelMatching(cs, RecursiveCall, now, connected, hop, origin);
    }

    method VerifyReceivedIcaoData(cs: Callsign, now: int, connected: bool) returns (signals: seq<Spec.Signal>)
      modifies this
      ensures Spec.Outcome(Value(), signals) == Spec.OnVerify(old(Value()), cs, now, connected)
    {
      signals := [];
      if cs == "" || cs !in aircraftInRange { return; }
      ghost var before := Value();
      if cs !in readiness { readiness := readiness[cs := NOT_READY]; }
      var record := readiness[cs];
      ghost var present := Spec.SetRecord(before, cs, record);
      assert Value() == present;
      if record.sent { return; }
      if record.verified {
        signals := SendReadyForModelMatching(cs, Verified, now, connected, 0, now);
        return;
      }
      record := AddMatchingReadinessFlag(cs, Verified, now);
      ghost var flagged := Spec.SetRecord(before, cs, record);
      assert Value() == flagged by { assert readiness == flagged.readiness; }
      if !record.icao {
        if connected { signals := [Spec.PilotQueries(cs, true)]; }
        SingleShot(Spec.VERIFY_MS, cs, Spec.Verify, now);
        assert Value() == Spec.Schedule(flagged, Spec.Timer(now + Spec.VERIFY_MS, cs, Spec.Verify));
        return;
      }
      signals := SendReadyForModelMatching(cs, Verified, now, connected, 0, now);
    }

    method AddNewAircraftInRange(cs: Callsign, aircraft: Spec.Aircraft, now: int) returns (added: bool)
      modifies this
      ensures Value() == Spec.AddAircraft(old(Value()), cs, aircraft, now)
      ensures added <==> cs !in old(aircraftInRange)
    {
      if cs in aircraftInRange { return false; }
      aircraftInRange := aircraftInRange[cs := aircraft];
      SingleShot(Spec.VERIFY_MS, cs, Spec.Verify, now);
      added := true;
    }

    method RemoveAircraft(cs: Callsign) returns (removed: bool)
      modifies this`aircraftInRange, this`situations
      ensures Value() == Spec.DropAircraft(old(Value()), cs)
      ensures removed <==> cs in old(aircraftInRange)
    {
      situations := situations - {cs};
      removed := cs in aircraftInRange;
      aircraftInRange := aircraftInRange - {cs};
    }

    method HandleMaxRange(cs: Callsign, distance: Option<int>) returns (valid: bool)
      modifies this`aircraftInRange, this`situations
      ensures valid <==> Spec.Admits(old(Value()), distance)
      ensures Value() == if Spec.Expels(old(Value()), distance) then Spec.DropAircraft(old(Value()), cs)
              else old(Value())
    {
      if distance.None? { return false; }
      if maxDistanceNM < 0 { return true; }
      if distance.value > maxDistanceNMHysteresis {
        var _ := RemoveAircraft(cs);
        return false;
      }
      valid := distance.value <= maxDistanceNM;
    }

    method StoreAircraftSituation(cs: Callsign, moving: bool) returns (signals: seq<Spec.Signal>)
      modifies this`situations
      ensures Spec.Outcome(Value(), signals) == Spec.StoreSituation(old(Value()), cs, moving)
    {
      var count := if cs in situations then situations[cs].count else 0;
      if count < 1 {
        situations := situations[cs := Spec.Track(Spec.MAX_SITUATIONS, moving)];
      } else if !moving && situations[cs].moving {
        return [];
      } else {
        situations := situations[cs := Spec.Track(if count < Spec.MAX_SITUATIONS then count + 1
            else Spec.MAX_SITUATIONS, moving)];
      }
      signals := [Spec.AddedSituation(cs)];
    }

    method OnAircraftUpdateReceived(cs: Callsign, distance: Option<int>, moving: bool, copilot: bool, now: int,
                                    connected: bool)
      returns (signals: seq<Spec.Signal>)
      modifies this
      ensures Spec.Outcome(Value(), signals)
              == Spec.OnPosition(old(Value()), cs, distance, moving, copilot, now, connected)
    {
      if !connected || copilot { return []; }
      var validMaxRange := HandleMaxRange(cs, distance);
      var existsInRange := cs in aircraftInRange;
      if !validMaxRange && !existsInRange { return []; }
      signals := StoreAircraftSituation(cs, moving);
      if !existsInRange && validMaxRange {
        var hasFsInnPacket := cs in tempFsInnPackets;
        var _ := AddNewAircraftInRange(cs, Spec.Aircraft(false, false), now);
        signals := signals + [Spec.PilotQueries(cs, !hasFsInnPacket)];
      }
    }

    method OnAircraftInterimUpdateReceived(cs: Callsign, moving: bool, copilot: bool, connected: bool)
      returns (signals: seq<Spec.Signal>)
      modifies this
      ensures Spec.Outcome(Value(), signals) == Spec.OnInterimPosition(old(Value()), cs, moving, copilot, connected)
    {
      if !connected || copilot || cs !in aircraftInRange { return []; }
      if cs !in situations || situations[cs].count == 0 { return []; }
      signals := StoreAircraftSituation(cs, moving);
    }

    method OnPilotDisconnected(cs: Callsign) returns (signals: seq<Spec.Signal>)
      modifies this
      ensures Spec.Outcome(Value(), signals) == Spec.OnPilotDisconnected(old(Value()), cs)
    {
      if cs != "" { readiness := readiness - {cs}; }
      var removed := RemoveAircraft(cs);
      signals := if removed then [Spec.RemovedAircraft(cs)] else [];
    }

    method OnAtcPositionUpdate(cs: Callsign, connected: bool) returns (signals: seq<Spec.Signal>)
      modifies this
      ensures Spec.Outcome(Value(), signals) == Spec.OnAtcPosition(old(Value()), cs, connected)
    {
      signals := [];
      if !connected { return; }
      if cs !in atcStationsOnline {
        atcStationsOnline := atcStationsOnline + {cs};
      } else {
        assert atcStationsOnline + {cs} == atcStationsOnline;
      }
    }

    method OnAtcControllerDisconnected(cs: Callsign, connected: bool) returns (signals: seq<Spec.Signal>)
      modifies this
      ensures Spec.Outcome(Value(), signals) == Spec.OnAtcDisconnected(old(Value()), cs, connected)
    {
      signals := [];
      if !connected { return; }
      if cs in atcStationsOnline {
        atcStationsOnline := atcStationsOnline - {cs};
        signals := [Spec.AtcOffline(cs)];
      }
    }

    /** Removes all aircraft and reports each of them; `order` is the order of the reports. */
    method RemoveAllAircraft() returns (signals: seq<Spec.Signal>, order: seq<Callsign>)
      modifies this`aircraftInRange, this`situations
      ensures aircraftInRange == map[] && situations == map[]
      ensures Enumerates(order, old(aircraftInRange).Keys) && signals == Spec.Removals(order)
    {
      var callsigns := aircraftInRange.Keys;
      ghost var all := callsigns;
      aircraftInRange, situations := map[], map[];
      signals, order := [], [];
      while callsigns != {}
        invariant callsigns <= all
        invariant Enumerates(order, all - callsigns)
        invariant signals == Spec.Removals(order)
        decreases callsigns
      {
        var cs :| cs in callsigns;
        callsigns := callsigns - {cs};
        order := order + [cs];
        signals := signals + [Spec.RemovedAircraft(cs)];
      }
    }

    /** The connection is lost. */
    method Clear() returns (signals: seq<Spec.Signal>, order: seq<Callsign>)
      modifies this
      ensures Enumerates(order, old(aircraftInRange).Keys)
      ensures Spec.Outcome(Value(), signals) == Spec.OnDisconnected(old(Value()), order)
    {
      tempFsInnPackets := map[];
      readiness := map[];
      atcStationsOnline := {};
      signals, order := RemoveAllAircraft();
    }

    method ReInitializeAllAircraft(now: int) returns (signals: seq<Spec.Signal>, order: seq<Callsign>)
      modifies this
      ensures Enumerates(order, old(aircraftInRange).Keys)
      ensures Spec.Outcome(Value(), signals) == Spec.ReInitialize(old(Value()), order, now)
    {
      var aircraft := aircraftInRange;
      signals, order := RemoveAllAircraft();
      ScheduleReAdds(aircraft, order, now);
    }

    /** One single-shot timer per removed aircraft, 25 ms apart. */
    method ScheduleReAdds(aircraft: map<Callsign, Spec.Aircraft>, order: seq<Callsign>, now: int)
      requires forall cs :: cs in order ==> cs in aircraft
      modifies this`singleShots
      ensures singleShots == old(singleShots) + Spec.ReAddTimers(aircraft, order, now)
    {
      var c := 0;
      while c < |order|
        invariant 0 <= c <= |order|
        invariant singleShots == old(singleShots) + Spec.ReAddTimers(aircraft, order[..c], now)
      {
        assert order[..c + 1][..c] == order[..c];
        c := c + 1;
        SingleShot(c * Spec.REINIT_STEP_MS, order[c - 1], Spec.ReAdd(aircraft[order[c - 1]]), now);
      }
      assert order[..c] == order;
    }

    /** The callback of a re-initialisation timer. */
    method OnReAddTimer(cs: Callsign, aircraft: Spec.Aircraft, now: int, connected: bool)
      returns (signals: seq<Spec.Signal>)
      modifies this
      ensures Spec.Outcome(Value(), signals) == Spec.OnReAdd(old(Value()), cs, aircraft, now, connected)
    {
      var _ := AddNewAircraftInRange(cs, aircraft, now);
      readiness := readiness - {cs};
      signals := SendReadyForModelMatching(cs, ReceivedAll, now, connected, 0, now);
    }
  }

  predicate Waits(m: Spec.Monitor, cs: Callsign, r: Readiness, rf: Flag, age: int) {
    rf != Verified && Spec.Announceable(m, cs) && age <= Spec.MAX_AGE_MS && !Spec.Complete(m, cs, r)
  }

  /** The decision, with everything read from the monitor whose record already has the new flag. */
  lemma DecisionTable(m: Spec.Monitor, cs: Callsign, rf: Flag, now: int, hop: nat, origin: int)
    ensures var r := Spec.Record(m, cs).AddFlag(rf, now);
            var flagged := Spec.SetRecord(m, cs, r);
            Spec.SendReady(m, cs, rf, now, true, hop, origin)
            == if r.sent && r.AgeMs(now) < Spec.MAX_AGE_THRESHOLD_MS then Spec.Outcome(flagged, [])
               else if Waits(flagged, cs, r, rf, r.AgeMs(now)) then
                 Spec.Outcome(Spec.Schedule(flagged,
                     Spec.Timer(now + Spec.CHECK_AGAIN_MS, cs, Spec.Recheck(rf, hop + 1, origin))), [])
               else if Spec.Announceable(flagged, cs) then
                 Spec.Outcome(flagged.(readiness := flagged.readiness[cs := r.SetFlag(ReadyForMatchingSent, now)]),
                     [Spec.ReadyForMatching(cs)])
               else Spec.Outcome(flagged.(readiness := flagged.readiness - {cs}), [])
  {
    var r := Spec.Record(m, cs).AddFlag(rf, now);
    assert Spec.SetRecord(m, cs, r).readiness - {cs} == m.readiness - {cs};
  }
}
