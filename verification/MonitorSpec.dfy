/** The airspace monitor as a value: what each of its slots makes of the aircraft in range, the readiness
    records, the stored FsInn packets and the pending single-shot timers, and which signals it emits. */
module MonitorSpec {
  import opened Common
  import opened Readiness

  const CHECK_AGAIN_MS := 2000
  const MAX_AGE_MS := 6000               // 3 * check again
  const MAX_AGE_THRESHOLD_MS := 20000    // 10 * check again
  const VERIFY_MS := 24000               // 12 * check again
  const REINIT_STEP_MS := 25
  const MAX_SITUATIONS := 50
  const VATSIM_RANGE_NM := 125

  /** What is known of the model of an aircraft in range. */
  datatype Aircraft = Aircraft(hasModelString: bool, hasDbKey: bool)

  /** Stored situations of a callsign: how many, and whether the latest one has a velocity. */
  datatype Track = Track(count: nat, moving: bool)

  datatype Packet = Packet(modelString: string)

  /** Answers of the services a packet handler asks: the setting for model strings, whether the
      string is known, and the result of the reverse lookup. */
  datatype Lookup = Lookup(useModelStrings: bool, known: bool, model: Aircraft)

  /** `hop` and `origin` are book-keeping: the number of rechecks scheduled in the chain so far and the
      time the chain was started. */
  datatype Job =
    | Verify
    | Recheck(flag: Flag, hop: nat, origin: int)
    | ReAdd(aircraft: Aircraft)

  datatype Timer = Timer(due: int, cs: Callsign, job: Job)

  datatype Signal =
    | AddedSituation(cs: Callsign)
    | RemovedAircraft(cs: Callsign)
    | ReadyForMatching(cs: Callsign)
    | AtcOffline(cs: Callsign)
    | PilotQueries(cs: Callsign, withFsInn: bool)

  /** `maxNM < 0` switches the range restriction off. */
  datatype Monitor = Monitor(
    maxNM: int,
    hysteresisNM: int,
    inRange: map<Callsign, Aircraft>,
    tracks: map<Callsign, Track>,
    readiness: map<Callsign, Readiness>,
    fsInn: map<Callsign, Packet>,
    atcOnline: set<Callsign>,
    timers: multiset<Timer>)

  datatype Outcome = Outcome(mon: Monitor, signals: seq<Signal>)

  const INITIAL := Monitor(VATSIM_RANGE_NM, Hysteresis(VATSIM_RANGE_NM), map[], map[], map[], map[], {}, multiset{})

  /** round(1.1 * r) for r >= 0, halves rounded up. */
  function Hysteresis(r: int): int {
    (11 * r + 5) / 10
  }

  function SetMaxRange(m: Monitor, rangeNM: Option<nat>): Monitor {
    match rangeNM
    case None => m.(maxNM := -1, hysteresisNM := -1)
    case Some(r) => m.(maxNM := r, hysteresisNM := Hysteresis(r))
  }

  function Schedule(m: Monitor, t: Timer): Monitor {
    m.(timers := m.timers + multiset{t})
  }

  /** The record as `m_readiness[callsign]` yields it: a missing one is created. */
  function Record(m: Monitor, cs: Callsign): Readiness {
    if cs in m.readiness then m.readiness[cs] else NOT_READY
  }

  function SetRecord(m: Monitor, cs: Callsign, r: Readiness): Monitor {
    m.(readiness := m.readiness[cs := r])
  }

  /** In range and with a callsign that can be announced. */
  predicate Announceable(m: Monitor, cs: Callsign) {
    cs in m.inRange && IsValidAircraftCallsign(cs)
  }

  predicate HasMinSituations(m: Monitor, cs: Callsign) {
    cs in m.tracks && m.tracks[cs].count > 1
  }

  predicate Complete(m: Monitor, cs: Callsign, r: Readiness) {
    && Announceable(m, cs)
    && HasMinSituations(m, cs)
    && (r.ReceivedAllData() || m.inRange[cs].hasModelString)
  }

  /** Announce the aircraft if its data are complete or were waited for long enough. */
  function SendReady(m: Monitor, cs: Callsign, rf: Flag, now: int, connected: bool, hop: nat, origin: int): Outcome {
    if !connected then Outcome(m, [])
    else
      var r := Record(m, cs).AddFlag(rf, now);
      var flagged := SetRecord(m, cs, r);
      var age := r.AgeMs(now);
      if r.sent && age < MAX_AGE_THRESHOLD_MS then Outcome(flagged, [])
      else if rf != Verified && Announceable(m, cs) && age <= MAX_AGE_MS && !Complete(m, cs, r) then
        Outcome(Schedule(flagged, Timer(now + CHECK_AGAIN_MS, cs, Recheck(rf, hop + 1, origin))), [])
      else if Announceable(m, cs) then
        Outcome(SetRecord(m, cs, r.SetFlag(ReadyForMatchingSent, now)), [ReadyForMatching(cs)])
      else
        Outcome(m.(readiness := m.readiness - {cs}), [])
  }

  /** Network data only change the model of an aircraft without a DB model. */
  function UpdateAircraft(m: Monitor, cs: Callsign, found: Aircraft): Monitor {
    if Announceable(m, cs) && !m.inRange[cs].hasDbKey then
      m.(inRange := m.inRange[cs := Aircraft(found.hasModelString || m.inRange[cs].hasModelString, found.hasDbKey)])
    else m
  }

  function OnIcaoCodes(m: Monitor, cs: Callsign, lookup: Lookup, now: int, connected: bool): Outcome {
    if !connected || cs == "" || cs !in m.inRange then Outcome(m, [])
    else SendReady(UpdateAircraft(m, cs, lookup.model), cs, ReceivedIcaoCodes, now, connected, 0, now)
  }

  /** The model string of a packet counts only if enabled by the setup and known. */
  predicate UsesModelString(p: Packet, lookup: Lookup) {
    p.modelString != "" && lookup.useModelStrings && lookup.known
  }

  /** The monitor that an FsInn packet for an aircraft in range hands to the decision. */
  function WithFsInn(m: Monitor, cs: Callsign, p: Packet, lookup: Lookup, now: int): Monitor {
    var flagged := SetRecord(m, cs, Record(m, cs).AddFlag(ReceivedFsInnPacket, now));
    if UsesModelString(p, lookup) then UpdateAircraft(flagged, cs, lookup.model) else flagged
  }

  function OnFsInnPacket(m: Monitor, cs: Callsign, p: Packet, lookup: Lookup, now: int, connected: bool,
                         hop: nat, origin: int): Outcome
  {
    if cs == "" || !connected then Outcome(m, [])
    else if cs !in m.inRange && cs !in m.atcOnline then Outcome(m.(fsInn := m.fsInn[cs := p]), [])
    else if cs !in m.inRange then Outcome(m, [])
    else SendReady(WithFsInn(m, cs, p, lookup, now), cs, ReceivedFsInnPacket, now, connected, hop, origin)
  }

  /** A 2 s recheck: first look for a packet stored before the aircraft was known. */
  function OnRecheck(m: Monitor, cs: Callsign, flag: Flag, hop: nat, origin: int, lookup: Lookup,
                     now: int, connected: bool): Outcome
  {
    if cs !in m.inRange then Outcome(m, [])
    else if flag != ReceivedFsInnPacket && cs in m.fsInn then
      OnFsInnPacket(m.(fsInn := m.fsInn - {cs}), cs, m.fsInn[cs], lookup, now, connected, hop, origin)
    else SendReady(m, cs, RecursiveCall, now, connected, hop, origin)
  }

  function OnVerify(m: Monitor, cs: Callsign, now: int, connected: bool): Outcome {
    if cs == "" || cs !in m.inRange then Outcome(m, [])
    else
      var r := Record(m, cs);
      var present := SetRecord(m, cs, r);
      if r.sent then Outcome(present, [])
      else if r.verified then SendReady(present, cs, Verified, now, connected, 0, now)
      else
        var flagged := SetRecord(m, cs, r.AddFlag(Verified, now));
        if !r.icao then
          Outcome(Schedule(flagged, Timer(now + VERIFY_MS, cs, Verify)), if connected then [PilotQueries(cs, true)]
              else [])
        else SendReady(flagged, cs, Verified, now, connected, 0, now)
  }

  /** Adding an aircraft that is already there does nothing. */
  function AddAircraft(m: Monitor, cs: Callsign, aircraft: Aircraft, now: int): Monitor {
    if cs in m.inRange then m
    else Schedule(m.(inRange := m.inRange[cs := aircraft]), Timer(now + VERIFY_MS, cs, Verify))
  }

  /** Forget the aircraft and its situations, as the provider base class does; no signal is emitted. */
  function DropAircraft(m: Monitor, cs: Callsign): Monitor {
    m.(inRange := m.inRange - {cs}, tracks := m.tracks - {cs})
  }

  /** A position beyond the hysteresis limit expels an aircraft; `None` is a null position. */
  predicate Expels(m: Monitor, distance: Option<int>) {
    distance.Some? && m.maxNM >= 0 && distance.value > m.hysteresisNM
  }

  predicate Admits(m: Monitor, distance: Option<int>) {
    && distance.Some?
    && (m.maxNM >= 0 ==> distance.value <= m.hysteresisNM && distance.value <= m.maxNM)
  }

  predicate HasSituations(m: Monitor, cs: Callsign) {
    cs in m.tracks && m.tracks[cs].count > 0
  }

  /** Storing a situation is announced, except that a situation without velocity never follows one with. */
  function StoreSituation(m: Monitor, cs: Callsign, moving: bool): Outcome {
    if !HasSituations(m, cs) then
      Outcome(m.(tracks := m.tracks[cs := Track(MAX_SITUATIONS, moving)]), [AddedSituation(cs)])
    else if !moving && m.tracks[cs].moving then Outcome(m, [])
    else
      var n := m.tracks[cs].count;
      Outcome(m.(tracks := m.tracks[cs := Track(if n < MAX_SITUATIONS then n + 1 else MAX_SITUATIONS, moving)]),
          [AddedSituation(cs)])
  }

  function OnPosition(m: Monitor, cs: Callsign, distance: Option<int>, moving: bool, copilot: bool,
                      now: int, connected: bool): Outcome
  {
    if !connected || copilot then Outcome(m, [])
    else
      var kept := if Expels(m, distance) then DropAircraft(m, cs) else m;
      if cs !in kept.inRange && !Admits(m, distance) then Outcome(kept, [])
      else
        var stored := StoreSituation(kept, cs, moving);
        if cs in kept.inRange then stored
        else Outcome(AddAircraft(stored.mon, cs, Aircraft(false, false), now),
                     stored.signals + [PilotQueries(cs, cs !in m.fsInn)])
  }

  /** Interim and visual positions refresh an aircraft that already has a full position. */
  function OnInterimPosition(m: Monitor, cs: Callsign, moving: bool, copilot: bool, connected: bool): Outcome {
    if !connected || copilot || cs !in m.inRange || !HasSituations(m, cs) then Outcome(m, [])
    else StoreSituation(m, cs, moving)
  }

  function OnPilotDisconnected(m: Monitor, cs: Callsign): Outcome {
    var forgotten := if cs == "" then m else m.(readiness := m.readiness - {cs});
    Outcome(DropAircraft(forgotten, cs), if cs in m.inRange then [RemovedAircraft(cs)] else [])
  }

  function OnAtcPosition(m: Monitor, cs: Callsign, connected: bool): Outcome {
    Outcome(if connected then m.(atcOnline := m.atcOnline + {cs}) else m, [])
  }

  function OnAtcDisconnected(m: Monitor, cs: Callsign, connected: bool): Outcome {
    if connected && cs in m.atcOnline then Outcome(m.(atcOnline := m.atcOnline - {cs}), [AtcOffline(cs)])
    else Outcome(m, [])
  }

  function Removals(order: seq<Callsign>): (signals: seq<Signal>)
    ensures |signals| == |order| && forall i :: 0 <= i < |order| ==> signals[i] == RemovedAircraft(order[i])
  {
    seq(|order|, i requires 0 <= i < |order| => RemovedAircraft(order[i]))
  }

  /** Everything is cleared when the network is gone; `order` lists the aircraft as they are signalled. */
  function OnDisconnected(m: Monitor, order: seq<Callsign>): Outcome {
    Outcome(m.(inRange := map[], tracks := map[], readiness := map[], fsInn := map[], atcOnline := {}), Removals(order))
  }

  /** One timer per aircraft, 25 ms apart. */
  function ReAddTimers(inRange: map<Callsign, Aircraft>, order: seq<Callsign>, now: int): multiset<Timer>
    requires forall cs :: cs in order ==> cs in inRange
  {
    if order == [] then multiset{}
    else
      ReAddTimers(inRange, order[..|order| - 1], now)
      + multiset{Timer(now + REINIT_STEP_MS * |order|, order[|order| - 1], ReAdd(inRange[order[|order| - 1]]))}
  }

  /** All aircraft are removed now and added again one by one later. */
  function ReInitialize(m: Monitor, order: seq<Callsign>, now: int): Outcome
    requires forall cs :: cs in order ==> cs in m.inRange
  {
    Outcome(m.(inRange := map[], tracks := map[], timers := m.timers + ReAddTimers(m.inRange, order, now)),
        Removals(order))
  }

  function OnReAdd(m: Monitor, cs: Callsign, aircraft: Aircraft, now: int, connected: bool): Outcome {
    var added := AddAircraft(m, cs, aircraft, now);
    SendReady(added.(readiness := added.readiness - {cs}), cs, ReceivedAll, now, connected, 0, now)
  }

  /** The callback of a timer that has just been taken off the pending ones. */
  function OnTimer(m: Monitor, t: Timer, lookup: Lookup, now: int, connected: bool): Outcome {
    match t.job
    case Verify => OnVerify(m, t.cs, now, connected)
    case Recheck(flag, hop, origin) => OnRecheck(m, t.cs, flag, hop, origin, lookup, now, connected)
    case ReAdd(aircraft) => OnReAdd(m, t.cs, aircraft, now, connected)
  }
}
