/** The per-callsign record that decides when an aircraft is announced for model matching. */
module Readiness {

  datatype Flag =
    | ReceivedIcaoCodes
    | ReceivedFsInnPacket
    | ReadyForMatchingSent
    | RecursiveCall
    | ReceivedAll          // ICAO codes and FsInn packet at once
    | Verified

  /** `ts` is the time of the first flag, negative while there was none. */
  datatype Readiness = Readiness(ts: int, icao: bool, fsInn: bool, sent: bool, verified: bool) {

    predicate HasAnyFlag() {
      icao || fsInn || sent || verified
    }

    predicate Started() {
      ts >= 0
    }

    predicate ReceivedAllData() {
      icao && fsInn
    }

    function AgeMs(now: int): int {
      if ts < 0 then -1 else now - ts
    }

    /** Adds a flag and starts the clock; a recursive call leaves the record alone. */
    function AddFlag(flag: Flag, now: int): (r: Readiness)
      ensures flag != RecursiveCall && now >= 0 ==> r.Started() && r.HasAnyFlag()
      ensures Started() ==> r.ts == ts
      ensures (icao ==> r.icao) && (fsInn ==> r.fsInn) && (sent ==> r.sent) && (verified ==> r.verified)
    {
      if flag == RecursiveCall then this
      else
        Readiness(
          if ts < 0 then now else ts,
          icao || flag == ReceivedIcaoCodes || flag == ReceivedAll,
          fsInn || flag == ReceivedFsInnPacket || flag == ReceivedAll,
          sent || flag == ReadyForMatchingSent,
          verified || flag == Verified)
    }

    /** Replaces all flags by one; the clock keeps running. */
    function SetFlag(flag: Flag, now: int): Readiness {
      if flag == RecursiveCall then this
      else this.(icao := false, fsInn := false, sent := false, verified := false).AddFlag(flag, now)
    }
  }

  const NOT_READY := Readiness(-1, false, false, false, false)
}
