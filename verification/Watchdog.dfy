/** The watchdog inside the airspace analyzer, as a value: who was heard of when,
    and what one periodic check makes of it. */
module Watchdog {
  import opened Common

  const UPDATE_INTERVAL_MS := 7500
  const CALL_THRESHOLD_MS := 3 * UPDATE_INTERVAL_MS / 2
  const AIRCRAFT_TIMEOUT_MS := 15000
  const ATC_TIMEOUT_MS := 50000
  const FAKE_MARGIN_MS := 1000           // head start given to entries of a disabled watchdog

  /** `lastCall` is the previous check, `holdUntil` the end of the grace period. */
  datatype Watch = Watch(
    aircraft: map<Callsign, int>,
    atc: map<Callsign, int>,
    lastCall: int,
    holdUntil: int,
    enabled: bool)

  function Started(now: int): Watch {
    Watch(map[], map[], now, -1, true)
  }

  function TouchAircraft(w: Watch, cs: Callsign, now: int): Watch {
    w.(aircraft := w.aircraft[cs := now])
  }

  function TouchAtc(w: Watch, cs: Callsign, now: int): Watch {
    w.(atc := w.atc[cs := now])
  }

  function RemoveAircraft(w: Watch, cs: Callsign): Watch {
    w.(aircraft := w.aircraft - {cs})
  }

  function RemoveAtc(w: Watch, cs: Callsign): Watch {
    w.(atc := w.atc - {cs})
  }

  function Clear(w: Watch): Watch {
    w.(aircraft := map[], atc := map[])
  }

  /** The check came too late after the previous one: the process was stopped. */
  predicate Stalled(w: Watch, now: int) {
    now - w.lastCall > CALL_THRESHOLD_MS
  }

  /** The check really looks at the stamps. */
  predicate Executes(w: Watch, now: int) {
    !Stalled(w, now) && w.holdUntil <= now
  }

  /** Entries not heard of for at least `timeout`. */
  function Stale(stamps: map<Callsign, int>, timeout: int, now: int): set<Callsign> {
    set cs | cs in stamps && stamps[cs] <= now - timeout
  }

  function ExpiredAircraft(w: Watch, now: int): set<Callsign> {
    if Executes(w, now) && w.enabled then Stale(w.aircraft, AIRCRAFT_TIMEOUT_MS, now) else {}
  }

  /** Stations expire whether or not the watchdog is enabled. */
  function ExpiredAtc(w: Watch, now: int): set<Callsign> {
    if Executes(w, now) then Stale(w.atc, ATC_TIMEOUT_MS, now) else {}
  }

  /** Every key of `keys` stamped so that it expires `FAKE_MARGIN_MS` from `now`. */
  function Faked(keys: set<Callsign>, timeout: int, now: int): map<Callsign, int> {
    map cs | cs in keys :: now - timeout + FAKE_MARGIN_MS
  }

  /** The state after one check. A disabled watchdog fakes fresh aircraft stamps, also for
      the stations it looks at (airspaceanalyzer.cpp writes the aircraft map there). */
  function Checked(w: Watch, now: int): Watch {
    if Stalled(w, now) then
      w.(lastCall := now, holdUntil := now + 2 * CALL_THRESHOLD_MS)
    else if w.holdUntil > now then
      w.(lastCall := now)
    else
      w.(lastCall := now, holdUntil := -1,
         aircraft :=
           if w.enabled then w.aircraft - ExpiredAircraft(w, now)
           else Faked(w.aircraft.Keys, AIRCRAFT_TIMEOUT_MS, now)
                + Faked(w.atc.Keys, ATC_TIMEOUT_MS, now),
         atc := w.atc - ExpiredAtc(w, now))
  }
}
