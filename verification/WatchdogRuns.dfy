/** What the watchdog reports over whole histories of touches, removals and checks. */
module WatchdogRuns {
  import opened Common
  import opened Watchdog

  datatype Kind = Aircraft | Atc

  datatype Event = Touch(kind: Kind, cs: Callsign) | Remove(kind: Kind, cs: Callsign) | ClearAll | Check

  datatype Entry = Entry(at: int, event: Event)

  function Timeout(kind: Kind): int {
    if kind.Aircraft? then 15000 else 50000
  }

  function Stamps(kind: Kind, w: Watch): map<Callsign, int> {
    if kind.Aircraft? then w.aircraft else w.atc
  }

  function Expired(kind: Kind, w: Watch, now: int): set<Callsign> {
    if kind.Aircraft? then ExpiredAircraft(w, now) else ExpiredAtc(w, now)
  }

  function Step(w: Watch, e: Entry): Watch {
    match e.event
    case Touch(Aircraft, cs) => TouchAircraft(w, cs, e.at)
    case Touch(Atc, cs) => TouchAtc(w, cs, e.at)
    case Remove(Aircraft, cs) => RemoveAircraft(w, cs)
    case Remove(Atc, cs) => RemoveAtc(w, cs)
    case ClearAll => Clear(w)
    case Check => Checked(w, e.at)
  }

  /** The watchdog started at `start`, after the history `h`. */
  function After(start: int, h: seq<Entry>): Watch {
    if h == [] then Started(start) else Step(After(start, h[..|h| - 1]), h[|h| - 1])
  }

  /** Milliseconds since the epoch; the clock never runs backwards. */
  ghost predicate Timed(start: int, h: seq<Entry>) {
    && 0 <= start
    && (forall i :: 0 <= i < |h| ==> start <= h[i].at)
    && (forall i, j :: 0 <= i < j < |h| ==> h[i].at <= h[j].at)
  }

  predicate CheckExecutes(start: int, h: seq<Entry>, j: nat)
    requires j < |h|
  {
    h[j].event.Check? && Executes(After(start, h[..j]), h[j].at)
  }

  /** Entry `j` ends the validity of a touch of `cs` made at time `touched`: a newer touch, a removal,
      a clear, or an executed check that found the touch too old and reported it. */
  predicate Ends(start: int, h: seq<Entry>, j: nat, kind: Kind, cs: Callsign, touched: int)
    requires j < |h|
  {
    || h[j].event == Touch(kind, cs)
    || h[j].event == Remove(kind, cs)
    || h[j].event.ClearAll?
    || (CheckExecutes(start, h, j) && h[j].at - touched >= Timeout(kind))
  }

  /** Entry `i` is the touch of `cs` that still counts at the end of `h`. */
  ghost predicate Current(start: int, h: seq<Entry>, i: nat, kind: Kind, cs: Callsign) {
    && i < |h| && h[i].event == Touch(kind, cs)
    && forall j :: i < j < |h| ==> !Ends(start, h, j, kind, cs, h[i].at)
  }

  lemma PrefixOfPrefix(h: seq<Entry>, j: nat, k: nat)
    requires j <= k <= |h|
    ensures h[..k][..j] == h[..j]
  {
  }

  lemma CurrentInPrefix(start: int, h: seq<Entry>, i: nat, kind: Kind, cs: Callsign)
    requires i < |h| - 1
    ensures Current(start, h, i, kind, cs)
            <==> Current(start, h[..|h| - 1], i, kind, cs) && !Ends(start, h, |h| - 1, kind, cs, h[i].at)
  {
    var p := h[..|h| - 1];
    forall j | i < j < |p|
      ensures Ends(start, p, j, kind, cs, h[i].at) == Ends(start, h, j, kind, cs, h[i].at)
    {
      PrefixOfPrefix(h, j, |h| - 1);
    }
  }

  lemma {:induction false} StillEnabled(start: int, h: seq<Entry>)
    ensures After(start, h).enabled
  {
    if h != [] { StillEnabled(start, h[..|h| - 1]); }
  }

  /** The stamp of a callsign is exactly the time of the touch that still counts. */
  lemma {:induction false} StampsAreCurrentTouches(start: int, h: seq<Entry>, kind: Kind, cs: Callsign)
    ensures forall i: nat :: Current(start, h, i, kind, cs) ==>
      cs in Stamps(kind, After(start, h)) && Stamps(kind, After(start, h))[cs] == h[i].at
    ensures cs in Stamps(kind, After(start, h)) ==> exists i: nat :: Current(start, h, i, kind, cs)
  {
    if h != [] {
      var n := |h| - 1;
      var p := h[..n];
      StampsAreCurrentTouches(start, p, kind, cs);
      StillEnabled(start, p);
      var w, w' := After(start, p), After(start, h);
      forall i: nat | Current(start, h, i, kind, cs)
        ensures cs in Stamps(kind, w') && Stamps(kind, w')[cs] == h[i].at
      {
        if i < n { CurrentInPrefix(start, h, i, kind, cs); }
      }
      if cs in Stamps(kind, w') {
        if h[n].event == Touch(kind, cs) {
          assert Current(start, h, n, kind, cs);
        } else {
          assert cs in Stamps(kind, w);
          var i: nat :| Current(start, p, i, kind, cs);
          CurrentInPrefix(start, h, i, kind, cs);
          assert Current(start, h, i, kind, cs);
        }
      }
    }
  }

  /** Exactness: an executed check reports exactly the callsigns whose last touch that was neither
      undone nor already reported is old enough; a skipped check reports nothing. */
  lemma {:induction false} CheckReportsExactlyTheSilent(start: int, h: seq<Entry>, kind: Kind, cs: Callsign, now: int)
    ensures cs in Expired(kind, After(start, h), now)
            <==> Executes(After(start, h), now)
                 && exists i: nat :: Current(start, h, i, kind, cs) && now - h[i].at >= Timeout(kind)
  {
    StampsAreCurrentTouches(start, h, kind, cs);
    StillEnabled(start, h);
  }

  /** Nobody touches, removes or clears `cs` between entries `i` and `k`. */
  ghost predicate Untouched(h: seq<Entry>, i: nat, k: nat, kind: Kind, cs: Callsign)
    requires k <= |h|
  {
    forall j :: i < j < k ==>
      h[j].event != Touch(kind, cs) && h[j].event != Remove(kind, cs) && !h[j].event.ClearAll?
  }

  /** No check between entries `i` and `k` comes more than the threshold after the previous one. */
  ghost predicate Regular(start: int, h: seq<Entry>, i: nat, k: nat)
    requires k <= |h|
  {
    forall j :: i < j < k && h[j].event.Check? ==> !Stalled(After(start, h[..j]), h[j].at)
  }

  /** `j` is the first check after `i` at or after `deadline`. */
  ghost predicate FirstCheckAt(h: seq<Entry>, i: nat, j: nat, deadline: int) {
    && i < j < |h| && h[j].event.Check? && h[j].at >= deadline
    && forall k :: i < k < j && h[k].event.Check? ==> h[k].at < deadline
  }

  lemma {:induction false} RegularChecksStayClose(start: int, h: seq<Entry>, i: nat, j: nat, deadline: int)
    requires Timed(start, h) && i < j <= |h| && !h[i].event.Check?
    requires h[i].at < deadline
    requires forall k :: i < k < j && h[k].event.Check? ==> h[k].at < deadline
    requires Regular(start, h, i, j) && After(start, h[..i]).holdUntil <= h[i].at
    ensures After(start, h[..j]).lastCall < deadline && After(start, h[..j]).holdUntil <= h[i].at
    decreases j
  {
    assert h[..j][..j - 1] == h[..j - 1];
    if j == i + 1 {
      LastCallInThePast(start, h, i);
    } else {
      RegularChecksStayClose(start, h, i, j - 1, deadline);
    }
  }

  lemma {:induction false} LastCallInThePast(start: int, h: seq<Entry>, i: nat)
    requires Timed(start, h) && i < |h|
    ensures After(start, h[..i]).lastCall <= h[i].at
  {
    if i > 0 {
      assert h[..i][..i - 1] == h[..i - 1];
      LastCallInThePast(start, h, i - 1);
    }
  }

  lemma SmallestCheck(h: seq<Entry>, i: nat, n: nat, deadline: int) returns (j: nat)
    requires i < n < |h| && h[n].event.Check? && h[n].at >= deadline
    ensures j <= n && FirstCheckAt(h, i, j, deadline)
  {
    j := i + 1;
    while !(h[j].event.Check? && h[j].at >= deadline)
      invariant i < j <= n
      invariant forall k :: i < k < j && h[k].event.Check? ==> h[k].at < deadline
      decreases n - j
    {
      j := j + 1;
    }
  }

  /** Promptness: with regular checks and no grace period at the touch, a callsign that falls silent is
      reported by the first check after its time-out, less than one threshold later:
      26 250 ms after the touch for aircraft, 61 250 ms for stations. */
  lemma SilentCallsignIsReportedInTime(start: int, h: seq<Entry>, i: nat, n: nat, kind: Kind, cs: Callsign)
    returns (j: nat)
    requires Timed(start, h) && i < n < |h|
    requires h[i].event == Touch(kind, cs) && After(start, h[..i]).holdUntil <= h[i].at
    requires Untouched(h, i, n, kind, cs) && Regular(start, h, i, n + 1)
    requires h[n].event.Check? && h[n].at >= h[i].at + Timeout(kind)
    ensures i < j <= n && h[j].event.Check?
    ensures h[i].at + Timeout(kind) <= h[j].at < h[i].at + Timeout(kind) + 11250
    ensures cs in Expired(kind, After(start, h[..j]), h[j].at)
  {
    var deadline := h[i].at + Timeout(kind);
    j := SmallestCheck(h, i, n, deadline);
    RegularChecksStayClose(start, h, i, j, deadline);
    var p := h[..j];
    forall k | i < k < j
      ensures !Ends(start, p, k, kind, cs, h[i].at)
    {
    }
    assert Current(start, p, i, kind, cs);
    CheckReportsExactlyTheSilent(start, p, kind, cs, h[j].at);
  }

  /** The grace period of a stall at `i` lasts until the check that comes late enough. */
  lemma {:induction false} GraceLasts(start: int, h: seq<Entry>, i: nat, j: nat)
    requires Timed(start, h) && i < j < |h|
    requires h[i].event.Check? && h[i].at - After(start, h[..i]).lastCall > 11250
    requires h[j].at < h[i].at + 22500
    ensures After(start, h[..j]).holdUntil >= h[i].at + 22500
    decreases j
  {
    assert h[..j][..j - 1] == h[..j - 1];
    if j > i + 1 { GraceLasts(start, h, i, j - 1); }
  }

  /** Stall grace: after a check that came too late at time t, no check before t + 22 500 ms reports anybody,
      whatever happens in between. */
  lemma {:induction false} NoTimeoutDuringGrace(start: int, h: seq<Entry>, i: nat, j: nat, kind: Kind)
    requires Timed(start, h) && i <= j < |h|
    requires h[i].event.Check? && h[i].at - After(start, h[..i]).lastCall > 11250
    requires h[j].at < h[i].at + 22500
    ensures Expired(kind, After(start, h[..j]), h[j].at) == {}
  {
    if i < j { GraceLasts(start, h, i, j); }
  }

  /** Disabling protects aircraft only: a disabled watchdog reports no aircraft, but its executed checks
      report the silent stations all the same. */
  lemma DisabledWatchdogStillDropsStations(w: Watch, now: int)
    requires !w.enabled
    ensures ExpiredAircraft(w, now) == {}
    ensures ExpiredAtc(w, now) == ExpiredAtc(w.(enabled := true), now)
  {
  }

  /** The stations a disabled watchdog looked at are stored as aircraft. Once it is enabled again, the next
      executed check reports each of them as a lost aircraft, unless it was touched meanwhile. */
  lemma DisabledCheckTurnsStationsIntoAircraft(w: Watch, now: int, later: int, cs: Callsign)
    requires !w.enabled && Executes(w, now) && cs in w.atc
    requires now <= later <= now + 11250 && now >= 0
    ensures cs in ExpiredAircraft(Checked(w, now).(enabled := true), later)
  {
  }

  /** A check stamps a callsign that was no aircraft if and only if it is executed by a disabled watchdog that knows a
      station of that name. */
  lemma ChecksStampNewAircraftIffDisabled(w: Watch, now: int, cs: Callsign)
    requires cs !in w.aircraft
    ensures cs in Checked(w, now).aircraft <==> !w.enabled && Executes(w, now) && cs in w.atc
  {
  }
}
