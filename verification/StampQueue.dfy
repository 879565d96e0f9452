/** The analyzer's queue: which of its messages decide whether an aircraft or a station is stamped once they are
    handled. */
module StampQueue {
  import opened Common
  import opened MonitorSpec
  import opened Airspace

  datatype Subject = Pilot(cs: Callsign) | Station(cs: Callsign)

  function TouchOf(who: Subject): WatchMsg {
    match who
    case Pilot(cs) => TouchAircraft(cs)
    case Station(cs) => TouchAtc(cs)
  }

  function DropOf(who: Subject): WatchMsg {
    match who
    case Pilot(cs) => DropAircraft(cs)
    case Station(cs) => DropAtc(cs)
  }

  predicate Unwatches(msg: WatchMsg, who: Subject) {
    msg == DropOf(who) || msg.GoOffline?
  }

  /** Whether `who` is stamped after `msg`, if it was `stamped` before. */
  predicate StampedAfterMsg(msg: WatchMsg, who: Subject, stamped: bool) {
    if msg == TouchOf(who) then true
    else if Unwatches(msg, who) then false
    else stamped
  }

  predicate StampedAfter(q: seq<WatchMsg>, who: Subject, stamped: bool) {
    if q == [] then stamped
    else StampedAfterMsg(q[|q| - 1], who, StampedAfter(q[..|q| - 1], who, stamped))
  }

  /** Entry `i` of the queue touches `who`, and no later entry removes it. */
  ghost predicate LastingTouch(q: seq<WatchMsg>, i: int, who: Subject) {
    && 0 <= i < |q| && q[i] == TouchOf(who)
    && forall j :: i < j < |q| ==> !Unwatches(q[j], who)
  }

  /** The recursive form says: a touch is queued behind the last removal, or no removal is queued
      and the callsign is known. */
  lemma {:induction false} StampedAfterMeansLastTouchWins(q: seq<WatchMsg>, who: Subject, stamped: bool)
    ensures StampedAfter(q, who, stamped) <==>
      || (exists i :: LastingTouch(q, i, who))
      || (stamped && forall j :: 0 <= j < |q| ==> !Unwatches(q[j], who))
  {
    if q != [] {
      var n := |q| - 1;
      var p := q[..n];
      StampedAfterMeansLastTouchWins(p, who, stamped);
      if q[n] == TouchOf(who) {
        assert LastingTouch(q, n, who);
      } else if !Unwatches(q[n], who) {
        assert forall i :: LastingTouch(p, i, who) ==> LastingTouch(q, i, who);
        assert forall i :: LastingTouch(q, i, who) ==> LastingTouch(p, i, who);
        assert forall j :: 0 <= j < n ==> q[j] == p[j];
      }
    }
  }

  lemma {:induction false} StampedAfterAppend(q: seq<WatchMsg>, r: seq<WatchMsg>, who: Subject, stamped: bool)
    ensures StampedAfter(q + r, who, stamped) == StampedAfter(r, who, StampedAfter(q, who, stamped))
  {
    if r == [] {
      assert q + r == q;
    } else {
      var n := |r| - 1;
      assert (q + r)[..|q + r| - 1] == q + r[..n];
      StampedAfterAppend(q, r[..n], who, stamped);
    }
  }

  lemma StampedAfterFirst(q: seq<WatchMsg>, who: Subject, stamped: bool)
    requires q != []
    ensures StampedAfter(q, who, stamped) == StampedAfter(q[1..], who, StampedAfterMsg(q[0], who, stamped))
  {
    assert q == q[..1] + q[1..];
    StampedAfterAppend(q[..1], q[1..], who, stamped);
    assert q[..1][..0] == [];
  }

  lemma StampedAfterOne(q: seq<WatchMsg>, msg: WatchMsg, who: Subject, stamped: bool)
    ensures StampedAfter(q + [msg], who, stamped) == StampedAfterMsg(msg, who, StampedAfter(q, who, stamped))
  {
    assert (q + [msg])[..|q|] == q;
  }

  lemma {:induction false} StampedAfterMonotone(q: seq<WatchMsg>, who: Subject, b: bool, c: bool)
    requires StampedAfter(q, who, b) && (b ==> c)
    ensures StampedAfter(q, who, c)
  {
    if q != [] && StampedAfter(q[..|q| - 1], who, b) {
      StampedAfterMonotone(q[..|q| - 1], who, b, c);
    }
  }

  /** Messages that neither touch nor remove leave the stamp, and the others decide it. */
  lemma {:induction false} StampedAfterCases(q: seq<WatchMsg>, who: Subject, stamped: bool)
    ensures StampedAfter(q, who, stamped) <==> StampedAfter(q, who, false) || (stamped && StampedAfter(q, who, true))
  {
    if q != [] { StampedAfterCases(q[..|q| - 1], who, stamped); }
  }

  lemma OneSignalForwarded(signal: Signal)
    ensures ForAnalyzer([signal]) == Forwarded(signal)
  {
    assert [signal][..0] == [];
    assert ForAnalyzer([signal]) == ForAnalyzer([]) + Forwarded(signal);
  }
}
