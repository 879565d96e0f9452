/** Which aircraft the watchdog will know once its queue is handled, told from the history of a run: what
    re-initialisation removes is watched again if and only if something touched it since. */
module WatchHistory {
  import opened Common
  import opened MonitorSpec
  import opened Airspace
  import opened NoGhosts
  import opened StampQueue
  import opened RunHistory
  import W = Watchdog

  /** Stamped once the analyzer has handled its queue. */
  predicate WillBeWatched(s: System, cs: Callsign) {
    StampedAfter(s.watchInbox, Pilot(cs), cs in s.watch.aircraft)
  }

  /** What a step posts to the analyzer. */
  ghost function Posted(s: System, e: Event): seq<WatchMsg>
    requires Enabled(s, e)
  {
    match e
    case Receive(msg) => Direct(msg)
    case Connect => [GoOnline]
    case Disconnect => [GoOffline]
    case _ => ForAnalyzer(Signals(s, e))
  }

  /** The step posts a touch, and no removal behind it. */
  ghost predicate PostsTouch(s: System, e: Event, cs: Callsign)
    requires Enabled(s, e)
  {
    StampedAfter(Posted(s, e), Pilot(cs), false)
  }

  /** The step posts a removal, and no touch behind it. */
  ghost predicate PostsRemoval(s: System, e: Event, cs: Callsign)
    requires Enabled(s, e)
  {
    !StampedAfter(Posted(s, e), Pilot(cs), true)
  }

  /** A check reports the aircraft, and no touch of it is queued. */
  predicate ReportsSilent(s: System, e: Event, cs: Callsign) {
    e.AnalyzerChecks? && cs in W.ExpiredAircraft(s.watch, s.now) && !StampedAfter(s.watchInbox, Pilot(cs), false)
  }

  /** A check of the disabled watchdog stamps the callsign of a station, and no removal of it is queued. */
  predicate StampsStation(s: System, e: Event, cs: Callsign) {
    && e.AnalyzerChecks? && W.Executes(s.watch, s.now) && !s.watch.enabled && cs in s.watch.atc
    && StampedAfter(s.watchInbox, Pilot(cs), true)
  }

  ghost predicate Gives(s: System, e: Event, cs: Callsign)
    requires Enabled(s, e)
  {
    PostsTouch(s, e, cs) || StampsStation(s, e, cs)
  }

  ghost predicate Takes(s: System, e: Event, cs: Callsign)
    requires Enabled(s, e)
  {
    PostsRemoval(s, e, cs) || ReportsSilent(s, e, cs)
  }

  lemma CheckStep(s: System, e: Event, cs: Callsign)
    requires Enabled(s, e) && e.AnalyzerChecks?
    ensures WillBeWatched(Step(s, e), cs) <==> Gives(s, e, cs) || (WillBeWatched(s, cs) && !Takes(s, e, cs))
  {
    var stamped, stamped' := cs in s.watch.aircraft, cs in Step(s, e).watch.aircraft;
    assert Posted(s, e) == [];
    var faked := W.Executes(s.watch, s.now) && !s.watch.enabled && cs in s.watch.atc;
    assert stamped' == ((stamped && cs !in W.ExpiredAircraft(s.watch, s.now)) || faked);
    StampedAfterCases(s.watchInbox, Pilot(cs), stamped);
    StampedAfterCases(s.watchInbox, Pilot(cs), stamped');
    StampedAfterCases(s.watchInbox, Pilot(cs), true);
  }

  lemma PostingStep(s: System, e: Event, cs: Callsign)
    requires Enabled(s, e) && !e.AnalyzerChecks? && !e.AnalyzerTakes?
    ensures WillBeWatched(Step(s, e), cs) <==> Gives(s, e, cs) || (WillBeWatched(s, cs) && !Takes(s, e, cs))
  {
    var stamped := cs in s.watch.aircraft;
    QueueGrows(s, e);
    StampedAfterAppend(s.watchInbox, Posted(s, e), Pilot(cs), stamped);
    StampedAfterCases(Posted(s, e), Pilot(cs), StampedAfter(s.watchInbox, Pilot(cs), stamped));
  }

  lemma QueueGrows(s: System, e: Event)
    requires Enabled(s, e) && !e.AnalyzerChecks? && !e.AnalyzerTakes?
    ensures Step(s, e).watchInbox == s.watchInbox + Posted(s, e)
    ensures Step(s, e).watch.aircraft == s.watch.aircraft
  {
    if Posted(s, e) == [] { assert s.watchInbox + [] == s.watchInbox; }
  }

  lemma HandlingStep(s: System, cs: Callsign)
    requires s.watchInbox != []
    ensures WillBeWatched(Step(s, AnalyzerTakes), cs) == WillBeWatched(s, cs)
    ensures Posted(s, AnalyzerTakes) == []
  {
    StampedAfterFirst(s.watchInbox, Pilot(cs), cs in s.watch.aircraft);
  }

  /** A step decides whether the aircraft will be watched by what it posts and reports alone. */
  lemma StepGivesAndTakes(s: System, e: Event, cs: Callsign)
    requires Enabled(s, e)
    ensures WillBeWatched(Step(s, e), cs) <==> Gives(s, e, cs) || (WillBeWatched(s, cs) && !Takes(s, e, cs))
  {
    if e.AnalyzerTakes? {
      HandlingStep(s, cs);
    } else if e.AnalyzerChecks? {
      CheckStep(s, e, cs);
    } else {
      PostingStep(s, e, cs);
    }
  }

  /** Which events of a run give the aircraft a stamp ... */
  ghost function Giving(states: seq<System>, events: seq<Event>, cs: Callsign): seq<bool>
    requires IsRun(states, events)
  {
    seq(|events|, k requires 0 <= k < |events| && Enabled(states[k], events[k]) => Gives(states[k], events[k], cs))
  }

  /** ... and which take it. */
  ghost function Taking(states: seq<System>, events: seq<Event>, cs: Callsign): seq<bool>
    requires IsRun(states, events)
  {
    seq(|events|, k requires 0 <= k < |events| && Enabled(states[k], events[k]) => Takes(states[k], events[k], cs))
  }

  /** In which states it will be watched. */
  ghost function Watching(states: seq<System>, cs: Callsign): seq<bool> {
    seq(|states|, k requires 0 <= k < |states| => WillBeWatched(states[k], cs))
  }

  lemma EventFollows(states: seq<System>, events: seq<Event>, k: nat, cs: Callsign)
    requires IsRun(states, events) && k < |events|
    ensures Follows(Watching(states, cs), Giving(states, events, cs), Taking(states, events, cs), k)
  {
    assert Enabled(states[k], events[k]);
    StepGivesAndTakes(states[k], events[k], cs);
  }

  /** In every run, once the aircraft is not watched: it is later on if and only if it was given a stamp since. */
  lemma WatchedIffGiven(states: seq<System>, events: seq<Event>, i: nat, k: nat, cs: Callsign)
    requires IsRun(states, events) && i <= k < |states| && !WillBeWatched(states[i], cs)
    ensures WillBeWatched(states[k], cs) <==> SetSince(Giving(states, events, cs), Taking(states, events, cs), i, k)
  {
    var watching, giving, taking := Watching(states, cs), Giving(states, events, cs), Taking(states, events, cs);
    forall n: nat | i <= n < k ensures Follows(watching, giving, taking, n) { EventFollows(states, events, n, cs); }
    HistoryDecides(watching, giving, taking, i, k);
  }

  lemma {:induction false} RemovalsUnwatch(signals: seq<Signal>, cs: Callsign, stamped: bool)
    requires forall i :: 0 <= i < |signals| ==> signals[i].RemovedAircraft?
    ensures StampedAfter(ForAnalyzer(signals), Pilot(cs), stamped) == (stamped && RemovedAircraft(cs) !in signals)
  {
    if signals != [] {
      var front, last := signals[..|signals| - 1], signals[|signals| - 1];
      RemovalsUnwatch(front, cs, stamped);
      assert signals == front + [last];
      assert ForAnalyzer(signals)[..|ForAnalyzer(signals)| - 1] == ForAnalyzer(front);
    }
  }

  /** A re-initialisation takes the stamps of all aircraft in range. */
  lemma ReInitializationUnwatches(s: System, e: Event, cs: Callsign)
    requires Enabled(s, e) && e.ReInitialize? && cs in s.mon.inRange
    ensures !WillBeWatched(Step(s, e), cs)
  {
    var signals := Removals(e.order);
    assert cs in e.order;
    var i :| 0 <= i < |e.order| && e.order[i] == cs;
    assert signals[i] == RemovedAircraft(cs);
    RemovalsUnwatch(signals, cs, StampedAfter(s.watchInbox, Pilot(cs), cs in s.watch.aircraft));
    StampedAfterAppend(s.watchInbox, ForAnalyzer(signals), Pilot(cs), cs in s.watch.aircraft);
  }

  /** Main result: an aircraft that was in range at a re-initialisation, whether it is added again or not, is watched
      later on if and only if something gave it a stamp after the re-initialisation and nothing took it away since.
      Once the queue has drained this is about the stamps themselves: any other aircraft in range then is a ghost. */
  lemma WatchedAfterReInitializationIff(states: seq<System>, events: seq<Event>, i: nat, k: nat, cs: Callsign)
    requires IsRun(states, events) && i < k < |states|
    requires Enabled(states[i], events[i]) && events[i].ReInitialize? && cs in states[i].mon.inRange
    ensures WillBeWatched(states[k], cs) <==>
            SetSince(Giving(states, events, cs), Taking(states, events, cs), i + 1, k)
    ensures states[k].watchInbox == [] ==> (WillBeWatched(states[k], cs) <==> cs in states[k].watch.aircraft)
  {
    ReInitializationUnwatches(states[i], events[i], cs);
    WatchedIffGiven(states, events, i + 1, k, cs);
  }

  lemma {:induction false} TouchedBySituation(signals: seq<Signal>, cs: Callsign)
    requires StampedAfter(ForAnalyzer(signals), Pilot(cs), false)
    ensures AddedSituation(cs) in signals
  {
    if signals != [] {
      var front, last := signals[..|signals| - 1], signals[|signals| - 1];
      StampedAfterAppend(ForAnalyzer(front), Forwarded(last), Pilot(cs), false);
      if StampedAfter(ForAnalyzer(front), Pilot(cs), false) {
        TouchedBySituation(front, cs);
      } else if |Forwarded(last)| == 1 {
        assert Forwarded(last)[..0] == [];
      }
    }
  }

  /** While the watchdog is enabled, an aircraft is given a stamp only by a position that arrives for it, or by the
      monitor when it stores a situation of it. */
  lemma EnabledGivesByPosition(s: System, e: Event, cs: Callsign)
    requires Enabled(s, e) && s.watch.enabled && Gives(s, e, cs)
    ensures (e.Receive? && e.msg.Position? && e.msg.cs == cs) || AddedSituation(cs) in Signals(s, e)
  {
    var q := Posted(s, e);
    if |q| == 1 { StampedAfterFirst(q, Pilot(cs), false); }
    if !e.Receive? && !e.Connect? && !e.Disconnect? { TouchedBySituation(Signals(s, e), cs); }
  }
}
