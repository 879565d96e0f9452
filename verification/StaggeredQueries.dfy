/** The two query queues of the airspace monitor: periodic requests fill them, a fast timer sends one query at a
    time. */
module StaggeredQueries {
  import opened Common

  /** What a tick finds: ATC online, aircraft in range, and those whose ICAO type is already known. */
  datatype Scene = Scene(online: set<Callsign>, inRange: set<Callsign>, typed: set<Callsign>)

  datatype Query = Atis(cs: Callsign) | Com1Frequency(cs: Callsign) | PlaneInfo(cs: Callsign)

  datatype Queues = Queues(atis: seq<Callsign>, pilot: seq<Callsign>)

  datatype Turn = Turn(queues: Queues, queries: seq<Query>)

  function Enqueue(queue: seq<Callsign>, cs: Callsign): seq<Callsign> {
    if cs in queue then queue else queue + [cs]
  }

  function EnqueueAll(queue: seq<Callsign>, list: seq<Callsign>): seq<Callsign> {
    if list == [] then queue else Enqueue(EnqueueAll(queue, list[..|list| - 1]), list[|list| - 1])
  }

  function PilotQueries(cs: Callsign, scene: Scene): seq<Query> {
    if cs !in scene.inRange then []
    else [Com1Frequency(cs)] + if cs in scene.typed then [] else [PlaneInfo(cs)]
  }

  /** One tick while connected: the pilot queue only gets its turn if no ATIS query was sent. */
  function Tick(q: Queues, scene: Scene): Turn {
    if q.atis != [] && q.atis[0] in scene.online then Turn(q.(atis := q.atis[1..]), [Atis(q.atis[0])])
    else
      var rest := if q.atis == [] then q else q.(atis := q.atis[1..]);
      if rest.pilot == [] then Turn(rest, [])
      else Turn(rest.(pilot := rest.pilot[1..]), PilotQueries(rest.pilot[0], scene))
  }

  class CQueryQueues {
    var queryAtis: seq<Callsign>
    var queryPilot: seq<Callsign>

    ghost function Value(): Queues
      reads this
    {
      Queues(queryAtis, queryPilot)
    }

    constructor ()
      ensures Value() == Queues([], [])
    {
      queryAtis, queryPilot := [], [];
    }

    method RequestAtisUpdates(stations: seq<Callsign>, connected: bool)
      modifies this`queryAtis
      ensures queryAtis == if connected then EnqueueAll(old(queryAtis), stations) else old(queryAtis)
    {
      if !connected { return; }
      for i := 0 to |stations|
        invariant queryAtis == EnqueueAll(old(queryAtis), stations[..i])
      {
        assert stations[..i + 1][..i] == stations[..i];
        if stations[i] !in queryAtis { queryAtis := queryAtis + [stations[i]]; }
      }
      assert stations[..|stations|] == stations;
    }

    method RequestAircraftDataUpdates(aircraft: seq<Callsign>, connected: bool)
      modifies this`queryPilot
      ensures queryPilot == if connected then EnqueueAll(old(queryPilot), aircraft) else old(queryPilot)
    {
      if !connected { return; }
      for i := 0 to |aircraft|
        invariant queryPilot == EnqueueAll(old(queryPilot), aircraft[..i])
      {
        assert aircraft[..i + 1][..i] == aircraft[..i];
        if aircraft[i] !in queryPilot { queryPilot := queryPilot + [aircraft[i]]; }
      }
      assert aircraft[..|aircraft|] == aircraft;
    }

    method SendNextStaggeredAtisQuery(scene: Scene, connected: bool) returns (sent: bool, queries: seq<Query>)
      modifies this`queryAtis
      ensures queryAtis == if connected && old(queryAtis) != [] then old(queryAtis)[1..] else old(queryAtis)
      ensures sent <==> connected && old(queryAtis) != [] && old(queryAtis)[0] in scene.online
      ensures queries == if sent then [Atis(old(queryAtis)[0])] else []
    {
      if queryAtis == [] || !connected { return false, []; }
      var cs := queryAtis[0];
      queryAtis := queryAtis[1..];
      if cs !in scene.online { return false, []; }
      return true, [Atis(cs)];
    }

    method SendNextStaggeredPilotDataQuery(scene: Scene, connected: bool) returns (sent: bool, queries: seq<Query>)
      modifies this`queryPilot
      ensures queryPilot == if connected && old(queryPilot) != [] then old(queryPilot)[1..] else old(queryPilot)
      ensures queries == if connected && old(queryPilot) != [] then PilotQueries(old(queryPilot)[0], scene) else []
      ensures sent <==> queries != []
    {
      if queryPilot == [] || !connected { return false, []; }
      var cs := queryPilot[0];
      queryPilot := queryPilot[1..];
      if cs !in scene.inRange { return false, []; }
      queries := [Com1Frequency(cs)];
      if cs !in scene.typed { queries := queries + [PlaneInfo(cs)]; }
      sent := true;
    }

    method FastProcessing(scene: Scene, connected: bool) returns (queries: seq<Query>)
      modifies this
      ensures Turn(Value(), queries) == if connected then Tick(old(Value()), scene) else Turn(old(Value()), [])
    {
      if !connected { return []; }
      var sent;
      sent, queries := SendNextStaggeredAtisQuery(scene, connected);
      if !sent { sent, queries := SendNextStaggeredPilotDataQuery(scene, connected); }
    }
  }

  /** Requests append exactly the callsigns that were not waiting, and never list one twice. */
  lemma {:induction false} RequestsKeepQueuesDuplicateFree(queue: seq<Callsign>, list: seq<Callsign>)
    requires NoDuplicates(queue)
    ensures NoDuplicates(EnqueueAll(queue, list)) && queue <= EnqueueAll(queue, list)
    ensures forall cs :: cs in EnqueueAll(queue, list) <==> cs in queue || cs in list
  {
    if list != [] {
      RequestsKeepQueuesDuplicateFree(queue, list[..|list| - 1]);
      assert list == list[..|list| - 1] + [list[|list| - 1]];
    }
  }

  lemma OneCallsignPerTick(q: Queues, scene: Scene, i: nat, j: nat)
    requires i < j < |Tick(q, scene).queries|
    ensures Tick(q, scene).queries[i].cs == Tick(q, scene).queries[j].cs
    ensures Tick(q, scene).queries[i] != Tick(q, scene).queries[j]
  {
    var head := if q.pilot == [] then [] else PilotQueries(q.pilot[0], scene);
    assert |head| <= 2;
  }

  /** The queues after a series of connected ticks without new requests. */
  function Run(q: Queues, scenes: seq<Scene>): Queues {
    if scenes == [] then q else Tick(Run(q, scenes[..|scenes| - 1]), scenes[|scenes| - 1]).queues
  }

  /** The k-th tick has no ATIS query to send. */
  predicate IsFree(q: Queues, scenes: seq<Scene>, k: nat)
    requires k < |scenes|
  {
    k >= |q.atis| || q.atis[k] !in scenes[k].online
  }

  /** How many of the ticks had no ATIS query to send. */
  function FreeTicks(q: Queues, scenes: seq<Scene>): nat {
    if scenes == [] then 0
    else FreeTicks(q, scenes[..|scenes| - 1]) + if IsFree(q, scenes, |scenes| - 1) then 1 else 0
  }

  function Min(a: nat, b: nat): nat {
    if a < b then a else b
  }

  /** Both queues drain in order: one ATIS entry a tick, one pilot entry a free tick. */
  lemma {:induction false} QueuesDrainInOrder(q: Queues, scenes: seq<Scene>)
    ensures Run(q, scenes) == Queues(q.atis[Min(|scenes|, |q.atis|)..], q.pilot[Min(FreeTicks(q, scenes), |q.pilot|)..])
  {
    if scenes != [] {
      var k := |scenes| - 1;
      QueuesDrainInOrder(q, scenes[..k]);
      var before := Run(q, scenes[..k]);
      if before.atis != [] { assert before.atis[0] == q.atis[k]; }
    }
  }

  lemma {:induction false} FreeTicksBound(q: Queues, scenes: seq<Scene>)
    ensures |scenes| - |q.atis| <= FreeTicks(q, scenes) <= |scenes|
    ensures forall k: nat :: k <= |scenes| ==> FreeTicks(q, scenes[..k]) <= FreeTicks(q, scenes)
  {
    if scenes == [] {
      assert scenes[..0] == scenes;
    } else {
      var rest := scenes[..|scenes| - 1];
      FreeTicksBound(q, rest);
      forall k: nat | k <= |scenes| ensures FreeTicks(q, scenes[..k]) <= FreeTicks(q, scenes) {
        if k < |scenes| { assert scenes[..k] == rest[..k]; } else { assert scenes[..k] == scenes; }
      }
      FreeTicksGrow(q, scenes);
    }
  }

  /** Once the ATIS queue is drained every tick is free. */
  lemma {:induction false} FreeTicksGrow(q: Queues, scenes: seq<Scene>)
    ensures |scenes| - |q.atis| <= FreeTicks(q, scenes)
  {
    if scenes != [] { FreeTicksGrow(q, scenes[..|scenes| - 1]); }
  }

  /** As many ticks as there are entries empty both queues. */
  lemma DrainedInTime(q: Queues, scenes: seq<Scene>)
    requires |scenes| >= |q.atis| + |q.pilot|
    ensures Run(q, scenes) == Queues([], [])
  {
    QueuesDrainInOrder(q, scenes);
    FreeTicksBound(q, scenes);
  }

  /** What each tick of a drain asks, said without running it. */
  lemma TickAsks(q: Queues, scenes: seq<Scene>, k: nat)
    requires k < |scenes|
    ensures var turn := FreeTicks(q, scenes[..k]);
            Tick(Run(q, scenes[..k]), scenes[k]).queries
            == if !IsFree(q, scenes, k) then [Atis(q.atis[k])]
               else if turn < |q.pilot| then PilotQueries(q.pilot[turn], scenes[k])
               else []
  {
    QueuesDrainInOrder(q, scenes[..k]);
  }

  /** The k-th tick is the one that serves the j-th pilot entry. */
  predicate Serves(q: Queues, scenes: seq<Scene>, k: nat, j: nat) {
    k < |scenes| && IsFree(q, scenes, k) && FreeTicks(q, scenes[..k]) == j
  }

  /** Every pilot entry has exactly one turn, in the order of the queue. */
  lemma EveryPilotIsServedOnce(q: Queues, scenes: seq<Scene>, j: nat) returns (k: nat)
    requires j < |q.pilot| && |scenes| >= |q.atis| + |q.pilot|
    ensures Serves(q, scenes, k, j)
    ensures forall other: nat :: Serves(q, scenes, other, j) ==> other == k
    ensures forall other: nat, i: nat :: Serves(q, scenes, other, i) && i < j ==> other < k
  {
    FreeTicksBound(q, scenes);
    k := FindTurn(q, scenes, j);
    forall other: nat, i: nat | Serves(q, scenes, other, i) && i <= j
      ensures other <= k && (i < j ==> other < k) && (other < k ==> i < j)
    {
      if other < k { LaterTurn(q, scenes, other, k); }
      if k < other { LaterTurn(q, scenes, k, other); }
    }
  }

  /** In its turn a pilot in range is asked for the frequency, and for the plane info exactly if the type is not known;
      for a pilot who has left nothing is asked. */
  lemma ServedPilotIsAsked(q: Queues, scenes: seq<Scene>, k: nat, j: nat)
    requires j < |q.pilot| && Serves(q, scenes, k, j)
    ensures var cs, scene := q.pilot[j], scenes[k];
            Tick(Run(q, scenes[..k]), scene).queries
            == if cs !in scene.inRange then []
               else if cs in scene.typed then [Com1Frequency(cs)]
               else [Com1Frequency(cs), PlaneInfo(cs)]
  {
    TickAsks(q, scenes, k);
  }

  /** In its turn, the k-th tick, a station is asked for its ATIS exactly if it is online then. */
  lemma StationIsAskedInItsTurn(q: Queues, scenes: seq<Scene>, k: nat)
    requires k < |scenes| && k < |q.atis|
    ensures Atis(q.atis[k]) in Tick(Run(q, scenes[..k]), scenes[k]).queries <==> q.atis[k] in scenes[k].online
    ensures q.atis[k] in scenes[k].online ==> Tick(Run(q, scenes[..k]), scenes[k]).queries == [Atis(q.atis[k])]
  {
    TickAsks(q, scenes, k);
  }

  /** What is requested first is served first: new callsigns join in the order of their first mention. */
  lemma {:induction false} RequestsKeepTheirOrder(queue: seq<Callsign>, list: seq<Callsign>, a: nat, b: nat)
    returns (i: nat, j: nat)
    requires a < b < |list| && list[a] !in queue && list[b] !in list[..b] && list[b] !in queue
    ensures i < j < |EnqueueAll(queue, list)|
    ensures EnqueueAll(queue, list)[i] == list[a] && EnqueueAll(queue, list)[j] == list[b]
  {
    var n := |list| - 1;
    var front := EnqueueAll(queue, list[..n]);
    EnqueuedMembers(queue, list[..n]);
    if b < n {
      i, j := RequestsKeepTheirOrder(queue, list[..n], a, b);
    } else {
      assert list[..n][a] == list[a];
      i :| 0 <= i < |front| && front[i] == list[a];
      j := |front|;
    }
  }

  lemma {:induction false} EnqueuedMembers(queue: seq<Callsign>, list: seq<Callsign>)
    ensures forall cs :: cs in EnqueueAll(queue, list) <==> cs in queue || cs in list
  {
    if list != [] {
      EnqueuedMembers(queue, list[..|list| - 1]);
      assert list == list[..|list| - 1] + [list[|list| - 1]];
    }
  }

  lemma LaterTurn(q: Queues, scenes: seq<Scene>, a: nat, b: nat)
    requires a < b < |scenes| && IsFree(q, scenes, a)
    ensures FreeTicks(q, scenes[..a]) < FreeTicks(q, scenes[..b])
  {
    assert scenes[..a + 1][..a] == scenes[..a];
    assert FreeTicks(q, scenes[..a + 1]) == FreeTicks(q, scenes[..a]) + 1;
    FreeTicksBound(q, scenes[..b]);
    assert scenes[..b][..a + 1] == scenes[..a + 1];
  }

  lemma {:induction false} FindTurn(q: Queues, scenes: seq<Scene>, j: nat) returns (k: nat)
    requires j < FreeTicks(q, scenes)
    ensures Serves(q, scenes, k, j)
    decreases |scenes|
  {
    var rest := scenes[..|scenes| - 1];
    if j < FreeTicks(q, rest) {
      k := FindTurn(q, rest, j);
      assert rest[..k] == scenes[..k];
    } else {
      k := |scenes| - 1;
    }
  }
}
