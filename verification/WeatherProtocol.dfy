/** The manager together with one plugin and the event loop: exactly one token circulates while requests wait. */
module WeatherProtocol {
  import opened Common
  import opened WeatherSpec

  /** A request, the fetch its answer was computed from, and the data of that fetch. */
  datatype Answer = Answer(request: Request, fetchedFor: Option<Request>, data: Grid)

  /** What callers are told: a request from its fetch, or clear weather. */
  datatype Reply = Served(answer: Answer, closest: Closest) | ClearWeather(callback: nat)

  /** `deferred` zero timers, fetches the plugin works on and `finished` signals wait for their turn; `accepted`
      requests of the `calls`, and `answered`, are the history, `broken` is a fetch for an empty queue; `told` are the
      callbacks posted and signals emitted so far, `replies` what they should amount to. A posted callback waits until
      its zero timer fires, so it runs after the signals of its answer. */
  datatype System = System(
    man: Manager,
    deferred: nat,
    inFlight: seq<Request>,
    finished: nat,
    dataOf: Option<Request>,
    data: Grid,
    now: int,
    accepted: seq<Request>,
    calls: seq<Call>,
    answered: seq<Answer>,
    broken: bool,
    replies: seq<Reply>,
    told: seq<Effect>,
    emitted: seq<Effect>,
    posted: seq<Effect>,
    called: seq<Effect>)

  datatype Event =
    | Passes(ms: nat)
    | SetClear(value: bool)
    | Submits(call: Call)
    | DeferredFires
    | FetchFinishes(which: nat, result: Grid)
    | Delivers(nested: seq<Call>, closest: Closest)
    | CallbackRuns(which: nat)

  predicate Enabled(s: System, e: Event) {
    match e
    case DeferredFires => s.deferred > 0
    case FetchFinishes(which, _) => which < |s.inFlight|
    case Delivers(_, _) => s.finished > 0
    case CallbackRuns(which) => which < |s.posted|
    case _ => true
  }

  function Deferrals(effects: seq<Effect>): nat {
    if effects == [] then 0
    else Deferrals(effects[..|effects| - 1]) + if effects[|effects| - 1].DeferFetch? then 1 else 0
  }

  function Fetches(effects: seq<Effect>): seq<Request> {
    if effects == [] then []
    else
      var last := effects[|effects| - 1];
      Fetches(effects[..|effects| - 1]) + if last.Fetch? then [last.request] else []
  }

  /** The requests among the calls that go into the queue. */
  function Taken(m: Manager, calls: seq<Call>): seq<Request> {
    if calls == [] then []
    else
      var last := calls[|calls| - 1];
      Taken(m, calls[..|calls| - 1]) + if Accepts(m, last) then [RequestOf(last)] else []
  }

  /** The calls themselves. */
  function TakenCalls(m: Manager, calls: seq<Call>): seq<Call> {
    if calls == [] then []
    else
      var last := calls[|calls| - 1];
      TakenCalls(m, calls[..|calls| - 1]) + if Accepts(m, last) then [last] else []
  }

  /** The callbacks and signals among the effects. */
  function Tellings(effects: seq<Effect>): seq<Effect> {
    if effects == [] then []
    else
      var last := effects[|effects| - 1];
      Tellings(effects[..|effects| - 1]) + if last.PostCallback? || last.Emit? then [last] else []
  }

  function Emissions(effects: seq<Effect>): seq<Effect> {
    if effects == [] then []
    else
      var last := effects[|effects| - 1];
      Emissions(effects[..|effects| - 1]) + if last.Emit? then [last] else []
  }

  function Postings(effects: seq<Effect>): seq<Effect> {
    if effects == [] then []
    else
      var last := effects[|effects| - 1];
      Postings(effects[..|effects| - 1]) + if last.PostCallback? then [last] else []
  }

  /** The calls answered with clear weather. */
  function ClearReplies(m: Manager, calls: seq<Call>): seq<Reply> {
    if calls == [] then []
    else
      var last := calls[|calls| - 1];
      ClearReplies(m, calls[..|calls| - 1]) + if AnsweredClear(m, last) then [ClearWeather(last.callback.value)] else []
  }

  function ToldBy(reply: Reply): seq<Effect> {
    match reply
    case ClearWeather(callback) => [PostCallback(callback, CLEAR_WEATHER)]
    case Served(answer, closest) => Answers(answer.request, Interpolated(answer.request.grid, answer.data, closest))
  }

  function AllTold(replies: seq<Reply>): seq<Effect> {
    if replies == [] then [] else AllTold(replies[..|replies| - 1]) + ToldBy(replies[|replies| - 1])
  }

  function ServedAnswers(replies: seq<Reply>): seq<Answer> {
    if replies == [] then []
    else
      var last := replies[|replies| - 1];
      ServedAnswers(replies[..|replies| - 1]) + if last.Served? then [last.answer] else []
  }

  function Perform(s: System, o: Outcome): System {
    s.(man := o.man, deferred := s.deferred + Deferrals(o.effects), inFlight := s.inFlight + Fetches(o.effects),
       told := s.told + Tellings(o.effects), emitted := s.emitted + Emissions(Tellings(o.effects)),
       posted := s.posted + Postings(Tellings(o.effects)))
  }

  function Step(s: System, e: Event): System
    requires Enabled(s, e)
  {
    match e
    case Passes(ms) => s.(now := s.now + ms)
    case SetClear(value) => s.(man := s.man.(clear := value))
    case Submits(call) =>
      Perform(s, Submit(s.man, call, s.now)).(accepted := s.accepted + Taken(s.man, [call]),
                                              calls := s.calls + TakenCalls(s.man, [call]),
                                              replies := s.replies + ClearReplies(s.man, [call]))
    case DeferredFires =>
      if s.man.pending == [] then s.(deferred := s.deferred - 1, broken := true)
      else s.(deferred := s.deferred - 1, inFlight := s.inFlight + [s.man.pending[0]])
    case FetchFinishes(which, result) =>
      s.(inFlight := s.inFlight[..which] + s.inFlight[which + 1..],
         dataOf := Some(s.inFlight[which]), data := result, finished := s.finished + 1)
    case Delivers(nested, closest) =>
      if s.man.pending == [] then s.(finished := s.finished - 1)
      else
        var served := [Served(Answer(s.man.pending[0], s.dataOf, s.data), closest)];
        Answered(s, HandleNext(s.man, s.data, closest, nested, s.now), Taken(s.man, nested))
          .(replies := s.replies + (served + ClearReplies(s.man, nested)),
            calls := s.calls + TakenCalls(s.man, nested))
    case CallbackRuns(which) =>
      s.(posted := s.posted[..which] + s.posted[which + 1..], called := s.called + [s.posted[which]])
  }

  /** The first request is answered with the outcome `o`; `taken` are the requests its listeners made. */
  function Answered(s: System, o: Outcome, taken: seq<Request>): System
    requires s.finished > 0 && s.man.pending != []
  {
    Perform(s, o).(finished := s.finished - 1, accepted := s.accepted + taken,
                   answered := s.answered + [Answer(s.man.pending[0], s.dataOf, s.data)])
  }

  function Initial(now: int): System {
    System(INITIAL, 0, [], 0, None, [], now, [], [], [], false, [], [], [], [], [])
  }

  ghost predicate IsExecution(states: seq<System>, events: seq<Event>) {
    && |states| == |events| + 1
    && states[0] == Initial(states[0].now)
    && forall k :: 0 <= k < |events| ==> Enabled(states[k], events[k]) && states[k + 1] == Step(states[k], events[k])
  }

  /** The event drops waiting requests, because the last one was made more than 30 s ago. */
  predicate CleansUp(s: System, e: Event) {
    && TimedOut(s.man, s.now)
    && ((e.Submits? && Accepts(s.man, e.call)) || (e.Delivers? && Taken(s.man, e.nested) != []))
  }

  function Requests(answers: seq<Answer>): seq<Request> {
    seq(|answers|, i requires 0 <= i < |answers| => answers[i].request)
  }

  /** Accepted requests are answered in order, each from its own fetch, the others wait; one token stands for the
      first. */
  ghost predicate Orderly(s: System) {
    && s.accepted == Requests(s.answered) + s.man.pending
    && (forall i :: 0 <= i < |s.answered| ==> s.answered[i].fetchedFor == Some(s.answered[i].request))
    && s.deferred + |s.inFlight| + s.finished == (if s.man.pending == [] then 0 else 1)
    && (s.inFlight != [] ==> s.inFlight[0] == s.man.pending[0])
    && (s.finished > 0 ==> s.dataOf == Some(s.man.pending[0]))
    && !s.broken
  }

  lemma {:induction false} EffectsAppend(a: seq<Effect>, b: seq<Effect>)
    ensures Deferrals(a + b) == Deferrals(a) + Deferrals(b)
    ensures Fetches(a + b) == Fetches(a) + Fetches(b)
  {
    if b == [] {
      assert a + b == a;
    } else {
      assert (a + b)[..|a + b| - 1] == a + b[..|b| - 1];
      EffectsAppend(a, b[..|b| - 1]);
    }
  }

  lemma AnswersFetchNothing(request: Request, grid: Grid)
    ensures Deferrals(Answers(request, grid)) == 0 && Fetches(Answers(request, grid)) == []
  {
    var first := if request.callback.Some? then [PostCallback(request.callback.value, grid)] else [];
    var second := if request.identifier != Anonymous then [Emit(grid, request.identifier)] else [];
    EffectsAppend(first, second);
  }

  /** What one request does to the queue. */
  lemma SubmitQueues(m: Manager, call: Call, now: int)
    ensures var o := Submit(m, call, now);
            && o.man.clear == m.clear
            && Fetches(o.effects) == []
            && (if !Accepts(m, call) then o.man == m && Deferrals(o.effects) == 0
                else
                  && o.man.lastTs == now
                  && o.man.pending == (if TimedOut(m, now) then [] else m.pending) + [RequestOf(call)]
                  && Deferrals(o.effects) == if |o.man.pending| == 1 then 1 else 0)
  {
    var o := Submit(m, call, now);
    if o.effects != [] { assert o.effects[..|o.effects| - 1] == []; }
  }

  /** Requests made while others wait queue up behind them and start no fetch, unless the wait has timed out. */
  lemma {:induction false} NestedCallsQueueUp(m: Manager, calls: seq<Call>, now: int)
    requires m.pending != []
    ensures QueuedUp(m, SubmitAll(m, calls, now), Taken(m, calls), now)
  {
    if calls != [] {
      var front, last := calls[..|calls| - 1], calls[|calls| - 1];
      NestedCallsQueueUp(m, front, now);
      QueueUpOneMore(m, SubmitAll(m, front, now), Taken(m, front), last, now);
    }
  }

  /** The outcome after the requests `taken`. */
  predicate QueuedUp(m: Manager, o: Outcome, taken: seq<Request>, now: int) {
    && o.man.clear == m.clear
    && Fetches(o.effects) == []
    && (if taken == [] then o.man == m && Deferrals(o.effects) == 0
        else
          && o.man.lastTs == now
          && o.man.pending == (if TimedOut(m, now) then [] else m.pending) + taken
          && (!TimedOut(m, now) ==> Deferrals(o.effects) == 0))
  }

  lemma QueueUpOneMore(m: Manager, before: Outcome, taken: seq<Request>, call: Call, now: int)
    requires m.pending != [] && QueuedUp(m, before, taken, now)
    ensures var o := Submit(before.man, call, now);
            QueuedUp(m, Outcome(o.man, before.effects + o.effects),
                taken + (if Accepts(m, call) then [RequestOf(call)] else []), now)
  {
    var o := Submit(before.man, call, now);
    SubmitQueues(before.man, call, now);
    EffectsAppend(before.effects, o.effects);
    assert Accepts(before.man, call) == Accepts(m, call);
  }

  lemma AnswerStartsNextFetch(m: Manager, fetched: Grid, closest: Closest, nested: seq<Call>, now: int)
    requires m.pending != []
    ensures var o, during := HandleNext(m, fetched, closest, nested, now), SubmitAll(m, nested, now);
            && o.man.pending == during.man.pending[1..]
            && Deferrals(o.effects) == Deferrals(during.effects)
            && Fetches(o.effects) == Fetches(during.effects) + if o.man.pending == [] then [] else [o.man.pending[0]]
  {
    var grid := Interpolated(m.pending[0].grid, fetched, closest);
    var during := SubmitAll(m, nested, now);
    AnswersFetchNothing(m.pending[0], grid);
    EffectsAppend(Answers(m.pending[0], grid), during.effects);
    var rest := during.man.pending[1..];
    if rest != [] { OneFetchMore(Answers(m.pending[0], grid) + during.effects, rest[0]); }
  }

  lemma OneFetchMore(effects: seq<Effect>, request: Request)
    ensures Deferrals(effects + [Fetch(request)]) == Deferrals(effects)
    ensures Fetches(effects + [Fetch(request)]) == Fetches(effects) + [request]
  {
    assert (effects + [Fetch(request)])[..|effects|] == effects;
  }

  /** The queue after an answer, given that of the nested calls. */
  lemma NestedCallsShift(m: Manager, fetched: Grid, closest: Closest, nested: seq<Call>, now: int)
    requires m.pending != [] && (Taken(m, nested) == [] || !TimedOut(m, now))
    ensures var o := HandleNext(m, fetched, closest, nested, now);
            && o.man.pending == m.pending[1..] + Taken(m, nested)
            && Deferrals(o.effects) == 0
            && Fetches(o.effects) == if o.man.pending == [] then [] else [o.man.pending[0]]
  {
    NestedCallsQueueUp(m, nested, now);
    AnswerStartsNextFetch(m, fetched, closest, nested, now);
    FirstLeaves(m, SubmitAll(m, nested, now), HandleNext(m, fetched, closest, nested, now), Taken(m, nested), now);
  }

  lemma FirstLeaves(m: Manager, during: Outcome, o: Outcome, taken: seq<Request>, now: int)
    requires m.pending != [] && QueuedUp(m, during, taken, now) && (taken == [] || !TimedOut(m, now))
    requires during.man.pending != [] && o.man.pending == during.man.pending[1..]
    requires Deferrals(o.effects) == Deferrals(during.effects)
    requires Fetches(o.effects) == Fetches(during.effects) + if o.man.pending == [] then [] else [o.man.pending[0]]
    ensures o.man.pending == m.pending[1..] + taken && Deferrals(o.effects) == 0
    ensures Fetches(o.effects) == if o.man.pending == [] then [] else [o.man.pending[0]]
  {
    assert during.man.pending == m.pending + taken;
  }

  /** What a delivered answer does: the first request leaves, nested ones join, and the next fetch starts. */
  lemma DeliveryShifts(s: System, nested: seq<Call>, closest: Closest)
    requires s.man.pending != [] && s.finished > 0
    requires !CleansUp(s, Delivers(nested, closest))
    ensures var s' := Step(s, Delivers(nested, closest));
            && s'.man.pending == s.man.pending[1..] + Taken(s.man, nested)
            && s'.deferred == s.deferred
            && s'.inFlight == s.inFlight + if s'.man.pending == [] then [] else [s'.man.pending[0]]
  {
    NestedCallsShift(s.man, s.data, closest, nested, s.now);
    var o := HandleNext(s.man, s.data, closest, nested, s.now);
    var answered := Answered(s, o, Taken(s.man, nested));
    var s' := Step(s, Delivers(nested, closest));
    assert s' == answered.(replies := s'.replies, calls := s'.calls);
  }

  lemma DeliveryWithCleanUp(s: System, nested: seq<Call>, closest: Closest)
    requires s.man.pending != [] && s.finished > 0
    requires CleansUp(s, Delivers(nested, closest))
    ensures |Step(s, Delivers(nested, closest)).man.pending| == |Taken(s.man, nested)| - 1
  {
    NestedCallsQueueUp(s.man, nested, s.now);
  }

  lemma DeliveryKeepsOrder(s: System, nested: seq<Call>, closest: Closest)
    requires Orderly(s) && s.finished > 0
    ensures var e := Delivers(nested, closest); Orderly(Step(s, e)) <==> !CleansUp(s, e)
  {
    var e := Delivers(nested, closest);
    var m, s' := s.man, Step(s, e);
    assert s'.accepted == s.accepted + Taken(m, nested);
    assert |s'.answered| == |s.answered| + 1;
    if CleansUp(s, e) {
      DeliveryWithCleanUp(s, nested, closest);
      assert |s'.accepted| != |Requests(s'.answered) + s'.man.pending|;
    } else {
      DeliveryShifts(s, nested, closest);
      assert Requests(s'.answered) == Requests(s.answered) + [m.pending[0]];
      assert m.pending == [m.pending[0]] + m.pending[1..];
      assert s'.accepted == Requests(s'.answered) + s'.man.pending;
    }
  }

  lemma SubmissionKeepsOrder(s: System, call: Call)
    requires Orderly(s)
    ensures Orderly(Step(s, Submits(call))) <==> !CleansUp(s, Submits(call))
  {
    var m, s' := s.man, Step(s, Submits(call));
    SubmitQueues(m, call, s.now);
    assert Taken(m, [call]) == if Accepts(m, call) then [RequestOf(call)] else [];
    if CleansUp(s, Submits(call)) {
      assert s'.man.pending == [RequestOf(call)] && s'.answered == s.answered;
      LostRequestsAreMissed(s, s', call);
    } else {
      assert s'.man.pending == m.pending + Taken(m, [call]);
      assert s'.accepted == Requests(s'.answered) + s'.man.pending;
    }
  }

  lemma LostRequestsAreMissed(s: System, s': System, call: Call)
    requires Orderly(s) && s.man.pending != [] && s'.accepted == s.accepted + [RequestOf(call)]
    requires s'.man.pending == [RequestOf(call)] && s'.answered == s.answered
    ensures !Orderly(s')
  {
    assert |s'.accepted| != |Requests(s'.answered) + s'.man.pending|;
  }

  /** The protocol survives a step if and only if the step does not clean up. */
  lemma StepKeepsOrder(s: System, e: Event)
    requires Orderly(s) && Enabled(s, e)
    ensures Orderly(Step(s, e)) <==> !CleansUp(s, e)
  {
    match e
    case Submits(call) => SubmissionKeepsOrder(s, call);
    case Delivers(nested, closest) => DeliveryKeepsOrder(s, nested, closest);
    case _ =>
  }

  /** A run is orderly throughout exactly if no request ever cleans up. */
  lemma OrderlyIffNeverCleanedUp(states: seq<System>, events: seq<Event>)
    requires IsExecution(states, events)
    ensures (forall k :: 0 <= k < |states| ==> Orderly(states[k]))
       <==> (forall k :: 0 <= k < |events| ==> !CleansUp(states[k], events[k]))
  {
    if forall k :: 0 <= k < |events| ==> !CleansUp(states[k], events[k]) {
      forall k | 0 <= k < |states| ensures Orderly(states[k]) { OrderlyUntil(states, events, k); }
    } else {
      var k :| 0 <= k < |events| && CleansUp(states[k], events[k]);
      if Orderly(states[k]) {
        StepKeepsOrder(states[k], events[k]);
        assert !Orderly(states[k + 1]);
      }
    }
  }

  lemma {:induction false} OrderlyUntil(states: seq<System>, events: seq<Event>, k: nat)
    requires IsExecution(states, events) && k < |states|
    requires forall i :: 0 <= i < |events| ==> !CleansUp(states[i], events[i])
    ensures Orderly(states[k])
  {
    if k > 0 {
      OrderlyUntil(states, events, k - 1);
      StepKeepsOrder(states[k - 1], events[k - 1]);
    }
  }

  /** In words: the i-th answer is for the i-th accepted request and was computed from the fetch for that request,
      and never is more than one fetch or timer under way. */
  lemma AnsweredOnceInOrder(states: seq<System>, events: seq<Event>, k: nat, i: nat)
    requires IsExecution(states, events) && k < |states|
    requires forall j :: 0 <= j < |events| ==> !CleansUp(states[j], events[j])
    requires i < |states[k].answered|
    ensures i < |states[k].accepted| && states[k].answered[i].request == states[k].accepted[i]
    ensures states[k].answered[i].fetchedFor == Some(states[k].accepted[i])
    ensures |states[k].accepted| == |states[k].answered| + |states[k].man.pending|
    ensures states[k].deferred + |states[k].inFlight| + states[k].finished <= 1
    ensures states[k].man.pending == [] <==> states[k].deferred + |states[k].inFlight| + states[k].finished == 0
  {
    OrderlyUntil(states, events, k);
    assert states[k].accepted[i] == Requests(states[k].answered)[i];
  }

  lemma {:induction false} TellingsAppend(a: seq<Effect>, b: seq<Effect>)
    ensures Tellings(a + b) == Tellings(a) + Tellings(b)
    decreases |b|
  {
    if b == [] {
      assert a + b == a;
    } else {
      assert (a + b)[..|a + b| - 1] == a + b[..|b| - 1];
      TellingsAppend(a, b[..|b| - 1]);
    }
  }

  lemma {:induction false} ToldAppend(a: seq<Reply>, b: seq<Reply>)
    ensures AllTold(a + b) == AllTold(a) + AllTold(b)
    decreases |b|
  {
    if b == [] {
      assert a + b == a;
    } else {
      assert (a + b)[..|a + b| - 1] == a + b[..|b| - 1];
      ToldAppend(a, b[..|b| - 1]);
    }
  }

  lemma {:induction false} ServedAppend(a: seq<Reply>, b: seq<Reply>)
    ensures ServedAnswers(a + b) == ServedAnswers(a) + ServedAnswers(b)
    decreases |b|
  {
    if b == [] {
      assert a + b == a;
    } else {
      assert (a + b)[..|a + b| - 1] == a + b[..|b| - 1];
      ServedAppend(a, b[..|b| - 1]);
    }
  }

  lemma RepliesAppend(a: seq<Reply>, b: seq<Reply>)
    ensures AllTold(a + b) == AllTold(a) + AllTold(b)
    ensures ServedAnswers(a + b) == ServedAnswers(a) + ServedAnswers(b)
  {
    ToldAppend(a, b);
    ServedAppend(a, b);
  }

  /** A call is told something if and only if it is answered with clear weather. */
  lemma SubmitTells(m: Manager, call: Call, now: int)
    ensures Tellings(Submit(m, call, now).effects) == AllTold(ClearReplies(m, [call]))
    ensures ServedAnswers(ClearReplies(m, [call])) == []
  {
    var effects := Submit(m, call, now).effects;
    if effects != [] { assert effects[..|effects| - 1] == []; }
    var clear := ClearReplies(m, [call]);
    assert ClearReplies(m, [call][..0]) == [];
    if clear != [] { assert clear[..|clear| - 1] == []; }
  }

  lemma {:induction false} NestedCallsTell(m: Manager, calls: seq<Call>, now: int)
    ensures Tellings(SubmitAll(m, calls, now).effects) == AllTold(ClearReplies(m, calls))
    ensures ServedAnswers(ClearReplies(m, calls)) == [] && SubmitAll(m, calls, now).man.clear == m.clear
  {
    if calls != [] {
      var front, last := calls[..|calls| - 1], calls[|calls| - 1];
      var before := SubmitAll(m, front, now);
      NestedCallsTell(m, front, now);
      TellOneMore(m, before.man, last, now);
      TellingsAppend(before.effects, Submit(before.man, last, now).effects);
      RepliesAppend(ClearReplies(m, front), if AnsweredClear(m, last) then [ClearWeather(last.callback.value)] else []);
    }
  }

  lemma TellOneMore(m: Manager, before: Manager, call: Call, now: int)
    requires before.clear == m.clear
    ensures var clear := if AnsweredClear(m, call) then [ClearWeather(call.callback.value)] else [];
            && Tellings(Submit(before, call, now).effects) == AllTold(clear)
            && ServedAnswers(clear) == []
            && Submit(before, call, now).man.clear == m.clear
  {
    SubmitTells(before, call, now);
    assert AnsweredClear(before, call) == AnsweredClear(m, call);
    assert ClearReplies(before, [call][..0]) == [];
  }

  /** An answer tells the caller of the first request, from the data just fetched, and nested callers of clear
      weather. */
  lemma AnswerTells(m: Manager, answer: Answer, closest: Closest, nested: seq<Call>, now: int)
    requires m.pending != [] && answer.request == m.pending[0]
    ensures Tellings(HandleNext(m, answer.data, closest, nested, now).effects)
            == AllTold([Served(answer, closest)] + ClearReplies(m, nested))
    ensures ServedAnswers([Served(answer, closest)] + ClearReplies(m, nested)) == [answer]
  {
    var answers := ToldBy(Served(answer, closest));
    var during := SubmitAll(m, nested, now);
    NestedCallsTell(m, nested, now);
    ServedIsTold(answer, closest);
    RepliesAppend([Served(answer, closest)], ClearReplies(m, nested));
    TellingsAppend(answers, during.effects);
    var rest := during.man.pending[1..];
    if rest != [] { FetchTellsNothing(answers + during.effects, rest[0]); }
  }

  lemma FetchTellsNothing(effects: seq<Effect>, request: Request)
    ensures Tellings(effects + [Fetch(request)]) == Tellings(effects)
  {
    assert (effects + [Fetch(request)])[..|effects|] == effects;
  }

  lemma ServedIsTold(answer: Answer, closest: Closest)
    ensures AllTold([Served(answer, closest)]) == ToldBy(Served(answer, closest))
            && ServedAnswers([Served(answer, closest)]) == [answer]
    ensures Tellings(ToldBy(Served(answer, closest))) == ToldBy(Served(answer, closest))
  {
    assert [Served(answer, closest)][..0] == [];
    assert AllTold([]) == [] && ServedAnswers([]) == [];
    AnswersAreTold(answer.request, Interpolated(answer.request.grid, answer.data, closest));
  }

  lemma AnswersAreTold(request: Request, grid: Grid)
    ensures Tellings(Answers(request, grid)) == Answers(request, grid)
  {
    var first := if request.callback.Some? then [PostCallback(request.callback.value, grid)] else [];
    var second := if request.identifier != Anonymous then [Emit(grid, request.identifier)] else [];
    if first != [] { assert first[..0] == []; }
    if second != [] { assert second[..0] == []; }
    TellingsAppend(first, second);
  }

  lemma {:induction false} EmissionsAppend(a: seq<Effect>, b: seq<Effect>)
    ensures Emissions(a + b) == Emissions(a) + Emissions(b)
    ensures Postings(a + b) == Postings(a) + Postings(b)
    decreases |b|
  {
    if b == [] {
      assert a + b == a;
    } else {
      assert (a + b)[..|a + b| - 1] == a + b[..|b| - 1];
      EmissionsAppend(a, b[..|b| - 1]);
    }
  }

  /** Nothing but the replies was set off, and the served ones are the answers. Of these, the signals have been emitted
      in this order, and each callback either has been called or still waits for its timer, as often as it was
      posted. */
  predicate TellsItsReplies(s: System) {
    && s.told == AllTold(s.replies) && ServedAnswers(s.replies) == s.answered
    && s.emitted == Emissions(AllTold(s.replies))
    && multiset(s.called) + multiset(s.posted) == multiset(Postings(AllTold(s.replies)))
  }

  lemma OutcomeIsTold(s: System, o: Outcome, replies: seq<Reply>)
    requires TellsItsReplies(s) && Tellings(o.effects) == AllTold(replies)
    ensures var s', all := Perform(s, o), AllTold(s.replies + replies);
            && s'.told == all && s'.emitted == Emissions(all)
            && multiset(s'.called) + multiset(s'.posted) == multiset(Postings(all))
  {
    RepliesAppend(s.replies, replies);
    EmissionsAppend(AllTold(s.replies), AllTold(replies));
  }

  lemma StepTellsReplies(s: System, e: Event)
    requires TellsItsReplies(s) && Enabled(s, e)
    ensures TellsItsReplies(Step(s, e))
  {
    if e.Submits? {
      SubmitTells(s.man, e.call, s.now);
      RepliesAppend(s.replies, ClearReplies(s.man, [e.call]));
      OutcomeIsTold(s, Submit(s.man, e.call, s.now), ClearReplies(s.man, [e.call]));
    } else if e.Delivers? && s.man.pending != [] {
      var answer := Answer(s.man.pending[0], s.dataOf, s.data);
      AnswerTells(s.man, answer, e.closest, e.nested, s.now);
      var replies := [Served(answer, e.closest)] + ClearReplies(s.man, e.nested);
      RepliesAppend(s.replies, replies);
      OutcomeIsTold(s, HandleNext(s.man, s.data, e.closest, e.nested, s.now), replies);
    } else if e.CallbackRuns? {
      assert s.posted == s.posted[..e.which] + [s.posted[e.which]] + s.posted[e.which + 1..];
    }
  }

  /** In every run, clean-ups or not: each answered request is posted to its callback and signalled to its listeners
      once, in the order of the answers, with weather interpolated from the data of the answer; apart from clear
      weather, nothing else is told; and no callback is lost or called twice. */
  lemma {:induction false} CallersAreToldTheirAnswers(states: seq<System>, events: seq<Event>, k: nat)
    requires IsExecution(states, events) && k < |states|
    ensures TellsItsReplies(states[k])
  {
    if k > 0 {
      CallersAreToldTheirAnswers(states, events, k - 1);
      StepTellsReplies(states[k - 1], events[k - 1]);
    }
  }

  /** Steps of the token until everything is answered. */
  function Distance(s: System): nat
    requires Orderly(s)
  {
    if s.man.pending == [] then 0
    else 2 * (|s.man.pending| - 1) + if s.finished > 0 then 1 else if s.inFlight != [] then 2 else 3
  }

  /** The token moves, and no new request is made. */
  predicate MovesToken(e: Event) {
    e.DeferredFires? || e.FetchFinishes? || (e.Delivers? && e.nested == [])
  }

  /** While requests wait, the token can move, and every move brings the end one step closer. */
  lemma TokenMakesProgress(s: System)
    requires Orderly(s)
    ensures s.man.pending != [] ==> exists e :: MovesToken(e) && Enabled(s, e)
    ensures forall e :: MovesToken(e) && Enabled(s, e) ==>
      Orderly(Step(s, e)) && Distance(Step(s, e)) == Distance(s) - 1 && Step(s, e).accepted == s.accepted
  {
    if s.man.pending != [] {
      var e := if s.deferred > 0 then DeferredFires else if s.inFlight != [] then FetchFinishes(0, [])
               else Delivers([], (grid, position) => Point("", position, 0));
      assert MovesToken(e) && Enabled(s, e);
    }
    forall e | MovesToken(e) && Enabled(s, e)
      ensures Orderly(Step(s, e)) && Distance(Step(s, e)) == Distance(s) - 1 && Step(s, e).accepted == s.accepted
    {
      StepKeepsOrder(s, e);
      if e.Delivers? { DeliveryShifts(s, e.nested, e.closest); }
    }
  }

  ghost predicate IsDrain(states: seq<System>, events: seq<Event>) {
    && |states| == |events| + 1
    && forall k :: 0 <= k < |events| ==>
         MovesToken(events[k]) && Enabled(states[k], events[k]) && states[k + 1] == Step(states[k], events[k])
  }

  /** Left alone, the manager answers all waiting requests with exactly as many token moves as their distance says. */
  lemma {:induction false} WaitingRequestsAreAnswered(states: seq<System>, events: seq<Event>)
    requires IsDrain(states, events) && Orderly(states[0])
    ensures |events| <= Distance(states[0])
    ensures var last := states[|states| - 1];
            Orderly(last) && Distance(last) == Distance(states[0]) - |events| && last.accepted == states[0].accepted
    ensures |events| == Distance(states[0]) ==>
            states[|states| - 1].man.pending == [] && Requests(states[|states| - 1].answered) == states[0].accepted
  {
    if events != [] {
      var n := |events| - 1;
      WaitingRequestsAreAnswered(states[..n + 1], events[..n]);
      assert states[..n + 1][|states[..n + 1]| - 1] == states[n];
      TokenMakesProgress(states[n]);
    }
  }

  /** The clean-up does not stop the fetch under way: a request made 30 s after the last one is answered with the data
      fetched for a dropped one, and its own fetch then finds no request at all. */
  lemma CleanUpAnswersFromForeignFetch(early: Grid, late: Grid, data: Grid, closest: Closest)
    returns (states: seq<System>, events: seq<Event>)
    requires IsUsable(early) && IsUsable(late) && early != late
    ensures IsExecution(states, events)
    ensures var last := states[|states| - 1];
            var dropped, request := Request("", Named(1), early, None), Request("", Named(2), late, None);
            && last.accepted == [dropped, request]
            && last.answered == [Answer(request, Some(dropped), data)]
            && last.man.pending == []
            && last.broken
  {
    var s4;
    states, events, s4 := CleanedUp(early, late);
    var s5 := Step(s4, FetchFinishes(0, data));
    var s6 := AfterDelivery(s5, closest);
    states, events := Extend(states, events, FetchFinishes(0, data), s5);
    states, events := Extend(states, events, Delivers([], closest), s6);
    states, events := Extend(states, events, DeferredFires, Step(s6, DeferredFires));
  }

  /** The first half: the fetch of the early request is under way when the late one drops it. */
  lemma CleanedUp(early: Grid, late: Grid) returns (states: seq<System>, events: seq<Event>, last: System)
    requires IsUsable(early) && IsUsable(late)
    ensures IsExecution(states, events) && last == states[|states| - 1]
    ensures var dropped, request := Request("", Named(1), early, None), Request("", Named(2), late, None);
            last == System(Manager([request], 31001, false), 1, [dropped], 0, None, [], 31001, [dropped, request],
                           [ByIdentifier(early, Named(1)), ByIdentifier(late, Named(2))],
                           [], false, [], [], [], [], [])
  {
    var s2;
    states, events, s2 := FetchUnderWay(early);
    var s3 := Step(s2, Passes(REQUEST_TIMEOUT_MS + 1));
    last := AfterSubmit(s3, ByIdentifier(late, Named(2)));
    states, events := Extend(states, events, Passes(REQUEST_TIMEOUT_MS + 1), s3);
    states, events := Extend(states, events, Submits(ByIdentifier(late, Named(2))), last);
  }

  lemma FetchUnderWay(early: Grid) returns (states: seq<System>, events: seq<Event>, last: System)
    requires IsUsable(early)
    ensures IsExecution(states, events) && last == states[|states| - 1]
    ensures var request := Request("", Named(1), early, None);
            last == System(Manager([request], 1000, false), 0, [request], 0, None, [], 1000, [request],
                           [ByIdentifier(early, Named(1))], [], false, [], [], [], [], [])
  {
    var s0 := Initial(1000);
    var s1 := AfterSubmit(s0, ByIdentifier(early, Named(1)));
    last := Step(s1, DeferredFires);
    states, events := [s0], [];
    states, events := Extend(states, events, Submits(ByIdentifier(early, Named(1))), s1);
    states, events := Extend(states, events, DeferredFires, last);
  }

  lemma Extend(states: seq<System>, events: seq<Event>, e: Event, s': System)
    returns (longer: seq<System>, more: seq<Event>)
    requires IsExecution(states, events) && Enabled(states[|states| - 1], e) && s' == Step(states[|states| - 1], e)
    ensures IsExecution(longer, more) && longer[|longer| - 1] == s'
  {
    longer, more := states + [s'], events + [e];
  }

  lemma AfterDelivery(s: System, closest: Closest) returns (s': System)
    requires s.finished > 0 && |s.man.pending| == 1
    ensures s' == Step(s, Delivers([], closest))
    ensures s'.man.pending == [] && s'.deferred == s.deferred && s'.accepted == s.accepted && s'.broken == s.broken
    ensures s'.answered == s.answered + [Answer(s.man.pending[0], s.dataOf, s.data)]
  {
    DeliveryShifts(s, [], closest);
    s' := Step(s, Delivers([], closest));
  }

  lemma AfterSubmit(s: System, call: Call) returns (s': System)
    requires Accepts(s.man, call)
    ensures s' == Step(s, Submits(call))
    ensures s'.man == Append(s.man, RequestOf(call), s.now) && s'.accepted == s.accepted + [RequestOf(call)]
    ensures s'.inFlight == s.inFlight && s'.deferred == s.deferred + if |s'.man.pending| == 1 then 1 else 0
    ensures s' == s.(man := s'.man, accepted := s'.accepted, calls := s.calls + [call], deferred := s'.deferred)
  {
    SubmitQueues(s.man, call, s.now);
    SubmitTells(s.man, call, s.now);
    s' := Step(s, Submits(call));
    assert Taken(s.man, [call]) == [RequestOf(call)] && TakenCalls(s.man, [call]) == [call];
    assert ClearReplies(s.man, [call]) == [] && AllTold([]) == [];
  }
}
