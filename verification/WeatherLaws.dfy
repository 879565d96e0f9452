/** What a caller of the weather manager gets, told from the call alone. */
module WeatherLaws {
  import opened Common
  import opened WeatherSpec
  import opened WeatherProtocol

  /** Every asked point keeps its name and has position and weather of the closest fetched point. */
  ghost predicate IsInterpolated(result: Grid, asked: Grid, fetched: Grid, closest: Closest) {
    && |result| == |asked|
    && forall i :: 0 <= i < |asked| ==>
         && result[i].name == asked[i].name
         && result[i].position == closest(fetched, asked[i].position).position
         && result[i].weather == closest(fetched, asked[i].position).weather
  }

  /** What is told about the answer `grid`: a call by identifier has it signalled under its identifier, unless that is
      the anonymous one; a call by callback, or from a file, has it posted to its callback and signalled under the null
      one. */
  ghost predicate TellsCaller(told: seq<Effect>, call: Call, grid: Grid) {
    match call
    case ByIdentifier(_, identifier) => told == if identifier == Anonymous then [] else [Emit(grid, identifier)]
    case ByCallback(_, callback) => callback.Some? && told == [PostCallback(callback.value, grid), Emit(grid, Null)]
    case FromFile(_, _, callback) =>
      told == if callback.Some? then [PostCallback(callback.value, grid), Emit(grid, Null)] else [Emit(grid, Null)]
  }

  /** The fetch is for the grid of the call, and for its file if it names one. */
  predicate FetchesFor(request: Request, call: Call) {
    request.grid == call.grid && request.filePath == if call.FromFile? then call.filePath else ""
  }

  /** Which calls are queued: usable ones; under clear weather only those that cannot be called back. */
  predicate IsQueued(call: Call, clear: bool) {
    match call
    case ByIdentifier(grid, identifier) => identifier != Null && grid != [] && grid[0].position.Some?
    case ByCallback(grid, callback) => callback.Some? && grid != [] && grid[0].position.Some? && !clear
    case FromFile(_, _, callback) => callback.None? || !clear
  }

  /** Which calls get clear weather posted instead. */
  predicate GetsClearWeather(call: Call, clear: bool) {
    match call
    case ByIdentifier(_, _) => false
    case ByCallback(grid, callback) => callback.Some? && grid != [] && grid[0].position.Some? && clear
    case FromFile(_, _, callback) => callback.Some? && clear
  }

  // ----- the stored requests stand for the calls -----

  predicate CallsMatch(s: System) {
    && |s.accepted| == |s.calls|
    && (forall i :: 0 <= i < |s.calls| ==> s.accepted[i] == RequestOf(s.calls[i]))
    && (forall i :: 0 <= i < |s.calls| ==> s.calls[i].ByCallback? ==> s.calls[i].callback.Some?)
  }

  lemma {:induction false} TakenCallsMatch(m: Manager, calls: seq<Call>)
    ensures |Taken(m, calls)| == |TakenCalls(m, calls)|
    ensures forall i :: 0 <= i < |TakenCalls(m, calls)| ==>
      && Taken(m, calls)[i] == RequestOf(TakenCalls(m, calls)[i])
      && (TakenCalls(m, calls)[i].ByCallback? ==> TakenCalls(m, calls)[i].callback.Some?)
  {
    if calls != [] { TakenCallsMatch(m, calls[..|calls| - 1]); }
  }

  lemma StepKeepsCalls(s: System, e: Event)
    requires Enabled(s, e) && CallsMatch(s)
    ensures CallsMatch(Step(s, e))
  {
    if e.Submits? {
      TakenCallsMatch(s.man, [e.call]);
    } else if e.Delivers? {
      TakenCallsMatch(s.man, e.nested);
      assert s.man.pending != [] ==> Step(s, e).accepted == s.accepted + Taken(s.man, e.nested);
    }
  }

  lemma {:induction false} CallsAlwaysMatch(states: seq<System>, events: seq<Event>, k: nat)
    requires IsExecution(states, events) && k < |states|
    ensures CallsMatch(states[k])
  {
    if k > 0 {
      CallsAlwaysMatch(states, events, k - 1);
      StepKeepsCalls(states[k - 1], events[k - 1]);
    }
  }

  // ----- clear weather -----

  /** Clear weather, posted to the callback of one of the calls. */
  ghost predicate AreClearPosts(told: seq<Effect>, calls: seq<Call>, clear: bool) {
    forall i :: 0 <= i < |told| ==> told[i].PostCallback? && IsClearPost(told[i], calls, clear)
  }

  ghost predicate IsClearPost(effect: Effect, calls: seq<Call>, clear: bool)
    requires effect.PostCallback?
  {
    exists call :: call in calls && GetsClearWeather(call, clear) && call.callback.value == effect.callback
                && effect.grid == CLEAR_WEATHER
  }

  lemma {:induction false} ClearRepliesArePosts(m: Manager, calls: seq<Call>)
    ensures AreClearPosts(AllTold(ClearReplies(m, calls)), calls, m.clear)
  {
    if calls != [] {
      var front, last := calls[..|calls| - 1], calls[|calls| - 1];
      assert calls == front + [last];
      ClearRepliesArePosts(m, front);
      var before, after := AllTold(ClearReplies(m, front)), AllTold(ClearReplies(m, calls));
      if AnsweredClear(m, last) {
        var reply := ClearWeather(last.callback.value);
        OneReplyMore(ClearReplies(m, front), reply);
        assert GetsClearWeather(last, m.clear) && last in calls;
        assert IsClearPost(PostCallback(last.callback.value, CLEAR_WEATHER), calls, m.clear);
        assert after == before + [PostCallback(last.callback.value, CLEAR_WEATHER)];
      } else {
        assert ClearReplies(m, calls) == ClearReplies(m, front);
      }
      ClearPostsJoin(before, after, front, calls, m.clear);
    }
  }

  lemma OneReplyMore(replies: seq<Reply>, reply: Reply)
    ensures AllTold(replies + [reply]) == AllTold(replies) + ToldBy(reply)
  {
    assert (replies + [reply])[..|replies|] == replies;
  }

  lemma ClearPostsJoin(before: seq<Effect>, after: seq<Effect>, front: seq<Call>, calls: seq<Call>, clear: bool)
    requires AreClearPosts(before, front, clear) && (forall call :: call in front ==> call in calls)
    requires before <= after && |after| <= |before| + 1
    requires |after| > |before| ==>
      after[|before|].PostCallback? && IsClearPost(after[|before|], calls, clear)
    ensures AreClearPosts(after, calls, clear)
  {
    forall i | 0 <= i < |after| ensures after[i].PostCallback? && IsClearPost(after[i], calls, clear) {
      if i < |before| { assert after[i] == before[i] && IsClearPost(before[i], front, clear); }
    }
  }

  // ----- main results -----

  /** Without clean-ups, a delivery answers the oldest call that is still waiting, and tells its caller, and nobody
      else, the grid of that call interpolated from a fetch for it; the listeners' own calls may get clear weather on
      top. */
  lemma DeliveryAnswersItsCall(states: seq<System>, events: seq<Event>, k: nat)
    returns (call: Call, grid: Grid, told: seq<Effect>, clear: seq<Effect>)
    requires IsExecution(states, events) && k < |events| && events[k].Delivers? && states[k].man.pending != []
    requires forall j :: 0 <= j < |events| ==> !CleansUp(states[j], events[j])
    ensures |states[k].answered| < |states[k].calls| && call == states[k].calls[|states[k].answered|]
    ensures states[k].dataOf.Some? && FetchesFor(states[k].dataOf.value, call)
    ensures IsInterpolated(grid, call.grid, states[k].data, events[k].closest) && TellsCaller(told, call, grid)
    ensures AreClearPosts(clear, events[k].nested, states[k].man.clear)
    ensures states[k + 1].told == states[k].told + told + clear && |states[k + 1].answered| == |states[k].answered| + 1
  {
    var s, e := states[k], events[k];
    OrderlyUntil(states, events, k);
    CallsAlwaysMatch(states, events, k);
    call := OldestCallWaits(s);
    grid, told, clear := DeliveryTells(s, e, call);
  }

  /** The request at the head of the queue stands for the oldest call that is still waiting. */
  lemma OldestCallWaits(s: System) returns (call: Call)
    requires Orderly(s) && CallsMatch(s) && s.man.pending != []
    ensures |s.answered| < |s.calls| && call == s.calls[|s.answered|]
    ensures s.man.pending[0] == RequestOf(call) && (call.ByCallback? ==> call.callback.Some?)
  {
    assert s.accepted[|s.answered|] == s.man.pending[0];
    call := s.calls[|s.answered|];
  }

  lemma DeliveryTells(s: System, e: Event, call: Call) returns (grid: Grid, told: seq<Effect>, clear: seq<Effect>)
    requires Enabled(s, e) && e.Delivers? && s.man.pending != []
    requires s.man.pending[0] == RequestOf(call) && (call.ByCallback? ==> call.callback.Some?)
    ensures IsInterpolated(grid, call.grid, s.data, e.closest) && TellsCaller(told, call, grid)
    ensures AreClearPosts(clear, e.nested, s.man.clear)
    ensures Step(s, e).told == s.told + told + clear && |Step(s, e).answered| == |s.answered| + 1
  {
    grid := InterpolatedGrid(call.grid, s.data, e.closest);
    told, clear := Answers(RequestOf(call), grid), AllTold(ClearReplies(s.man, e.nested));
    DeliveryTold(s, e);
    ClearRepliesArePosts(s.man, e.nested);
    RequestTellsCaller(call, grid);
  }

  lemma InterpolatedGrid(asked: Grid, fetched: Grid, closest: Closest) returns (grid: Grid)
    ensures grid == Interpolated(asked, fetched, closest) && IsInterpolated(grid, asked, fetched, closest)
  {
    grid := Interpolated(asked, fetched, closest);
  }

  lemma DeliveryTold(s: System, e: Event)
    requires Enabled(s, e) && e.Delivers? && s.man.pending != []
    ensures var request := s.man.pending[0];
            Step(s, e).told == s.told + Answers(request, Interpolated(request.grid, s.data, e.closest))
                               + AllTold(ClearReplies(s.man, e.nested))
    ensures |Step(s, e).answered| == |s.answered| + 1
  {
    var answer := Answer(s.man.pending[0], s.dataOf, s.data);
    var o := HandleNext(s.man, s.data, e.closest, e.nested, s.now);
    AnswerTells(s.man, answer, e.closest, e.nested, s.now);
    ToldAppend([Served(answer, e.closest)], ClearReplies(s.man, e.nested));
    ServedIsTold(answer, e.closest);
    DeliveryAddsItsTellings(s, e);
    assert s.told + Tellings(o.effects) == s.told + ToldBy(Served(answer, e.closest))
                                           + AllTold(ClearReplies(s.man, e.nested));
  }

  lemma DeliveryAddsItsTellings(s: System, e: Event)
    requires Enabled(s, e) && e.Delivers? && s.man.pending != []
    ensures Step(s, e).told == s.told + Tellings(HandleNext(s.man, s.data, e.closest, e.nested, s.now).effects)
    ensures |Step(s, e).answered| == |s.answered| + 1
  {
  }

  lemma RequestTellsCaller(call: Call, grid: Grid)
    requires call.ByCallback? ==> call.callback.Some?
    ensures TellsCaller(Answers(RequestOf(call), grid), call, grid)
  {
  }

  /** A call is queued, or answered with clear weather, or rejected, as its own fields and the override say. */
  lemma SubmissionDoesWhatItSays(states: seq<System>, events: seq<Event>, k: nat)
    requires IsExecution(states, events) && k < |events| && events[k].Submits?
    ensures var call, clear := events[k].call, states[k].man.clear;
            && states[k + 1].calls == states[k].calls + (if IsQueued(call, clear) then [call] else [])
            && states[k + 1].told == states[k].told
                 + (if GetsClearWeather(call, clear)
                    then [PostCallback(call.callback.value, [Point("GLOB", Some(0), 0)])] else [])
            && (!IsQueued(call, clear) ==> states[k + 1].man == states[k].man)
  {
    var s, call := states[k], events[k].call;
    SubmitTells(s.man, call, s.now);
    SubmitQueues(s.man, call, s.now);
    assert Accepts(s.man, call) <==> IsQueued(call, s.man.clear);
    assert AnsweredClear(s.man, call) <==> GetsClearWeather(call, s.man.clear);
    assert TakenCalls(s.man, [call]) == if Accepts(s.man, call) then [call] else [];
    var replies := ClearReplies(s.man, [call]);
    assert ClearReplies(s.man, [call][..0]) == [];
    if replies != [] { assert replies[..0] == [] && AllTold(replies) == [] + ToldBy(replies[0]); }
  }

  /** Nothing else is ever told. */
  lemma OthersTellNothing(states: seq<System>, events: seq<Event>, k: nat)
    requires IsExecution(states, events) && k < |events| && !events[k].Submits?
    requires events[k].Delivers? ==> states[k].man.pending == []
    ensures states[k + 1].told == states[k].told && states[k + 1].calls == states[k].calls
  {
  }

  /** The fetch under way is for the oldest call that is still waiting. */
  lemma FetchIsForTheCall(states: seq<System>, events: seq<Event>, k: nat)
    requires IsExecution(states, events) && k < |states| && states[k].inFlight != []
    requires forall j :: 0 <= j < |events| ==> !CleansUp(states[j], events[j])
    ensures |states[k].answered| < |states[k].calls|
    ensures FetchesFor(states[k].inFlight[0], states[k].calls[|states[k].answered|])
  {
    var s := states[k];
    OrderlyUntil(states, events, k);
    CallsAlwaysMatch(states, events, k);
    var call := OldestCallWaits(s);
  }

  // ----- the clean-up -----

  /** When a call was queued last before state `k`; -1 if none was. */
  function LastQueuedAt(states: seq<System>, k: nat): int
    requires k < |states|
  {
    if k == 0 then -1
    else if |states[k].calls| > |states[k - 1].calls| then states[k - 1].now
    else LastQueuedAt(states, k - 1)
  }

  /** The time stamp of the manager is that time, or -1 if nothing waits. */
  predicate StampedAt(s: System, queuedAt: int) {
    s.man.lastTs == if s.man.pending == [] then -1 else queuedAt
  }

  lemma StepKeepsStamp(s: System, e: Event, queuedAt: int)
    requires Enabled(s, e) && StampedAt(s, queuedAt)
    ensures StampedAt(Step(s, e), if |Step(s, e).calls| > |s.calls| then s.now else queuedAt)
  {
    if e.Submits? {
      SubmitQueues(s.man, e.call, s.now);
      assert TakenCalls(s.man, [e.call]) == if Accepts(s.man, e.call) then [e.call] else [];
    } else if e.Delivers? && s.man.pending != [] {
      NestedCallsQueueUp(s.man, e.nested, s.now);
      TakenCallsMatch(s.man, e.nested);
    }
  }

  lemma {:induction false} StampIsLastQueued(states: seq<System>, events: seq<Event>, k: nat)
    requires IsExecution(states, events) && k < |states|
    ensures StampedAt(states[k], LastQueuedAt(states, k))
  {
    if k > 0 {
      StampIsLastQueued(states, events, k - 1);
      StepKeepsStamp(states[k - 1], events[k - 1], LastQueuedAt(states, k - 1));
    }
  }

  lemma {:induction false} QueuedAfterTheStart(states: seq<System>, events: seq<Event>, k: nat)
    requires IsExecution(states, events) && k < |states| && states[0].now > 0
    ensures states[0].now <= states[k].now
    ensures states[k].man.pending != [] ==> LastQueuedAt(states, k) > 0
  {
    if k > 0 {
      QueuedAfterTheStart(states, events, k - 1);
      if states[k - 1].man.pending == [] { StepQueues(states[k - 1], events[k - 1]); }
    }
  }

  lemma StepQueues(s: System, e: Event)
    requires Enabled(s, e) && s.man.pending == []
    ensures Step(s, e).man.pending != [] ==> |Step(s, e).calls| > |s.calls|
  {
    if e.Submits? {
      SubmitQueues(s.man, e.call, s.now);
      assert TakenCalls(s.man, [e.call]) == if Accepts(s.man, e.call) then [e.call] else [];
    }
  }

  /** A call that is queued drops all waiting ones if and only if for more than 30 s no other was queued, and else waits
      behind them. */
  lemma WaitingCallsAreDroppedIff(states: seq<System>, events: seq<Event>, k: nat)
    requires IsExecution(states, events) && states[0].now > 0
    requires k < |events| && events[k].Submits? && IsQueued(events[k].call, states[k].man.clear)
    ensures var before, after := states[k].man.pending, states[k + 1].man.pending;
            && after != []
            && after[..|after| - 1] == (if states[k].now - LastQueuedAt(states, k) > 30000 then [] else before)
            && FetchesFor(after[|after| - 1], events[k].call)
  {
    StampIsLastQueued(states, events, k);
    QueuedAfterTheStart(states, events, k);
    SubmitQueues(states[k].man, events[k].call, states[k].now);
  }
}
