/** Runs of the input manager: edges alternate, snapshots are never lost outside captures, captures report the
    maximum. */
module Hotkeys {
  import opened Common
  import opened HotkeySpec

  /** The manager and its history: the last report of each device outside captures, the edges, the calls, the
      signals since the last start of a capture, and for every binding how many edges its action had before. */
  datatype System = System(
    mgr: Manager,
    keyboard: set<nat>,
    joystick: set<nat>,
    edges: seq<Edge>,
    effects: seq<Effect>,
    signals: seq<Signal>,
    since: map<nat, nat>)

  /** A report comes with the order in which its edges are worked off. */
  datatype Event =
    | Reports(fromKeyboard: bool, reported: Combination, edges: seq<Edge>)
    | Reload(settings: seq<Hotkey>)
    | Reset
    | Binds(action: Action)
    | Unbinds(index: nat)
    | StartsCapture
    | SetForwarding(enabled: bool)
    | Triggers(combination: Combination)

  const INITIAL_SYSTEM := System(INITIAL, {}, {}, [], [], [], map[])

  ghost predicate Enabled(s: System, e: Event) {
    e.Reports? ==>
      var c := Merge(s.mgr, e.fromKeyboard, e.reported);
      if s.mgr.capturing then e.edges == [] else AreEdges(e.edges, Pressed(s.mgr, c), Released(s.mgr, c))
  }

  function Step(s: System, e: Event): System {
    var m := s.mgr;
    match e
    case Reports(fromKeyboard, reported, edges) =>
      var c := Merge(m, fromKeyboard, reported);
      var processed := s.(mgr := Process(m, c), edges := s.edges + edges, effects := s.effects + CallAll(m, edges));
      if m.capturing then processed.(signals := s.signals + Capture(m, c).1)
      else if fromKeyboard then processed.(keyboard := reported.keys)
      else processed.(joystick := reported.buttons)
    case Reload(settings) => s.(mgr := m.(configured := Configured(settings)))
    case Reset => s.(mgr := m.(configured := map[]))
    case Binds(action) =>
      s.(mgr := m.(bound := m.bound + [Binding(m.nextIndex, action)], nextIndex := m.nextIndex + 1),
         since := s.since[m.nextIndex := |EdgesOf(s.edges, action)|])
    case Unbinds(index) => s.(mgr := m.(bound := Unbound(m.bound, index)))
    case StartsCapture => s.(mgr := m.(capturing := true, captured := NOTHING, before := m.last), signals := [])
    case SetForwarding(enabled) => s.(mgr := m.(relaying := enabled))
    case Triggers(c) =>
      s.(mgr := Trigger(m, c).0, effects := s.effects + Trigger(m, c).1,
         edges := s.edges + [Edge(LookUp(m.configured, m.last), false), Edge(LookUp(m.configured, c), true)])
  }

  /** State k+1 follows from state k by event k, from the start of the program. */
  ghost predicate IsRun(states: seq<System>, events: seq<Event>) {
    && |states| == |events| + 1
    && states[0] == INITIAL_SYSTEM
    && forall k :: 0 <= k < |events| ==>
         Enabled(states[k], events[k]) && states[k + 1] == Step(states[k], events[k])
  }

  /** Runs in which no key is triggered by hand. */
  ghost predicate IsExecution(states: seq<System>, events: seq<Event>) {
    IsRun(states, events) && forall k :: 0 <= k < |events| ==> !events[k].Triggers?
  }

  /** The edges of one action: true for a press. */
  function EdgesOf(edges: seq<Edge>, action: Action): seq<bool> {
    if edges == [] then []
    else
      var edge := edges[|edges| - 1];
      EdgesOf(edges[..|edges| - 1], action) + if edge.action == action then [edge.down] else []
  }

  /** The calls one handler has received. */
  function CallsOf(effects: seq<Effect>, index: nat): seq<bool> {
    if effects == [] then []
    else
      var effect := effects[|effects| - 1];
      CallsOf(effects[..|effects| - 1], index) + if effect.Invoke? && effect.index == index then [effect.down] else []
  }

  /** Press, release, press, ... */
  predicate Alternates(calls: seq<bool>) {
    forall i :: 0 <= i < |calls| ==> (calls[i] <==> i % 2 == 0)
  }

  lemma {:induction false} EdgesOfAppend(a: seq<Edge>, b: seq<Edge>, action: Action)
    ensures EdgesOf(a + b, action) == EdgesOf(a, action) + EdgesOf(b, action)
    decreases |b|
  {
    if b == [] {
      assert a + b == a;
    } else {
      assert (a + b)[..|a + b| - 1] == a + b[..|b| - 1];
      EdgesOfAppend(a, b[..|b| - 1], action);
    }
  }

  lemma {:induction false} CallsOfAppend(a: seq<Effect>, b: seq<Effect>, index: nat)
    ensures CallsOf(a + b, index) == CallsOf(a, index) + CallsOf(b, index)
    decreases |b|
  {
    if b == [] {
      assert a + b == a;
    } else {
      assert (a + b)[..|a + b| - 1] == a + b[..|b| - 1];
      CallsOfAppend(a, b[..|b| - 1], index);
    }
  }

  lemma {:induction false} EdgesOfEnumeration(actions: seq<Action>, down: bool, action: Action)
    requires NoDuplicates(actions)
    ensures EdgesOf(Edges(actions, down), action) == if action in actions then [down] else []
  {
    if actions != [] {
      var n := |actions| - 1;
      assert Edges(actions, down)[..n] == Edges(actions[..n], down);
      EdgesOfEnumeration(actions[..n], down, action);
      assert actions == actions[..n] + [actions[n]];
    }
  }

  lemma EdgesOfReport(edges: seq<Edge>, pressed: set<Action>, released: set<Action>, action: Action)
    requires AreEdges(edges, pressed, released) && pressed !! released
    ensures EdgesOf(edges, action) == if action in pressed then [true] else if action in released then [false] else []
  {
    var downs: seq<Action>, ups: seq<Action> :|
      Enumerates(downs, pressed) && Enumerates(ups, released) && edges == Edges(downs, true) + Edges(ups, false);
    EdgesOfEnumeration(downs, true, action);
    EdgesOfEnumeration(ups, false, action);
    EdgesOfAppend(Edges(downs, true), Edges(ups, false), action);
  }

  /** The active actions are those with an odd number of alternating edges. */
  predicate EdgesAgree(s: System, action: Action) {
    var edges := EdgesOf(s.edges, action);
    Alternates(edges) && (action in s.mgr.active <==> |edges| % 2 == 1)
  }

  lemma ReportKeepsEdges(s: System, e: Event, action: Action)
    requires EdgesAgree(s, action) && Enabled(s, e) && e.Reports? && !s.mgr.capturing
    ensures EdgesAgree(Step(s, e), action)
  {
    var c := Merge(s.mgr, e.fromKeyboard, e.reported);
    var pressed, released := action in Pressed(s.mgr, c), action in Released(s.mgr, c);
    EdgesOfReport(e.edges, Pressed(s.mgr, c), Released(s.mgr, c), action);
    EdgesOfAppend(s.edges, e.edges, action);
    AlternationGrows(EdgesOf(s.edges, action), action in s.mgr.active, pressed, released);
    assert Step(s, e).edges == s.edges + e.edges && Step(s, e).mgr.active == Matching(s.mgr.configured, c);
  }

  lemma AlternationGrows(before: seq<bool>, active: bool, pressed: bool, released: bool)
    requires Alternates(before) && (active <==> |before| % 2 == 1)
    requires (pressed ==> !active) && (released ==> active)
    ensures var after := before + if pressed then [true] else if released then [false] else [];
            Alternates(after) && (pressed || (active && !released) <==> |after| % 2 == 1)
  {
  }

  lemma StepKeepsEdges(s: System, e: Event, action: Action)
    requires EdgesAgree(s, action) && Enabled(s, e) && !e.Triggers?
    ensures EdgesAgree(Step(s, e), action)
  {
    if e.Reports? {
      if s.mgr.capturing {
        assert s.edges + e.edges == s.edges;
      } else {
        ReportKeepsEdges(s, e, action);
      }
    }
  }

  /** Down and up calls alternate for every action, and the last one was down exactly if the action is active. */
  lemma {:induction false} EdgesAlternate(states: seq<System>, events: seq<Event>, k: nat, action: Action)
    requires IsExecution(states, events) && k < |states|
    ensures EdgesAgree(states[k], action)
  {
    if k > 0 {
      EdgesAlternate(states, events, k - 1, action);
      StepKeepsEdges(states[k - 1], events[k - 1], action);
    }
  }

  predicate IndexesGrow(bound: seq<Binding>, nextIndex: nat) {
    && (forall i :: 0 <= i < |bound| ==> bound[i].index < nextIndex)
    && (forall i, j :: 0 <= i < j < |bound| ==> bound[i].index < bound[j].index)
  }

  lemma {:induction false} CallsOfInvocations(bound: seq<Binding>, nextIndex: nat, action: Action, down: bool,
                                              index: nat)
    requires IndexesGrow(bound, nextIndex)
    ensures CallsOf(Invocations(bound, action, down), index) == if Binding(index, action) in bound then [down] else []
  {
    if bound != [] {
      var front, last := bound[..|bound| - 1], bound[|bound| - 1];
      assert bound == front + [last];
      CallsOfInvocations(front, nextIndex, action, down, index);
      if last.action == action {
        CallsOfAppend(Invocations(front, action, down), [Invoke(last.index, down)], index);
        assert [Invoke(last.index, down)][..0] == [];
        assert CallsOf([Invoke(last.index, down)], index) == if last.index == index then [down] else [];
      } else {
        assert Invocations(bound, action, down) == Invocations(front, action, down);
      }
      if last.index == index {
        assert forall i :: 0 <= i < |front| ==> front[i].index != index;
        assert Binding(index, action) !in front;
      }
      assert Binding(index, action) in bound <==> Binding(index, action) in front || Binding(index, action) == last;
    }
  }

  lemma CallsOfFunctions(m: Manager, action: Action, down: bool, index: nat)
    requires IndexesGrow(m.bound, m.nextIndex)
    ensures CallsOf(CallFunctions(m, action, down, true), index)
         == if action != "" && Binding(index, action) in m.bound then [down] else []
  {
    if action != "" {
      CallsOfInvocations(m.bound, m.nextIndex, action, down, index);
      CallsOfAppend(if m.relaying then [Relay(action, down)] else [], Invocations(m.bound, action, down), index);
    }
  }

  lemma CallAllOne(m: Manager, edges: seq<Edge>, index: nat)
    requires edges != [] && IndexesGrow(m.bound, m.nextIndex)
    ensures var last := edges[|edges| - 1];
            CallsOf(CallAll(m, edges), index)
            == CallsOf(CallAll(m, edges[..|edges| - 1]), index)
               + if last.action != "" && Binding(index, last.action) in m.bound then [last.down] else []
  {
    var front, last := edges[..|edges| - 1], edges[|edges| - 1];
    CallsOfAppend(CallAll(m, front), CallFunctions(m, last.action, last.down, true), index);
    CallsOfFunctions(m, last.action, last.down, index);
  }

  /** A handler is called for the edges of its action, and for nothing else. */
  lemma {:induction false} CallsOfAll(m: Manager, edges: seq<Edge>, b: Binding)
    requires IndexesGrow(m.bound, m.nextIndex) && b in m.bound && b.action != ""
    ensures CallsOf(CallAll(m, edges), b.index) == EdgesOf(edges, b.action)
  {
    if edges != [] {
      var last := edges[|edges| - 1];
      CallsOfAll(m, edges[..|edges| - 1], b);
      CallAllOne(m, edges, b.index);
      assert Binding(b.index, last.action) in m.bound <==> last.action == b.action;
    }
  }

  lemma {:induction false} UnboundIsNotCalled(m: Manager, edges: seq<Edge>, index: nat)
    requires IndexesGrow(m.bound, m.nextIndex) && index >= m.nextIndex
    ensures CallsOf(CallAll(m, edges), index) == []
  {
    if edges != [] {
      UnboundIsNotCalled(m, edges[..|edges| - 1], index);
      CallAllOne(m, edges, index);
    }
  }

  /** What was relayed to the core for an action. */
  function RelaysOf(effects: seq<Effect>, action: Action): seq<bool> {
    if effects == [] then []
    else
      var effect := effects[|effects| - 1];
      RelaysOf(effects[..|effects| - 1], action)
      + if effect.Relay? && effect.action == action then [effect.down] else []
  }

  lemma {:induction false} RelaysOfAppend(a: seq<Effect>, b: seq<Effect>, action: Action)
    ensures RelaysOf(a + b, action) == RelaysOf(a, action) + RelaysOf(b, action)
    decreases |b|
  {
    if b == [] {
      assert a + b == a;
    } else {
      assert (a + b)[..|a + b| - 1] == a + b[..|b| - 1];
      RelaysOfAppend(a, b[..|b| - 1], action);
    }
  }

  lemma InvocationRelaysNothing(effects: seq<Effect>, index: nat, down: bool, action: Action)
    ensures RelaysOf(effects + [Invoke(index, down)], action) == RelaysOf(effects, action)
  {
    assert (effects + [Invoke(index, down)])[..|effects|] == effects;
  }

  lemma {:induction false} HandlersRelayNothing(bound: seq<Binding>, called: Action, down: bool, action: Action)
    ensures RelaysOf(Invocations(bound, called, down), action) == []
  {
    if bound != [] {
      var front, last := bound[..|bound| - 1], bound[|bound| - 1];
      HandlersRelayNothing(front, called, down, action);
      InvocationRelaysNothing(Invocations(front, called, down), last.index, down, action);
      if last.action != called { assert Invocations(bound, called, down) == Invocations(front, called, down); }
    }
  }

  lemma FunctionsAreRelayed(m: Manager, called: Action, down: bool, action: Action)
    requires action != ""
    ensures RelaysOf(CallFunctions(m, called, down, true), action)
         == if m.relaying && called == action then [down] else []
  {
    if called != "" {
      var relay := if m.relaying then [Relay(called, down)] else [];
      HandlersRelayNothing(m.bound, called, down, action);
      RelaysOfAppend(relay, Invocations(m.bound, called, down), action);
      if m.relaying {
        assert [Relay(called, down)][..0] == [];
        assert RelaysOf(relay, action) == if called == action then [down] else [];
      }
    }
  }

  /** The core is told the edges of every action, in order, while forwarding is enabled, and nothing otherwise. */
  lemma {:induction false} EdgesAreRelayed(m: Manager, edges: seq<Edge>, action: Action)
    requires action != ""
    ensures RelaysOf(CallAll(m, edges), action) == if m.relaying then EdgesOf(edges, action) else []
  {
    if edges != [] {
      var front, last := edges[..|edges| - 1], edges[|edges| - 1];
      EdgesAreRelayed(m, front, action);
      FunctionsAreRelayed(m, last.action, last.down, action);
      RelaysOfAppend(CallAll(m, front), CallFunctions(m, last.action, last.down, true), action);
    }
  }

  /** Since it was bound, a handler was called for exactly the edges of its action. */
  predicate SeesItsEdges(s: System, b: Binding) {
    && b.index in s.since
    && s.since[b.index] <= |EdgesOf(s.edges, b.action)|
    && CallsOf(s.effects, b.index) == EdgesOf(s.edges, b.action)[s.since[b.index]..]
  }

  ghost predicate HandlersAgree(s: System) {
    && IndexesGrow(s.mgr.bound, s.mgr.nextIndex)
    && (forall b :: b in s.mgr.bound && b.action != "" ==> SeesItsEdges(s, b))
    && (forall index :: index >= s.mgr.nextIndex ==> CallsOf(s.effects, index) == [])
  }

  lemma {:induction false} UnbindingKeepsOrder(bound: seq<Binding>, nextIndex: nat, index: nat)
    requires IndexesGrow(bound, nextIndex)
    ensures IndexesGrow(Unbound(bound, index), nextIndex)
    ensures forall b :: b in Unbound(bound, index) ==> b in bound
  {
    if bound != [] && bound[0].index != index {
      var rest := Unbound(bound[1..], index);
      UnbindingKeepsOrder(bound[1..], nextIndex, index);
      assert forall i :: 0 <= i < |rest| ==> rest[i] in bound[1..];
      assert forall b :: b in bound[1..] ==> bound[0].index < b.index;
    }
  }

  lemma HandlerFollows(s: System, s': System, edges: seq<Edge>, calls: seq<Effect>, b: Binding)
    requires SeesItsEdges(s, b) && CallsOf(calls, b.index) == EdgesOf(edges, b.action)
    requires s'.since == s.since && s'.edges == s.edges + edges && s'.effects == s.effects + calls
    ensures SeesItsEdges(s', b)
  {
    CallsOfAppend(s.effects, calls, b.index);
    EdgesOfAppend(s.edges, edges, b.action);
    var n, before, more := s.since[b.index], EdgesOf(s.edges, b.action), EdgesOf(edges, b.action);
    assert (before + more)[n..] == before[n..] + more;
  }

  lemma ReportReachesHandler(s: System, s': System, edges: seq<Edge>, b: Binding)
    requires IndexesGrow(s.mgr.bound, s.mgr.nextIndex) && b in s.mgr.bound && b.action != "" && SeesItsEdges(s, b)
    requires s'.since == s.since && s'.edges == s.edges + edges && s'.effects == s.effects + CallAll(s.mgr, edges)
    ensures SeesItsEdges(s', b)
  {
    CallsOfAll(s.mgr, edges, b);
    HandlerFollows(s, s', edges, CallAll(s.mgr, edges), b);
  }

  lemma ReportSparesUnbound(s: System, edges: seq<Edge>, index: nat)
    requires IndexesGrow(s.mgr.bound, s.mgr.nextIndex) && index >= s.mgr.nextIndex && CallsOf(s.effects, index) == []
    ensures CallsOf(s.effects + CallAll(s.mgr, edges), index) == []
  {
    CallsOfAppend(s.effects, CallAll(s.mgr, edges), index);
    UnboundIsNotCalled(s.mgr, edges, index);
  }

  lemma EdgesKeepHandlers(s: System, s': System, edges: seq<Edge>)
    requires HandlersAgree(s)
    requires s'.since == s.since && s'.edges == s.edges + edges && s'.effects == s.effects + CallAll(s.mgr, edges)
    requires s'.mgr.bound == s.mgr.bound && s'.mgr.nextIndex == s.mgr.nextIndex
    ensures HandlersAgree(s')
  {
    forall b: Binding | b in s.mgr.bound && b.action != "" ensures SeesItsEdges(s', b) {
      ReportReachesHandler(s, s', edges, b);
    }
    forall index: nat | index >= s.mgr.nextIndex ensures CallsOf(s'.effects, index) == [] {
      ReportSparesUnbound(s, edges, index);
    }
  }

  /** A trigger calls what its two edges say. */
  lemma TriggerCallsItsEdges(m: Manager, c: Combination)
    ensures Trigger(m, c).1
         == CallAll(m, [Edge(LookUp(m.configured, m.last), false), Edge(LookUp(m.configured, c), true)])
  {
    var up, down := Edge(LookUp(m.configured, m.last), false), Edge(LookUp(m.configured, c), true);
    assert [up, down][..1] == [up] && [up][..0] == [];
    assert CallAll(m, [up]) == [] + CallFunctions(m, up.action, false, true);
  }

  lemma StepKeepsHandlers(s: System, e: Event)
    requires HandlersAgree(s)
    ensures HandlersAgree(Step(s, e))
  {
    match e
    case Reports(_, _, edges) => EdgesKeepHandlers(s, Step(s, e), edges);
    case Triggers(c) =>
      var m := s.mgr;
      TriggerCallsItsEdges(m, c);
      EdgesKeepHandlers(s, Step(s, e),
          [Edge(LookUp(m.configured, m.last), false), Edge(LookUp(m.configured, c), true)]);
    case Unbinds(index) => UnbindingKeepsOrder(s.mgr.bound, s.mgr.nextIndex, index);
    case Binds(action) => BindingKeepsHandlers(s, action);
    case _ =>
  }

  lemma BindingKeepsHandlers(s: System, action: Action)
    requires HandlersAgree(s)
    ensures HandlersAgree(Step(s, Binds(action)))
  {
    var s' := Step(s, Binds(action));
    forall b | b in s'.mgr.bound && b.action != "" ensures SeesItsEdges(s', b) {
      if b in s.mgr.bound { assert SeesItsEdges(s, b); }
    }
  }

  lemma {:induction false} HandlersAlwaysAgree(states: seq<System>, events: seq<Event>, k: nat)
    requires IsRun(states, events) && k < |states|
    ensures HandlersAgree(states[k])
  {
    if k > 0 {
      HandlersAlwaysAgree(states, events, k - 1);
      StepKeepsHandlers(states[k - 1], events[k - 1]);
    }
  }

  /** What was noted down when a handler was bound stays. */
  lemma {:induction false} BindingIsRemembered(states: seq<System>, events: seq<Event>, j: nat, k: nat)
    requires IsRun(states, events) && j < k < |states| && events[j].Binds?
    ensures states[j].mgr.nextIndex < states[k].mgr.nextIndex
    ensures states[j].mgr.nextIndex in states[k].since
    ensures states[k].since[states[j].mgr.nextIndex] == |EdgesOf(states[j].edges, events[j].action)|
  {
    if k > j + 1 { BindingIsRemembered(states, events, j, k - 1); }
  }

  /** In every run, a handler bound while its action is inactive is called down, up, down, ... as long as it stays
      bound and
      keys triggered by hand keep the order of the action, and the last call was down exactly if the action is active.
      */
  lemma HandlerSeesAlternation(states: seq<System>, events: seq<Event>, j: nat, k: nat)
    requires IsRun(states, events) && j < k < |states| && events[j].Binds? && events[j].action != ""
    requires TriggersKeepOrder(states, events, k, events[j].action) && events[j].action !in states[j].mgr.active
    requires Binding(states[j].mgr.nextIndex, events[j].action) in states[k].mgr.bound
    ensures var calls := CallsOf(states[k].effects, states[j].mgr.nextIndex);
            Alternates(calls) && (events[j].action in states[k].mgr.active <==> |calls| % 2 == 1)
  {
    EdgesAgreeUntil(states, events, j, events[j].action);
    EdgesAgreeUntil(states, events, k, events[j].action);
    HandlersAlwaysAgree(states, events, k);
    BindingIsRemembered(states, events, j, k);
    assert SeesItsEdges(states[k], Binding(states[j].mgr.nextIndex, events[j].action));
  }

  /** The stored combination pairs the last report of each device that was not captured. */
  lemma {:induction false} LastCombinationIsLatestReports(states: seq<System>, events: seq<Event>, k: nat)
    requires IsExecution(states, events) && k < |states|
    ensures states[k].mgr.last == Combination(states[k].keyboard, states[k].joystick)
  {
    if k > 0 {
      LastCombinationIsLatestReports(states, events, k - 1);
    }
  }

  /** The incremental state agrees with the declarative one. */
  predicate InSync(s: System) {
    s.mgr.active == Matching(s.mgr.configured, Combination(s.keyboard, s.joystick))
  }

  /** Nothing after step j changes the hotkeys, and step j reported keys or buttons outside a capture. */
  predicate Settled(states: seq<System>, events: seq<Event>, j: nat, k: nat)
    requires j < k < |states| && |states| == |events| + 1
  {
    && events[j].Reports? && !states[j].mgr.capturing
    && forall i :: j < i < k ==> !events[i].Reload? && !events[i].Reset?
  }

  /** From the first report after a change of the hotkeys on, the active actions are exactly those with a combination
      contained in the latest reports, whatever is bound, captured or reported in between. */
  lemma {:induction false} ActiveActionsAreDeclarative(states: seq<System>, events: seq<Event>, j: nat, k: nat)
    requires IsExecution(states, events) && j < k < |states| && Settled(states, events, j, k)
    ensures InSync(states[k])
  {
    LastCombinationIsLatestReports(states, events, k);
    if k > j + 1 {
      ActiveActionsAreDeclarative(states, events, j, k - 1);
      LastCombinationIsLatestReports(states, events, k - 1);
    }
  }

  /** Some hotkey of the action is completely pressed: all its keys on the keyboard, all its buttons on the joystick. */
  ghost predicate IsPressed(configured: map<Combination, Action>, keyboard: set<nat>, joystick: set<nat>,
                            action: Action) {
    exists c :: IsPressedBy(configured, c, keyboard, joystick, action)
  }

  ghost predicate IsPressedBy(configured: map<Combination, Action>, c: Combination, keyboard: set<nat>,
                              joystick: set<nat>, action: Action)
  {
    && c in configured
    && configured[c] == action
    && (forall key :: key in c.keys ==> key in keyboard)
    && (forall button :: button in c.buttons ==> button in joystick)
  }

  /** In words: from then on an action is active if and only if one of its hotkeys is completely pressed according to
      the latest keyboard report and the latest joystick report. */
  lemma ActiveMeansCompletelyPressed(states: seq<System>, events: seq<Event>, j: nat, k: nat, action: Action)
    requires IsExecution(states, events) && j < k < |states| && Settled(states, events, j, k)
    ensures action in states[k].mgr.active
       <==> IsPressed(states[k].mgr.configured, states[k].keyboard, states[k].joystick, action)
  {
    ActiveActionsAreDeclarative(states, events, j, k);
    MatchingMeansPressed(states[k].mgr.configured, states[k].keyboard, states[k].joystick, action);
  }

  lemma MatchingMeansPressed(configured: map<Combination, Action>, keyboard: set<nat>, joystick: set<nat>,
                             action: Action)
    ensures action in Matching(configured, Combination(keyboard, joystick))
       <==> IsPressed(configured, keyboard, joystick, action)
  {
    var pressed := Combination(keyboard, joystick);
    if action in Matching(configured, pressed) {
      var c :| c in configured && c.IsSubsetOf(pressed) && configured[c] == action;
      assert IsPressedBy(configured, c, keyboard, joystick, action);
    }
    if IsPressed(configured, keyboard, joystick, action) {
      var c :| IsPressedBy(configured, c, keyboard, joystick, action);
      assert c.IsSubsetOf(pressed);
    }
  }

  /** Adding keys or buttons never releases an action. */
  lemma MoreKeysReleaseNothing(s: System, c: Combination)
    requires InSync(s) && s.mgr.last == Combination(s.keyboard, s.joystick) && s.mgr.last.IsSubsetOf(c)
    ensures Released(s.mgr, c) == {}
  {
    forall action | action in s.mgr.active ensures action in Matching(s.mgr.configured, c) {
      var k :| k in s.mgr.configured && k.IsSubsetOf(s.mgr.last) && s.mgr.configured[k] == action;
      assert k.IsSubsetOf(c);
    }
  }

  predicate IsSelection(c: Combination) {
    !c.IsEmpty() && (c.keys == {} || c.buttons == {})
  }

  predicate SelectionsGrow(signals: seq<Signal>) {
    && (forall i :: 0 <= i < |signals| ==> IsSelection(signals[i].combination))
    && (forall i, j :: 0 <= i < j < |signals| ==> signals[i].combination.Size() <= signals[j].combination.Size())
  }

  lemma OneMoreSelection(signals: seq<Signal>, signal: Signal)
    requires SelectionsGrow(signals) && IsSelection(signal.combination)
    requires signals != [] ==> signals[|signals| - 1].combination.Size() <= signal.combination.Size()
    ensures SelectionsGrow(signals + [signal])
  {
  }

  /** The signals of a capture: selections of growing size of one device, at most one end, at the largest. */
  predicate CaptureAgrees(s: System) {
    var n := |s.signals|;
    && SelectionsGrow(s.signals)
    && (forall i :: 0 <= i < n - 1 ==> s.signals[i].SelectionChanged?)
    && (n > 0 ==> s.signals[n - 1].combination == s.mgr.captured)
    && (s.mgr.capturing ==> s.mgr.before == s.mgr.last && (n > 0 ==> s.signals[n - 1].SelectionChanged?)
                            && (n == 0 ==> s.mgr.captured == NOTHING))
    && (!s.mgr.capturing && n > 0 ==>
          n >= 2 && s.signals[n - 1].SelectionFinished? && s.signals[n - 1].combination == s.signals[n - 2].combination)
  }

  lemma ReportKeepsCapture(s: System, e: Event)
    requires CaptureAgrees(s) && s.mgr.capturing && e.Reports?
    ensures CaptureAgrees(Step(s, e))
    ensures !Step(s, e).mgr.capturing ==>
      Merge(s.mgr, e.fromKeyboard, e.reported).DeltaTo(s.mgr.before).Size() < s.mgr.captured.Size()
  {
    var c := Merge(s.mgr, e.fromKeyboard, e.reported);
    var delta, captured := c.DeltaTo(s.mgr.before), s.mgr.captured;
    var s' := Step(s, e);
    assert delta.keys == {} || delta.buttons == {};
    if captured.IsEmpty() && delta.IsEmpty() {
      assert s'.signals == s.signals;
    } else if delta.Size() < captured.Size() {
      assert s'.signals == s.signals + [SelectionFinished(captured)] && s.signals != [];
      OneMoreSelection(s.signals, SelectionFinished(captured));
    } else {
      assert s'.signals == s.signals + [SelectionChanged(delta)];
      assert delta.Size() > 0;
      OneMoreSelection(s.signals, SelectionChanged(delta));
    }
  }

  lemma StepKeepsCapture(s: System, e: Event)
    requires CaptureAgrees(s) && Enabled(s, e) && !e.Triggers?
    ensures CaptureAgrees(Step(s, e))
    ensures s.mgr.capturing && e.Reports? && !Step(s, e).mgr.capturing ==>
      Merge(s.mgr, e.fromKeyboard, e.reported).DeltaTo(s.mgr.before).Size() < s.mgr.captured.Size()
  {
    if s.mgr.capturing && e.Reports? { ReportKeepsCapture(s, e); }
  }

  lemma {:induction false} CaptureReportsTheLargest(states: seq<System>, events: seq<Event>, k: nat)
    requires IsExecution(states, events) && k < |states|
    ensures CaptureAgrees(states[k])
  {
    if k > 0 {
      CaptureReportsTheLargest(states, events, k - 1);
      StepKeepsCapture(states[k - 1], events[k - 1]);
    }
  }

  /** A key triggered by hand moves the calls of an action only if it releases and presses an action that is active. */
  predicate TriggerKeepsOrder(s: System, c: Combination, action: Action) {
    var released, pressed := LookUp(s.mgr.configured, s.mgr.last) == action, LookUp(s.mgr.configured, c) == action;
    (released <==> pressed) && (pressed ==> action in s.mgr.active)
  }

  lemma TwoEdgesMore(edges: seq<Edge>, up: Action, down: Action, action: Action)
    ensures EdgesOf(edges + [Edge(up, false), Edge(down, true)], action)
         == EdgesOf(edges, action) + (if up == action then [false] else []) + (if down == action then [true] else [])
  {
    assert edges + [Edge(up, false), Edge(down, true)] == edges + [Edge(up, false)] + [Edge(down, true)];
    assert (edges + [Edge(up, false)])[..|edges|] == edges;
    assert (edges + [Edge(up, false)] + [Edge(down, true)])[..|edges| + 1] == edges + [Edge(up, false)];
  }

  /** Exactly then the alternation of its edges and their agreement with the active actions survive. */
  lemma TriggerKeepsEdgesIff(s: System, c: Combination, action: Action)
    requires EdgesAgree(s, action)
    ensures EdgesAgree(Step(s, Triggers(c)), action) <==> TriggerKeepsOrder(s, c, action)
  {
    var up, down := LookUp(s.mgr.configured, s.mgr.last), LookUp(s.mgr.configured, c);
    var before := EdgesOf(s.edges, action);
    TwoEdgesMore(s.edges, up, down, action);
    TwoMoreCalls(before, action in s.mgr.active, up == action, down == action);
  }

  lemma TwoMoreCalls(before: seq<bool>, active: bool, released: bool, pressed: bool)
    requires Alternates(before) && (active <==> |before| % 2 == 1)
    ensures var after := before + (if released then [false] else []) + (if pressed then [true] else []);
            Alternates(after) && (active <==> |after| % 2 == 1) <==> (released <==> pressed) && (pressed ==> active)
  {
    var after := before + (if released then [false] else []) + (if pressed then [true] else []);
    if released && pressed && !active { assert after[|before|] == false; }
    if released && pressed && active { assert after == before + [false, true]; }
    if !released && !pressed { assert after == before; }
  }

  ghost predicate TriggersKeepOrder(states: seq<System>, events: seq<Event>, k: nat, action: Action)
    requires k <= |events| < |states|
  {
    forall i :: 0 <= i < k && events[i].Triggers? ==> TriggerKeepsOrder(states[i], events[i].combination, action)
  }

  lemma {:induction false} EdgesAgreeUntil(states: seq<System>, events: seq<Event>, k: nat, action: Action)
    requires IsRun(states, events) && k < |states| && TriggersKeepOrder(states, events, k, action)
    ensures EdgesAgree(states[k], action)
  {
    if k > 0 {
      var s, e := states[k - 1], events[k - 1];
      EdgesAgreeUntil(states, events, k - 1, action);
      if e.Triggers? { TriggerKeepsEdgesIff(s, e.combination, action); } else { StepKeepsEdges(s, e, action); }
    }
  }

  /** In every run, keys triggered by hand or not, the presses and releases of an action alternate and agree with the
      active actions all the time if and only if every trigger keeps its order. (The handlers of an action are called
      for exactly its edges, but nothing is called for the action without a name.) */
  lemma EdgesAlternateIffTriggersKeepOrder(states: seq<System>, events: seq<Event>, action: Action)
    requires IsRun(states, events)
    ensures (forall k :: 0 <= k < |states| ==> EdgesAgree(states[k], action))
        <==> TriggersKeepOrder(states, events, |events|, action)
  {
    if TriggersKeepOrder(states, events, |events|, action) {
      forall k | 0 <= k < |states| ensures EdgesAgree(states[k], action) { EdgesAgreeUntil(states, events, k, action); }
    } else {
      var k :| 0 <= k < |events| && events[k].Triggers? && !TriggerKeepsOrder(states[k], events[k].combination, action);
      if EdgesAgree(states[k], action) {
        TriggerKeepsEdgesIff(states[k], events[k].combination, action);
        assert !EdgesAgree(states[k + 1], action);
      }
    }
  }

  /** A key triggered by hand is not entered as active: the next report presses its action a second time. */
  lemma TriggeredKeyIsPressedTwice(c: Combination, action: Action) returns (states: seq<System>, events: seq<Event>)
    requires !c.IsEmpty() && c.buttons == {} && action != ""
    ensures IsRun(states, events)
    ensures EdgesOf(states[|states| - 1].edges, action) == [true, true]
  {
    var settings := [Hotkey(true, c, action)];
    assert settings[..0] == [];
    assert Configured(settings) == map[c := action];
    var s1 := Step(INITIAL_SYSTEM, Reload(settings));
    var s2 := Step(s1, Triggers(c));
    var report := Reports(true, c, [Edge(action, true)]);
    PressEnabled(s2, c, action);
    var s3 := Step(s2, report);
    states, events := [INITIAL_SYSTEM, s1, s2, s3], [Reload(settings), Triggers(c), report];
    ThreeEdges(action);
    assert s3.edges == [Edge("", false)] + [Edge(action, true)] + [Edge(action, true)];
  }

  lemma PressEnabled(s: System, c: Combination, action: Action)
    requires s.mgr.configured == map[c := action] && s.mgr.active == {} && s.mgr.last == c && !s.mgr.capturing
    ensures Enabled(s, Reports(true, c, [Edge(action, true)]))
  {
    assert Merge(s.mgr, true, c) == c;
    assert Matching(s.mgr.configured, c) == {action} by { assert c.IsSubsetOf(c); }
    assert Enumerates([action], {action}) && Enumerates<Action>([], {});
    assert [Edge(action, true)] == Edges([action], true) + Edges([], false);
  }

  lemma ThreeEdges(action: Action)
    requires action != ""
    ensures EdgesOf([Edge("", false)] + [Edge(action, true)] + [Edge(action, true)], action) == [true, true]
  {
    EdgesOfAppend([Edge("", false)], [Edge(action, true)], action);
    EdgesOfAppend([Edge("", false)] + [Edge(action, true)], [Edge(action, true)], action);
    assert [Edge(action, true)][..0] == [] && [Edge("", false)][..0] == [];
    assert EdgesOf([Edge(action, true)], action) == [true] && EdgesOf([Edge("", false)], action) == [];
  }
}
