/** The input manager as a value: snapshots of pressed keys and buttons become press and release edges of actions. */
module HotkeySpec {
  import opened Common

  /** Keyboard keys and joystick buttons that are down at the same time. */
  datatype Combination = Combination(keys: set<nat>, buttons: set<nat>) {
    predicate IsEmpty() {
      keys == {} && buttons == {}
    }

    function Size(): nat {
      |keys| + |buttons|
    }

    predicate IsSubsetOf(other: Combination) {
      keys <= other.keys && buttons <= other.buttons
    }

    function DeltaTo(other: Combination): Combination {
      Combination(keys - other.keys, buttons - other.buttons)
    }
  }

  const NOTHING := Combination({}, {})

  type Action = string

  datatype Hotkey = Hotkey(local: bool, combination: Combination, action: Action)

  datatype Binding = Binding(index: nat, action: Action)

  datatype Edge = Edge(action: Action, down: bool)

  datatype Effect = Relay(action: Action, down: bool) | Invoke(index: nat, down: bool)

  datatype Signal = SelectionChanged(combination: Combination) | SelectionFinished(combination: Combination)

  datatype Manager = Manager(
    configured: map<Combination, Action>,
    active: set<Action>,
    bound: seq<Binding>,
    nextIndex: nat,
    relaying: bool,
    capturing: bool,
    last: Combination,
    captured: Combination,
    before: Combination)

  const INITIAL := Manager(map[], {}, [], 0, false, false, NOTHING, NOTHING, NOTHING)

  /** The settings of this machine; a later hotkey replaces an earlier one with the same combination. */
  function Configured(settings: seq<Hotkey>): map<Combination, Action> {
    if settings == [] then map[]
    else
      var hotkey := settings[|settings| - 1];
      var before := Configured(settings[..|settings| - 1]);
      if !hotkey.local || hotkey.combination.IsEmpty() then before else before[hotkey.combination := hotkey.action]
  }

  /** The declarative meaning of a snapshot: all actions with a hotkey that is completely pressed. */
  function Matching(configured: map<Combination, Action>, c: Combination): set<Action> {
    set k | k in configured && k.IsSubsetOf(c) :: configured[k]
  }

  function Pressed(m: Manager, c: Combination): set<Action> {
    Matching(m.configured, c) - m.active
  }

  function Released(m: Manager, c: Combination): set<Action> {
    m.active - Matching(m.configured, c)
  }

  /** All presses, then all releases, in any order. */
  ghost predicate AreEdges(edges: seq<Edge>, pressed: set<Action>, released: set<Action>) {
    exists downs: seq<Action>, ups: seq<Action> ::
      Enumerates(downs, pressed) && Enumerates(ups, released) && edges == Edges(downs, true) + Edges(ups, false)
  }

  function Edges(actions: seq<Action>, down: bool): (edges: seq<Edge>)
    ensures |edges| == |actions| && forall i :: 0 <= i < |actions| ==> edges[i] == Edge(actions[i], down)
  {
    seq(|actions|, i requires 0 <= i < |actions| => Edge(actions[i], down))
  }

  /** The handlers of an action, in the order they were bound. */
  function Invocations(bound: seq<Binding>, action: Action, down: bool): seq<Effect> {
    if bound == [] then []
    else
      var last := bound[|bound| - 1];
      Invocations(bound[..|bound| - 1], action, down) + if last.action == action then [Invoke(last.index, down)] else []
  }

  /** The action without a name is never called. */
  function CallFunctions(m: Manager, action: Action, down: bool, relay: bool): seq<Effect> {
    if action == "" then []
    else (if m.relaying && relay then [Relay(action, down)] else []) + Invocations(m.bound, action, down)
  }

  function CallAll(m: Manager, edges: seq<Edge>): seq<Effect> {
    if edges == [] then []
    else
      var edge := edges[|edges| - 1];
      CallAll(m, edges[..|edges| - 1]) + CallFunctions(m, edge.action, edge.down, true)
  }

  function Merge(m: Manager, fromKeyboard: bool, reported: Combination): Combination {
    if fromKeyboard then reported.(buttons := m.last.buttons) else reported.(keys := m.last.keys)
  }

  /** While capturing, a shrinking selection ends the capture. */
  function Capture(m: Manager, c: Combination): (Manager, seq<Signal>) {
    var delta := c.DeltaTo(m.before);
    if m.captured.IsEmpty() && delta.IsEmpty() then (m, [])
    else if delta.Size() < m.captured.Size() then (m.(capturing := false), [SelectionFinished(m.captured)])
    else (m.(captured := delta), [SelectionChanged(delta)])
  }

  function Process(m: Manager, c: Combination): Manager {
    if m.capturing then Capture(m, c).0 else m.(active := Matching(m.configured, c), last := c)
  }

  /** The first binding with the index is erased. */
  function Unbound(bound: seq<Binding>, index: nat): seq<Binding> {
    if bound == [] then []
    else if bound[0].index == index then bound[1..]
    else [bound[0]] + Unbound(bound[1..], index)
  }

  function LookUp(configured: map<Combination, Action>, c: Combination): Action {
    if c in configured then configured[c] else ""
  }

  function Trigger(m: Manager, c: Combination): (Manager, seq<Effect>) {
    (m.(last := c),
     CallFunctions(m, LookUp(m.configured, m.last), false, true) + CallFunctions(m, LookUp(m.configured, c), true,
         true))
  }
}
