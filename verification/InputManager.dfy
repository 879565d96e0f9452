/** The input manager with its fields updated in place; every method returns what it calls and emits. */
module InputManager {
  import opened Common
  import opened HotkeySpec

  class CInputManager {
    var configuredActions: map<Combination, Action>
    var activeActions: set<Action>
    var boundActions: seq<Binding>
    var index: nat
    var actionRelayingEnabled: bool
    var captureActive: bool
    var lastCombination: Combination
    var capturedCombination: Combination
    var combinationBeforeCapture: Combination

    ghost function Value(): Manager
      reads this
    {
      Manager(configuredActions, activeActions, boundActions, index, actionRelayingEnabled, captureActive,
              lastCombination, capturedCombination, combinationBeforeCapture)
    }

    constructor ()
      ensures Value() == INITIAL
    {
      configuredActions, activeActions, boundActions, index := map[], {}, [], 0;
      actionRelayingEnabled, captureActive := false, false;
      lastCombination, capturedCombination, combinationBeforeCapture := NOTHING, NOTHING, NOTHING;
    }

    method ReloadHotkeySettings(settings: seq<Hotkey>)
      modifies this`configuredActions
      ensures configuredActions == Configured(settings)
    {
      configuredActions := map[];
      for i := 0 to |settings|
        invariant configuredActions == Configured(settings[..i])
      {
        assert settings[..i + 1][..i] == settings[..i];
        if !settings[i].local { continue; }
        var combination := settings[i].combination;
        if combination.IsEmpty() { continue; }
        configuredActions := configuredActions[combination := settings[i].action];
      }
      assert settings[..|settings|] == settings;
    }

    method ResetAllActions()
      modifies this`configuredActions
      ensures configuredActions == map[]
    {
      configuredActions := map[];
    }

    method Bind(action: Action) returns (handle: nat)
      modifies this`boundActions, this`index
      ensures handle == old(index)
      ensures Value()
              == old(Value()).(bound := old(boundActions) + [Binding(old(index), action)], nextIndex := old(index) + 1)
    {
      handle := index;
      index := index + 1;
      boundActions := boundActions + [Binding(handle, action)];
    }

    method Unbind(handle: nat)
      modifies this`boundActions
      ensures boundActions == Unbound(old(boundActions), handle)
    {
      var i := 0;
      while i < |boundActions| && boundActions[i].index != handle
        invariant i <= |boundActions| && forall j :: 0 <= j < i ==> boundActions[j].index != handle
      {
        i := i + 1;
      }
      FirstMatchIsErased(boundActions, handle, i);
      if i < |boundActions| { boundActions := boundActions[..i] + boundActions[i + 1..]; }
    }

    method StartCapture()
      modifies this
      ensures Value() == old(Value()).(capturing := true, captured := NOTHING, before := old(lastCombination))
    {
      captureActive := true;
      capturedCombination := NOTHING;
      combinationBeforeCapture := lastCombination;
    }

    method CallFunctionsBy(action: Action, isKeyDown: bool, shouldEmit: bool) returns (effects: seq<Effect>)
      ensures effects == CallFunctions(Value(), action, isKeyDown, shouldEmit)
    {
      effects := [];
      if action == "" { return; }
      if actionRelayingEnabled && shouldEmit { effects := [Relay(action, isKeyDown)]; }
      ghost var relayed := effects;
      for i := 0 to |boundActions|
        invariant effects == relayed + Invocations(boundActions[..i], action, isKeyDown)
      {
        assert boundActions[..i + 1][..i] == boundActions[..i];
        if boundActions[i].action == action { effects := effects + [Invoke(boundActions[i].index, isKeyDown)]; }
      }
      assert boundActions[..|boundActions|] == boundActions;
    }

    method TriggerKey(combination: Combination) returns (effects: seq<Effect>)
      modifies this`lastCombination
      ensures (Value(), effects) == Trigger(old(Value()), combination)
    {
      var previousAction := LookUp(configuredActions, lastCombination);
      var action := LookUp(configuredActions, combination);
      var released := CallFunctionsBy(previousAction, false, true);
      var pressed := CallFunctionsBy(action, true, true);
      effects := released + pressed;
      lastCombination := combination;
    }

    /** Calls the functions of a set of actions, one after the other. */
    method CallFunctionsOfAll(actions: set<Action>, isKeyDown: bool) returns (effects: seq<Effect>)
      ensures CallsEach(Value(), effects, actions, isKeyDown)
    {
      ghost var order: seq<Action> := [];
      effects := [];
      var left := actions;
      while left != {}
        invariant left <= actions && Enumerates(order, actions - left)
        invariant effects == CallAll(Value(), Edges(order, isKeyDown))
        decreases left
      {
        var action :| action in left;
        var more := CallFunctionsBy(action, isKeyDown, true);
        left := left - {action};
        assert Edges(order + [action], isKeyDown)[..|order|] == Edges(order, isKeyDown);
        order := order + [action];
        effects := effects + more;
      }
      assert actions - left == actions;
    }

    method ProcessCombination(current: Combination)
      returns (effects: seq<Effect>, signals: seq<Signal>, ghost edges: seq<Edge>)
      modifies this
      ensures Value() == Process(old(Value()), current)
      ensures old(captureActive) ==> effects == [] && edges == [] && signals == Capture(old(Value()), current).1
      ensures !old(captureActive) ==>
        signals == [] && effects == CallAll(old(Value()), edges)
        && AreEdges(edges, Pressed(old(Value()), current), Released(old(Value()), current))
    {
      effects, signals, edges := [], [], [];
      if captureActive {
        var delta := current.DeltaTo(combinationBeforeCapture);
        if capturedCombination.IsEmpty() && delta.IsEmpty() { return; }
        if delta.Size() < capturedCombination.Size() {
          signals := [SelectionFinished(capturedCombination)];
          captureActive := false;
        } else {
          signals := [SelectionChanged(delta)];
          capturedCombination := delta;
        }
        return;
      }
      var newActiveActions := CollectMatching(current);
      var pressedActions, releasedActions := newActiveActions - activeActions, activeActions - newActiveActions;
      activeActions := newActiveActions;
      effects := CallFunctionsOfAll(pressedActions, true);
      var released := CallFunctionsOfAll(releasedActions, false);
      ghost var downs: seq<Action> :| Enumerates(downs, pressedActions)
          && effects == CallAll(Value(), Edges(downs, true));
      ghost var ups: seq<Action> :| Enumerates(ups, releasedActions) && released == CallAll(Value(), Edges(ups, false));
      edges := Edges(downs, true) + Edges(ups, false);
      CallsDoNotReadActiveActions(old(Value()), activeActions, Edges(downs, true));
      CallsDoNotReadActiveActions(old(Value()), activeActions, Edges(ups, false));
      CallAllAppend(old(Value()), Edges(downs, true), Edges(ups, false));
      effects := effects + released;
      lastCombination := current;
    }

    method CollectMatching(current: Combination) returns (actions: set<Action>)
      ensures actions == Matching(configuredActions, current)
    {
      actions := {};
      var left := configuredActions.Keys;
      while left != {}
        invariant left <= configuredActions.Keys
        invariant actions == set k | k in configuredActions.Keys - left && k.IsSubsetOf(current) :: configuredActions[k]
        decreases left
      {
        var combination :| combination in left;
        if combination.IsSubsetOf(current) { actions := actions + {configuredActions[combination]}; }
        left := left - {combination};
      }
    }

    method ProcessKeyCombinationChanged(combination: Combination)
      returns (effects: seq<Effect>, signals: seq<Signal>, ghost edges: seq<Edge>)
      modifies this
      ensures var c := Merge(old(Value()), true, combination);
              && Value() == Process(old(Value()), c)
              && (old(captureActive) ==> effects == [] && edges == [] && signals == Capture(old(Value()), c).1)
              && (!old(captureActive) ==> signals == [] && effects == CallAll(old(Value()), edges)
                                          && AreEdges(edges, Pressed(old(Value()), c), Released(old(Value()), c)))
    {
      var copy := combination.(buttons := lastCombination.buttons);
      effects, signals, edges := ProcessCombination(copy);
    }

    method ProcessButtonCombinationChanged(combination: Combination)
      returns (effects: seq<Effect>, signals: seq<Signal>, ghost edges: seq<Edge>)
      modifies this
      ensures var c := Merge(old(Value()), false, combination);
              && Value() == Process(old(Value()), c)
              && (old(captureActive) ==> effects == [] && edges == [] && signals == Capture(old(Value()), c).1)
              && (!old(captureActive) ==> signals == [] && effects == CallAll(old(Value()), edges)
                                          && AreEdges(edges, Pressed(old(Value()), c), Released(old(Value()), c)))
    {
      var copy := combination.(keys := lastCombination.keys);
      effects, signals, edges := ProcessCombination(copy);
    }
  }

  /** The functions of each action are called once, in some order. */
  ghost predicate CallsEach(m: Manager, effects: seq<Effect>, actions: set<Action>, down: bool) {
    exists order: seq<Action> :: Enumerates(order, actions) && effects == CallAll(m, Edges(order, down))
  }

  lemma {:induction false} CallAllAppend(m: Manager, first: seq<Edge>, second: seq<Edge>)
    ensures CallAll(m, first + second) == CallAll(m, first) + CallAll(m, second)
    decreases |second|
  {
    if second == [] {
      assert first + second == first;
    } else {
      assert (first + second)[..|first + second| - 1] == first + second[..|second| - 1];
      CallAllAppend(m, first, second[..|second| - 1]);
    }
  }

  lemma {:induction false} CallsDoNotReadActiveActions(m: Manager, active: set<Action>, edges: seq<Edge>)
    ensures CallAll(m.(active := active), edges) == CallAll(m, edges)
  {
    if edges != [] { CallsDoNotReadActiveActions(m, active, edges[..|edges| - 1]); }
  }

  lemma {:induction false} FirstMatchIsErased(bound: seq<Binding>, handle: nat, i: nat)
    requires i <= |bound| && forall j :: 0 <= j < i ==> bound[j].index != handle
    requires i < |bound| ==> bound[i].index == handle
    ensures Unbound(bound, handle) == if i < |bound| then bound[..i] + bound[i + 1..] else bound
  {
    if i > 0 {
      FirstMatchIsErased(bound[1..], handle, i - 1);
      assert i < |bound| ==> [bound[0]] + (bound[1..][..i - 1] + bound[1..][i..]) == bound[..i] + bound[i + 1..];
    }
  }
}
