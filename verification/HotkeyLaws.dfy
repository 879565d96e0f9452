/** What hotkeys mean for the user: the settings that count, the combinations that are held down, and the handlers that
    are left after an unbind. */
module HotkeyLaws {
  import opened Common
  import opened HotkeySpec
  import opened Hotkeys

  /** Setting `i` counts: it is for this machine, names at least one key or button, and no later one for this machine
      has the same combination. */
  ghost predicate Counts(settings: seq<Hotkey>, i: int) {
    && 0 <= i < |settings|
    && settings[i].local
    && (settings[i].combination.keys != {} || settings[i].combination.buttons != {})
    && forall j :: i < j < |settings| && settings[j].local ==> settings[j].combination != settings[i].combination
  }

  ghost predicate IsSetTo(settings: seq<Hotkey>, c: Combination, action: Action) {
    exists i :: Counts(settings, i) && settings[i].combination == c && settings[i].action == action
  }

  lemma OneMoreSetting(settings: seq<Hotkey>, c: Combination, action: Action)
    requires settings != []
    ensures var front, last := settings[..|settings| - 1], settings[|settings| - 1];
            IsSetTo(settings, c, action) <==>
              if last.local && c == last.combination && (c.keys != {} || c.buttons != {}) then last.action == action
              else IsSetTo(front, c, action)
  {
    var n := |settings| - 1;
    var front, last := settings[..n], settings[n];
    if last.local && c == last.combination && (c.keys != {} || c.buttons != {}) {
      assert Counts(settings, n);
    } else if IsSetTo(front, c, action) {
      var i :| Counts(front, i) && front[i].combination == c && front[i].action == action;
      assert Counts(settings, i);
    } else if IsSetTo(settings, c, action) {
      var i :| Counts(settings, i) && settings[i].combination == c && settings[i].action == action;
      assert Counts(front, i);
    }
  }

  /** The configured combinations are exactly those of the settings that count, with their actions. */
  lemma {:induction false} SettingsThatCount(settings: seq<Hotkey>, c: Combination, action: Action)
    ensures c in Configured(settings) && Configured(settings)[c] == action <==> IsSetTo(settings, c, action)
  {
    if settings != [] {
      SettingsThatCount(settings[..|settings| - 1], c, action);
      OneMoreSetting(settings, c, action);
    }
  }

  /** The hotkeys are those loaded by event `l`. */
  ghost predicate LoadedBy(events: seq<Event>, l: nat, k: nat) {
    l < k <= |events| && events[l].Reload? && forall i :: l < i < k ==> !events[i].Reload? && !events[i].Reset?
  }

  lemma {:induction false} LoadedStay(states: seq<System>, events: seq<Event>, l: nat, k: nat)
    requires IsExecution(states, events) && LoadedBy(events, l, k)
    ensures states[k].mgr.configured == Configured(events[l].settings)
  {
    if k > l + 1 { LoadedStay(states, events, l, k - 1); }
  }

  ghost predicate IsHeldDown(c: Combination, keyboard: set<nat>, joystick: set<nat>) {
    (forall key :: key in c.keys ==> key in keyboard) && (forall button :: button in c.buttons ==> button in joystick)
  }

  /** After the hotkeys are loaded and a device reports, an action is active if and only if one of its settings that
      count is completely held down on keyboard and joystick. */
  lemma ActiveMeansItsHotkeyIsHeldDown(states: seq<System>, events: seq<Event>, l: nat, j: nat, k: nat, action: Action)
    requires IsExecution(states, events) && l < j < k < |states|
    requires LoadedBy(events, l, k) && Settled(states, events, j, k)
    ensures action in states[k].mgr.active <==>
      exists c :: IsSetTo(events[l].settings, c, action) && IsHeldDown(c, states[k].keyboard, states[k].joystick)
  {
    var s, settings := states[k], events[l].settings;
    LoadedStay(states, events, l, k);
    ActiveMeansCompletelyPressed(states, events, j, k, action);
    if action in s.mgr.active {
      var c :| IsPressedBy(s.mgr.configured, c, s.keyboard, s.joystick, action);
      SettingsThatCount(settings, c, action);
    }
    if c :| IsSetTo(settings, c, action) && IsHeldDown(c, s.keyboard, s.joystick) {
      SettingsThatCount(settings, c, action);
      assert IsPressedBy(s.mgr.configured, c, s.keyboard, s.joystick, action);
    }
  }

  lemma {:induction false} UnboundKeepsTheOthers(bound: seq<Binding>, nextIndex: nat, index: nat, b: Binding)
    requires IndexesGrow(bound, nextIndex)
    ensures b in Unbound(bound, index) <==> b in bound && b.index != index
  {
    if bound != [] {
      assert bound == [bound[0]] + bound[1..];
      UnboundKeepsTheOthers(bound[1..], nextIndex, index, b);
      if bound[0].index == index && b in bound[1..] {
        var i :| 0 <= i < |bound[1..]| && bound[1..][i] == b;
        assert bound[i + 1] == b;
      }
    }
  }

  /** An unbind takes away exactly the binding with its index; the others stay bound, in the order of their indices. */
  lemma UnbindTakesOneAway(states: seq<System>, events: seq<Event>, k: nat, b: Binding)
    requires IsExecution(states, events) && k < |events| && events[k].Unbinds?
    ensures b in states[k + 1].mgr.bound <==> b in states[k].mgr.bound && b.index != events[k].index
    ensures IndexesGrow(states[k + 1].mgr.bound, states[k + 1].mgr.nextIndex)
  {
    HandlersAlwaysAgree(states, events, k);
    UnboundKeepsTheOthers(states[k].mgr.bound, states[k].mgr.nextIndex, events[k].index, b);
    UnbindingKeepsOrder(states[k].mgr.bound, states[k].mgr.nextIndex, events[k].index);
  }

  /** An action that another client of the core has called is carried out here, but never sent out again. */
  lemma RemoteCallsAreNotSentBack(m: Manager, action: Action, down: bool)
    ensures forall effect :: effect in CallFunctions(m, action, down, false) ==> effect.Invoke? && effect.down == down
  {
    InvocationsInvoke(m.bound, action, down);
  }

  lemma {:induction false} InvocationsInvoke(bound: seq<Binding>, action: Action, down: bool)
    ensures forall effect :: effect in Invocations(bound, action, down) ==> effect.Invoke? && effect.down == down
  {
    if bound != [] { InvocationsInvoke(bound[..|bound| - 1], action, down); }
  }

  // ----- captures -----

  /** What a device reports that it did not report when the capture started: new keys or new buttons. */
  function NewlyPressed(s: System, e: Event): Combination
    requires e.Reports?
  {
    if e.fromKeyboard then Combination(e.reported.keys - s.keyboard, {})
    else Combination({}, e.reported.buttons - s.joystick)
  }

  /** A report during a capture selects exactly what is newly pressed, as long as that does not get less; if it does,
      the capture ends with what was selected last. */
  lemma CaptureSelectsTheNewKeys(states: seq<System>, events: seq<Event>, k: nat)
    requires IsExecution(states, events) && k < |events| && events[k].Reports? && states[k].mgr.capturing
    ensures var s, s', pressed := states[k], states[k + 1], NewlyPressed(states[k], events[k]);
            var selected := |s.mgr.captured.keys| + |s.mgr.captured.buttons|;
            if |pressed.keys| + |pressed.buttons| < selected then
              !s'.mgr.capturing && s'.signals == s.signals + [SelectionFinished(s.mgr.captured)]
            else
              && s'.mgr.capturing && s'.mgr.captured == pressed
              && s'.signals == s.signals + if pressed == NOTHING then [] else [SelectionChanged(pressed)]
  {
    var s := states[k];
    LastCombinationIsLatestReports(states, events, k);
    CaptureReportsTheLargest(states, events, k);
    var pressed := NewlyPressed(s, events[k]);
    assert Merge(s.mgr, events[k].fromKeyboard, events[k].reported).DeltaTo(s.mgr.before) == pressed;
    NothingHasNoSize(pressed);
    NothingHasNoSize(s.mgr.captured);
  }

  lemma NothingHasNoSize(c: Combination)
    ensures c.Size() == 0 <==> c == NOTHING
  {
  }
}
