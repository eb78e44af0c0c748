/** What the hotkey machine can and cannot be made to do. Whether a configuration can start, and whether
    it can stop what it has started, is settled exactly. */
module HotkeyLimits {
  import opened Options
  import opened SeqFacts
  import opened Hotkey

  /** The key reaches a trigger with a key: escape and the cancel combinations come first, and then only
      the first matching trigger counts, whether it has a key or not. */
  predicate Fires(config: HotkeyConfig, pressed: set<string>, key: string) {
    && !(config.escapeToCancel && (key == "esc" || key == "escape"))
    && !AnyCancel(config.cancels, pressed, key)
    && var matched := AnyTrigger(config.triggers, pressed, key);
    && matched.Some? && !matched.value.isModifierOnly
  }

  predicate OwnKeyFires(config: HotkeyConfig, c: KeyCombo) {
    || Fires(config, c.modifiers, NormalizeAlias(c.key))
    || Fires(config, c.modifiers, WithoutUnderscores(NormalizeAlias(c.key)))
  }

  /** Some trigger with a key is reached by its own modifiers and its own key, in one of its spellings. */
  predicate KeyCanFire(config: HotkeyConfig) {
    exists i :: 0 <= i < |config.triggers| && OwnKeyFires(config, config.triggers[i])
  }

  /** Some trigger is made of modifiers only. */
  predicate ModifiersCanFire(config: HotkeyConfig) {
    exists c :: c in config.triggers && c.isModifierOnly && c.modifiers != {}
  }

  predicate CanStart(config: HotkeyConfig) { ModifiersCanFire(config) || KeyCanFire(config) }

  /** Toggle mode stops on keys only, push-to-talk on whatever has started; no other mode stops. */
  predicate CanStop(config: HotkeyConfig) {
    || (config.mode == "toggle" && KeyCanFire(config))
    || (config.mode == "push_to_talk" && CanStart(config))
  }

  predicate NoReconfiguration(inputs: seq<Input>) { forall i :: 0 <= i < |inputs| ==> !inputs[i].SetConfig? }

  // ---------------------------------------------------------------- what a run needs

  lemma AliasTwice(key: string)
    ensures NormalizeAlias(NormalizeAlias(key)) == NormalizeAlias(key)
    ensures NormalizeAlias(key) == "" <==> key == ""
    ensures NormalizeAlias(key) == "esc" <==> key == "esc" || key == "escape"
    ensures NormalizeAlias(key) != "escape"
  {
  }

  lemma {:induction false} SameTrigger(combos: seq<KeyCombo>, pressed: set<string>, key: string, other: string)
    requires NormalizeAlias(key) == NormalizeAlias(other) && (key == "" <==> other == "")
    ensures AnyTrigger(combos, pressed, key) == AnyTrigger(combos, pressed, other)
  {
    hide NormalizeAlias, WithoutUnderscores;
    if combos != [] { SameTrigger(combos[1..], pressed, key, other); }
  }

  lemma SameCancel(combos: seq<KeyCombo>, pressed: set<string>, key: string, other: string)
    requires NormalizeAlias(key) == NormalizeAlias(other)
    ensures AnyCancel(combos, pressed, key) == AnyCancel(combos, pressed, other)
  {
    hide NormalizeAlias, WithoutUnderscores;
    assert forall c: KeyCombo :: CheckCombo(pressed, c, key) == CheckCombo(pressed, c, other);
  }

  /** Whatever key reaches a trigger, the trigger's own key does. */
  lemma FiresByOwnKey(config: HotkeyConfig, pressed: set<string>, key: string)
    requires Fires(config, pressed, key)
    ensures KeyCanFire(config)
  {
    var k := NormalizeAlias(key);
    AliasTwice(key);
    SameTrigger(config.triggers, pressed, key, k);
    SameCancel(config.cancels, pressed, key, k);
    TriggerIsConfigured(config.triggers, pressed, key);
    var c := AnyTrigger(config.triggers, pressed, key).value;
    assert Fires(config, c.modifiers, k);
    hide Fires, NormalizeAlias, WithoutUnderscores;
    assert OwnKeyFires(config, c);
    var i :| 0 <= i < |config.triggers| && config.triggers[i] == c;
  }

  lemma ModifierFires(config: HotkeyConfig, pressed: set<string>)
    ensures var matched := AnyTrigger(config.triggers, pressed, "");
            matched.Some? ==> matched.value.isModifierOnly && matched.value.modifiers == pressed
                              && (pressed != {} ==> ModifiersCanFire(config))
  {
    TriggerIsConfigured(config.triggers, pressed, "");
  }

  /** While the trigger is pressed the configuration can start; a STOP needs one that can stop. */
  lemma LimitStep(s: State, input: Input)
    requires s.triggerPressed ==> CanStart(s.config)
    requires !input.SetConfig?
    ensures var (t, out) := Handle(s, input);
            && t.config == s.config && (t.triggerPressed ==> CanStart(s.config))
            && (START in out ==> CanStart(s.config)) && (STOP in out ==> CanStop(s.config))
  {
    hide AnyTrigger, AnyCancel, CheckCombo, KeyCanFire, ModifiersCanFire;
    if input.KeyPress? && Fires(s.config, s.pressed, input.key) {
      FiresByOwnKey(s.config, s.pressed, input.key);
    }
    if input.ModifierPress? {
      ModifierFires(s.config, s.pressed + {input.modifier});
    }
  }

  lemma {:induction false} LimitRun(config: HotkeyConfig, inputs: seq<Input>)
    requires NoReconfiguration(inputs)
    ensures var (s, log) := Run(config, inputs);
            && s.config == config && (s.triggerPressed ==> CanStart(config))
            && (START in log ==> CanStart(config)) && (STOP in log ==> CanStop(config))
  {
    hide Handle, CanStart, CanStop;
    if inputs != [] {
      var before := inputs[..|inputs| - 1];
      LimitRun(config, before);
      LimitStep(Run(config, before).0, inputs[|inputs| - 1]);
    }
  }

  // ---------------------------------------------------------------- runs that do it

  function Presses(modifiers: seq<string>): seq<Input> {
    seq(|modifiers|, i requires 0 <= i < |modifiers| => ModifierPress(modifiers[i]))
  }

  lemma RunSnoc(config: HotkeyConfig, inputs: seq<Input>, input: Input)
    ensures var (s, log) := Run(config, inputs);
            var (t, out) := Handle(s, input);
            Run(config, inputs + [input]) == (t, log + out)
  {
    hide Handle;
    assert (inputs + [input])[..|inputs|] == inputs;
  }

  function Held(modifiers: seq<string>): set<string> { set m | m in modifiers }

  /** After a START the log has one, and the trigger stays pressed while only modifiers are pressed. */
  predicate Holding(s: State, log: seq<Event>) {
    s.triggerPressed ==>
      START in log && s.active.Some? && s.active.value.isModifierOnly && s.active.value.modifiers != {}
  }

  lemma PressMore(s: State, log: seq<Event>, m: string)
    requires Holding(s, log)
    ensures var (t, out) := Handle(s, ModifierPress(m));
            && t.config == s.config && t.pressed == s.pressed + {m} && Holding(t, log + out)
            && (AnyTrigger(s.config.triggers, s.pressed + {m}, "").Some? ==> t.triggerPressed)
  {
    ModifierFires(s.config, s.pressed + {m});
    hide AnyTrigger;
  }

  lemma {:induction false} PressAll(config: HotkeyConfig, modifiers: seq<string>)
    ensures var (s, log) := Run(config, Presses(modifiers));
            && s.config == config && s.pressed == Held(modifiers) && Holding(s, log)
            && (modifiers != [] && AnyTrigger(config.triggers, Held(modifiers), "").Some? ==> s.triggerPressed)
    decreases |modifiers|
  {
    hide AnyTrigger, Handle;
    if modifiers == [] {
      assert Presses(modifiers) == [];
    } else {
      var before, m := modifiers[..|modifiers| - 1], modifiers[|modifiers| - 1];
      PressAll(config, before);
      var (s, log) := Run(config, Presses(before));
      hide Run, Holding;
      assert Presses(modifiers) == Presses(before) + [ModifierPress(m)];
      RunSnoc(config, Presses(before), ModifierPress(m));
      assert modifiers == before + [m];
      assert Held(modifiers) == Held(before) + {m};
      PressMore(s, log, m);
    }
  }

  lemma {:induction false} SomeTrigger(combos: seq<KeyCombo>, pressed: set<string>, c: KeyCombo)
    requires c in combos && c.isModifierOnly && c.modifiers == pressed
    ensures AnyTrigger(combos, pressed, "").Some?
  {
    hide CheckCombo;
    if combos[0] != c { SomeTrigger(combos[1..], pressed, c); }
  }

  /** A run that ends with the trigger pressed by modifiers. */
  lemma ModifiersStart(config: HotkeyConfig) returns (inputs: seq<Input>)
    requires ModifiersCanFire(config)
    ensures NoReconfiguration(inputs)
    ensures var (s, log) := Run(config, inputs);
            s.config == config && s.triggerPressed && Holding(s, log)
  {
    var c :| c in config.triggers && c.isModifierOnly && c.modifiers != {};
    var modifiers := Enumerate(c.modifiers);
    assert Held(modifiers) == c.modifiers;
    SomeTrigger(config.triggers, c.modifiers, c);
    inputs := Presses(modifiers);
    hide AnyTrigger, Run, Holding;
    PressAll(config, modifiers);
  }

  /** A run that ends where a key is about to reach its trigger. */
  lemma KeyReady(config: HotkeyConfig) returns (inputs: seq<Input>, key: string)
    requires KeyCanFire(config)
    ensures NoReconfiguration(inputs)
    ensures var (s, log) := Run(config, inputs);
            s.config == config && Fires(config, s.pressed, key) && Holding(s, log)
  {
    var i :| 0 <= i < |config.triggers| && OwnKeyFires(config, config.triggers[i]);
    var c := config.triggers[i];
    key := if Fires(config, c.modifiers, NormalizeAlias(c.key)) then NormalizeAlias(c.key)
           else WithoutUnderscores(NormalizeAlias(c.key));
    var modifiers := Enumerate(c.modifiers);
    assert Held(modifiers) == c.modifiers;
    inputs := Presses(modifiers);
    hide AnyTrigger, Run, Holding, Fires;
    PressAll(config, modifiers);
  }

  lemma Extended(config: HotkeyConfig, inputs: seq<Input>, input: Input)
    requires NoReconfiguration(inputs) && !input.SetConfig?
    ensures NoReconfiguration(inputs + [input])
    ensures var (s, log) := Run(config, inputs);
            var (t, out) := Handle(s, input);
            && Run(config, inputs + [input]) == (t, log + out)
            && (forall e :: e in log || e in out ==> e in log + out)
  {
    hide Handle;
    RunSnoc(config, inputs, input);
  }

  /** A key that reaches a trigger, pressed: it starts, or stops in toggle mode what has started. */
  lemma KeyHit(s: State, key: string)
    requires Fires(s.config, s.pressed, key)
    ensures var (t, out) := Handle(s, KeyPress(key));
            && t.config == s.config && t.pressed == s.pressed
            && (!s.triggerPressed ==>
                  && out == [START] && t.triggerPressed && t.active.Some? && !t.active.value.isModifierOnly
                  && CheckCombo(t.pressed, t.active.value, key))
            && (s.triggerPressed && s.config.mode == "toggle" ==> out == [STOP])
  {
    TriggerIsConfigured(s.config.triggers, s.pressed, key);
    hide AnyTrigger, AnyCancel, CheckCombo;
  }

  lemma Starts(config: HotkeyConfig) returns (inputs: seq<Input>)
    requires CanStart(config)
    ensures NoReconfiguration(inputs) && START in Run(config, inputs).1
  {
    if ModifiersCanFire(config) {
      inputs := ModifiersStart(config);
    } else {
      var key;
      inputs, key := KeyReady(config);
      var s := Run(config, inputs).0;
      hide Run, Handle, Fires, NoReconfiguration;
      if !s.triggerPressed {
        KeyHit(s, key);
        Extended(config, inputs, KeyPress(key));
        inputs := inputs + [KeyPress(key)];
      }
    }
  }

  /** A trigger of modifiers that is pressed is stopped by releasing one of them. */
  lemma ReleaseModifier(config: HotkeyConfig, inputs: seq<Input>) returns (more: seq<Input>)
    requires NoReconfiguration(inputs) && config.mode == "push_to_talk"
    requires var (s, log) := Run(config, inputs); s.config == config && s.triggerPressed && Holding(s, log)
    ensures NoReconfiguration(more) && STOP in Run(config, more).1
  {
    var s := Run(config, inputs).0;
    var m :| m in s.active.value.modifiers;
    assert Handle(s, ModifierRelease(m)).1 == [STOP];
    hide Run, Handle, NoReconfiguration;
    Extended(config, inputs, ModifierRelease(m));
    more := inputs + [ModifierRelease(m)];
  }

  lemma StopsByKey(config: HotkeyConfig, inputs: seq<Input>, key: string) returns (more: seq<Input>)
    requires NoReconfiguration(inputs) && (config.mode == "toggle" || config.mode == "push_to_talk")
    requires var (s, log) := Run(config, inputs); s.config == config && Fires(config, s.pressed, key) && Holding(s, log)
    ensures NoReconfiguration(more) && STOP in Run(config, more).1
  {
    var s := Run(config, inputs).0;
    hide Run, Fires, NoReconfiguration, Holding, CheckCombo, OnKeyPress;
    KeyHit(s, key);
    Extended(config, inputs, KeyPress(key));
    more := inputs + [KeyPress(key)];
    var t := Run(config, more).0;
    if config.mode == "push_to_talk" {
      if s.triggerPressed {
        more := ReleaseModifier(config, inputs);
      } else {
        Extended(config, more, KeyRelease(key));
        more := more + [KeyRelease(key)];
      }
    } else if !s.triggerPressed {
      KeyHit(t, key);
      Extended(config, more, KeyPress(key));
      more := more + [KeyPress(key)];
    }
  }

  lemma Stops(config: HotkeyConfig) returns (inputs: seq<Input>)
    requires CanStop(config)
    ensures NoReconfiguration(inputs) && STOP in Run(config, inputs).1
  {
    hide Run, Handle, Fires, NoReconfiguration, Holding, ModifiersCanFire, KeyCanFire, CheckCombo;
    if config.mode == "push_to_talk" && ModifiersCanFire(config) {
      inputs := ModifiersStart(config);
      inputs := ReleaseModifier(config, inputs);
    } else {
      var key;
      inputs, key := KeyReady(config);
      inputs := StopsByKey(config, inputs, key);
    }
  }

  // ---------------------------------------------------------------- exactly

  /** Some run under this configuration emits START exactly when it has a trigger that can be reached. */
  lemma StartIff(config: HotkeyConfig)
    ensures (exists inputs :: NoReconfiguration(inputs) && START in Run(config, inputs).1) <==> CanStart(config)
  {
    hide Run, NoReconfiguration, CanStart;
    if CanStart(config) { var inputs := Starts(config); }
    if inputs :| NoReconfiguration(inputs) && START in Run(config, inputs).1 { LimitRun(config, inputs); }
  }

  /** Some run emits STOP exactly when the mode can stop what the configuration can start. */
  lemma StopIff(config: HotkeyConfig)
    ensures (exists inputs :: NoReconfiguration(inputs) && STOP in Run(config, inputs).1) <==> CanStop(config)
  {
    hide Run, NoReconfiguration, CanStop;
    if CanStop(config) { var inputs := Stops(config); }
    if inputs :| NoReconfiguration(inputs) && STOP in Run(config, inputs).1 { LimitRun(config, inputs); }
  }

  // ---------------------------------------------------------------- failures

  function Ctrl(): KeyCombo { KeyCombo({"ctrl"}, "", true) }

  function CtrlA(): KeyCombo { KeyCombo({"ctrl"}, "a", false) }

  lemma CtrlFires(triggers: seq<KeyCombo>, mode: string)
    requires triggers != [] && triggers[0] == Ctrl()
    ensures ModifiersCanFire(HotkeyConfig(triggers, [], mode, true))
  {
    assert Ctrl() in triggers && "ctrl" in Ctrl().modifiers;
  }

  /** Toggle mode with the trigger "ctrl": it starts, and no run ever stops it. */
  lemma ToggleModifiersOnly()
    ensures var config := HotkeyConfig([Ctrl()], [], "toggle", true); CanStart(config) && !CanStop(config)
  {
    CtrlFires([Ctrl()], "toggle");
  }

  /** With the triggers "ctrl" and "ctrl+a" as well: the first hides the second, whatever key is pressed. */
  lemma ToggleShadowed()
    ensures var config := HotkeyConfig([Ctrl(), CtrlA()], [], "toggle", true); CanStart(config) && !CanStop(config)
  {
    var config := HotkeyConfig([Ctrl(), CtrlA()], [], "toggle", true);
    CtrlFires(config.triggers, "toggle");
    hide CheckCombo, AnyCancel;
    forall key: string ensures !Fires(config, {"ctrl"}, key) {
      assert AnyTrigger(config.triggers, {"ctrl"}, key) == Some(Ctrl());
    }
  }

  /** In push-to-talk, while a trigger with a key is pressed, releasing a key stops exactly when it is the
      trigger's key and the modifiers held are still the trigger's. */
  lemma ReleaseStops(s: State, key: string)
    requires s.config.mode == "push_to_talk" && s.triggerPressed && s.active.Some? && !s.active.value.isModifierOnly
    ensures var (t, out) := Handle(s, KeyRelease(key));
            out == if s.pressed == s.active.value.modifiers && CheckCombo(s.active.value.modifiers, s.active.value, key)
                   then [STOP] else []
  {
    hide NormalizeAlias, WithoutUnderscores;
  }

  lemma FourInputs(config: HotkeyConfig, a: Input, b: Input, c: Input, d: Input)
    ensures var (s1, o1) := Handle(Hotkey.Initial(config), a);
            var (s2, o2) := Handle(s1, b);
            var (s3, o3) := Handle(s2, c);
            var (s4, o4) := Handle(s3, d);
            Run(config, [a, b, c, d]) == (s4, [] + o1 + o2 + o3 + o4)
  {
    hide Handle;
    RunSnoc(config, [], a);
    RunSnoc(config, [a], b);
    RunSnoc(config, [a, b], c);
    RunSnoc(config, [a, b, c], d);
    assert [] + [a] == [a] && [a] + [b] == [a, b] && [a, b] + [c] == [a, b, c] && [a, b, c] + [d] == [a, b, c, d];
  }

  /** Letting go of the modifier before the key: all keys are up, and what was started is not stopped. */
  lemma ReleaseMissed()
    ensures var config := HotkeyConfig([CtrlA()], [], "push_to_talk", true);
            var inputs := [ModifierPress("ctrl"), KeyPress("a"), ModifierRelease("ctrl"), KeyRelease("a")];
            var (s, log) := Run(config, inputs);
            log == [START] && s.triggerPressed && s.pressed == {} && CanStop(config)
  {
    var config := HotkeyConfig([CtrlA()], [], "push_to_talk", true);
    var s0 := Hotkey.Initial(config);
    assert AnyTrigger([CtrlA()], {"ctrl"}, "") == None;
    assert AnyTrigger([CtrlA()], {"ctrl"}, "a") == Some(CtrlA());
    assert {} + {"ctrl"} == {"ctrl"} && {"ctrl"} - {"ctrl"} == {};
    var s1 := s0.(pressed := {"ctrl"});
    assert Handle(s0, ModifierPress("ctrl")) == (s1, []);
    var s2 := s1.(triggerPressed := true, active := Some(CtrlA()));
    assert Handle(s1, KeyPress("a")) == (s2, [START]);
    var s3 := s2.(pressed := {});
    assert Handle(s2, ModifierRelease("ctrl")) == (s3, []);
    assert Handle(s3, KeyRelease("a")) == (s3, []);
    FourInputs(config, ModifierPress("ctrl"), KeyPress("a"), ModifierRelease("ctrl"), KeyRelease("a"));
    assert Fires(config, CtrlA().modifiers, "a");
    assert OwnKeyFires(config, config.triggers[0]);
  }
}
