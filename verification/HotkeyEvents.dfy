/** Which input of a run adds which event to the log, said of the inputs: what has been pressed and not
    released, what is configured, and what was added before. */
module HotkeyEvents {
  import opened Options
  import opened SeqFacts
  import opened Stripping
  import opened Hotkey
  import opened HotkeyLimits

  // ---------------------------------------------------------------- what the inputs say

  /** The configuration in force: the last that was set. */
  function InForce(config: HotkeyConfig, inputs: seq<Input>): HotkeyConfig {
    if inputs == [] then config
    else if inputs[|inputs| - 1].SetConfig? then inputs[|inputs| - 1].config
    else InForce(config, inputs[..|inputs| - 1])
  }

  predicate LetsGo(input: Input, m: string) { input == ModifierRelease(m) || input.SetConfig? || input.ResetInput? }

  /** The modifier was pressed at input i, and has not been released or forgotten since. */
  predicate HeldSince(inputs: seq<Input>, m: string, i: nat) {
    i < |inputs| && inputs[i] == ModifierPress(m) && forall j :: i < j < |inputs| ==> !LetsGo(inputs[j], m)
  }

  ghost predicate IsHeld(inputs: seq<Input>, m: string) { exists i: nat :: HeldSince(inputs, m, i) }

  /** Two names for one key. */
  function PlainName(key: string): string {
    match key case "enter" => "return" case "escape" => "esc" case _ => key
  }

  predicate SameKey(key: string, configured: string) {
    PlainName(key) == PlainName(configured) || PlainName(key) == Without(PlainName(configured), '_')
  }

  /** The combination is under the fingers: exactly its modifiers, and its key if it has one. */
  predicate Touched(c: KeyCombo, held: set<string>, key: string) {
    c.modifiers == held && (c.isModifierOnly || (key != "" && SameKey(key, c.key)))
  }

  predicate FirstTouched(triggers: seq<KeyCombo>, held: set<string>, key: string, i: nat) {
    i < |triggers| && Touched(triggers[i], held, key) && forall j :: 0 <= j < i ==> !Touched(triggers[j], held, key)
  }

  /** The first trigger under the fingers, if it is one with a key, or one without. */
  ghost predicate Reached(triggers: seq<KeyCombo>, held: set<string>, key: string, withKey: bool) {
    exists i: nat :: FirstTouched(triggers, held, key, i) && triggers[i].isModifierOnly == !withKey
  }

  predicate CancelCombo(c: KeyCombo, held: set<string>, key: string) {
    !c.isModifierOnly && c.modifiers == held && SameKey(key, c.key)
  }

  /** Escape while escape cancels, or a cancel combination with a key. */
  predicate Cancels(config: HotkeyConfig, held: set<string>, input: Input) {
    && input.KeyPress?
    && ((config.escapeToCancel && (input.key == "esc" || input.key == "escape"))
        || exists i :: 0 <= i < |config.cancels| && CancelCombo(config.cancels[i], held, input.key))
  }

  ghost predicate Triggers(config: HotkeyConfig, held: set<string>, input: Input) {
    input.KeyPress? && !Cancels(config, held, input) && Reached(config.triggers, held, input.key, true)
  }

  /** Nothing is recorded, and a trigger is reached: one with a key by a key, one without by a modifier. */
  ghost predicate Starts(s: State, input: Input) {
    && !s.triggerPressed
    && (Triggers(s.config, s.pressed, input)
        || (input.ModifierPress? && Reached(s.config.triggers, s.pressed + {input.modifier}, "", false)))
  }

  predicate LetGo(c: KeyCombo, held: set<string>, input: Input) {
    if c.isModifierOnly then input.ModifierRelease? && input.modifier in c.modifiers
    else input.KeyRelease? && c.modifiers == held && SameKey(input.key, c.key)
  }

  /** Something is recorded, and in toggle mode a trigger with a key is reached, or in push-to-talk what has
      started it is let go. */
  ghost predicate Stops(s: State, input: Input) {
    && s.triggerPressed
    && ((s.config.mode == "toggle" && Triggers(s.config, s.pressed, input))
        || (s.config.mode == "push_to_talk" && s.active.Some? && LetGo(s.active.value, s.pressed, input)))
  }

  // ---------------------------------------------------------------- one input

  lemma SameKeyIs(held: set<string>, c: KeyCombo, key: string)
    ensures CheckCombo(held, c, key) <==> c.modifiers == held && SameKey(key, c.key)
  {
    hide Without;
  }

  lemma TouchedIs(held: set<string>, c: KeyCombo, key: string)
    ensures TriggerMatches(held, c, key) <==> Touched(c, held, key)
  {
    SameKeyIs(held, c, key);
    hide CheckCombo, SameKey;
  }

  lemma CancelsIs(config: HotkeyConfig, held: set<string>, key: string)
    ensures Cancels(config, held, KeyPress(key))
       <==> (config.escapeToCancel && (key == "esc" || key == "escape")) || AnyCancel(config.cancels, held, key)
  {
    hide CheckCombo, SameKey;
    forall c: KeyCombo ensures CheckCombo(held, c, key) <==> c.modifiers == held && SameKey(key, c.key) {
      SameKeyIs(held, c, key);
    }
    if c :| c in config.cancels && !c.isModifierOnly && CheckCombo(held, c, key) {
      var i :| 0 <= i < |config.cancels| && config.cancels[i] == c;
      assert CancelCombo(config.cancels[i], held, key);
    }
  }

  lemma {:induction false} FirstIs(triggers: seq<KeyCombo>, held: set<string>, key: string, i: nat)
    requires FirstTouched(triggers, held, key, i)
    ensures AnyTrigger(triggers, held, key) == Some(triggers[i])
  {
    hide TriggerMatches, Touched;
    TouchedIs(held, triggers[0], key);
    if i > 0 {
      assert FirstTouched(triggers[1..], held, key, i - 1);
      FirstIs(triggers[1..], held, key, i - 1);
    }
  }

  lemma {:induction false} FirstOf(triggers: seq<KeyCombo>, held: set<string>, key: string) returns (i: nat)
    requires AnyTrigger(triggers, held, key).Some?
    ensures FirstTouched(triggers, held, key, i)
  {
    hide TriggerMatches, Touched;
    TouchedIs(held, triggers[0], key);
    if Touched(triggers[0], held, key) {
      i := 0;
    } else {
      var k := FirstOf(triggers[1..], held, key);
      i := k + 1;
      forall j | 0 <= j < i ensures !Touched(triggers[j], held, key) {
        if j > 0 { assert triggers[j] == triggers[1..][j - 1]; }
      }
    }
  }

  lemma ReachedIs(triggers: seq<KeyCombo>, held: set<string>, key: string, withKey: bool)
    ensures var r := AnyTrigger(triggers, held, key);
            Reached(triggers, held, key, withKey) <==> r.Some? && r.value.isModifierOnly == !withKey
  {
    hide AnyTrigger, Touched;
    if AnyTrigger(triggers, held, key).Some? {
      var i := FirstOf(triggers, held, key);
      FirstIs(triggers, held, key, i);
    }
    if Reached(triggers, held, key, withKey) {
      var i: nat :| FirstTouched(triggers, held, key, i) && triggers[i].isModifierOnly == !withKey;
      FirstIs(triggers, held, key, i);
    }
  }

  predicate KeepsTrigger(input: Input) { !input.SetConfig? && !input.ResetInput? }

  /** One input: at most one event, and which; whether the trigger is pressed afterwards, and which it is. */
  lemma EventOf(s: State, input: Input)
    ensures var (t, out) := Handle(s, input);
            && out == (if Cancels(s.config, s.pressed, input) then [CANCEL]
                       else if Starts(s, input) then [START]
                       else if Stops(s, input) then [STOP] else [])
            && (t.triggerPressed <==>
                  out == [START] || (s.triggerPressed && out == [] && KeepsTrigger(input)))
            && (t.triggerPressed && out == [] ==> t.active == s.active)
  {
    if input.KeyPress? {
      CancelsIs(s.config, s.pressed, input.key);
      ReachedIs(s.config.triggers, s.pressed, input.key, true);
    }
    if input.ModifierPress? { ReachedIs(s.config.triggers, s.pressed + {input.modifier}, "", false); }
    if input.KeyRelease? && s.active.Some? { SameKeyIs(s.pressed, s.active.value, input.key); }
    hide AnyTrigger, AnyCancel, CheckCombo, SameKey, Reached, CancelCombo;
  }

  /** The trigger that is remembered when recording starts is the first one under the fingers. */
  lemma ActiveOf(s: State, input: Input)
    ensures var (t, out) := Handle(s, input);
            out == [START] ==>
              var key := if input.KeyPress? then input.key else "";
              exists i: nat ::
                FirstTouched(s.config.triggers, t.pressed, key, i) && t.active == Some(s.config.triggers[i])
  {
    hide AnyTrigger, AnyCancel, CheckCombo, FirstTouched;
    var (t, out) := Handle(s, input);
    if out == [START] {
      var key := if input.KeyPress? then input.key else "";
      var i := FirstOf(s.config.triggers, t.pressed, key);
      FirstIs(s.config.triggers, t.pressed, key, i);
    }
  }

  // ---------------------------------------------------------------- every run

  lemma HeldStep(inputs: seq<Input>, input: Input, m: string)
    ensures IsHeld(inputs + [input], m)
       <==> input == ModifierPress(m) || (IsHeld(inputs, m) && !LetsGo(input, m))
  {
    var all := inputs + [input];
    if i: nat :| HeldSince(inputs, m, i) && !LetsGo(input, m) {
      assert HeldSince(all, m, i);
    }
    if input == ModifierPress(m) { assert HeldSince(all, m, |inputs|); }
    if i: nat :| HeldSince(all, m, i) && i < |inputs| {
      assert !LetsGo(all[|inputs|], m);
      forall j | i < j < |inputs| ensures !LetsGo(inputs[j], m) { assert !LetsGo(all[j], m); }
      assert HeldSince(inputs, m, i);
    }
  }

  lemma PressedOf(s: State, input: Input, m: string)
    ensures m in Handle(s, input).0.pressed <==> input == ModifierPress(m) || (m in s.pressed && !LetsGo(input, m))
    ensures Handle(s, input).0.config == if input.SetConfig? then input.config else s.config
  {
    hide AnyTrigger, AnyCancel, CheckCombo;
  }

  lemma NotHeld(m: string)
    ensures !IsHeld([], m)
  {
  }

  /** In every run the configuration is the last one set, and the modifiers held are those pressed and not
      released since. */
  lemma {:induction false} HeldRun(config: HotkeyConfig, inputs: seq<Input>)
    ensures var s := Run(config, inputs).0;
            s.config == InForce(config, inputs) && forall m :: m in s.pressed <==> IsHeld(inputs, m)
  {
    hide Handle, IsHeld;
    if inputs == [] {
      forall m: string ensures !IsHeld([], m) { NotHeld(m); }
    } else {
      var before, input := inputs[..|inputs| - 1], inputs[|inputs| - 1];
      HeldRun(config, before);
      assert inputs == before + [input];
      var s := Run(config, before).0;
      forall m: string
        ensures m in Handle(s, input).0.pressed <==> IsHeld(inputs, m)
      {
        PressedOf(s, input, m);
        HeldStep(before, input, m);
      }
      PressedOf(s, input, "");
    }
  }

  lemma OneEvent(log: seq<Event>, out: seq<Event>, e: Event)
    ensures log + out == log + [e] <==> out == [e]
  {
    if log + out == log + [e] { assert (log + out)[|log|..] == out && (log + [e])[|log|..] == [e]; }
  }

  /** In every run, the next input adds CANCEL exactly when it is a key press that is escape while escape
      cancels, or that matches a cancel combination with a key under the modifiers held; and then the
      trigger is no longer pressed. */
  lemma CancelLaw(config: HotkeyConfig, inputs: seq<Input>, input: Input)
    ensures var s := Run(config, inputs).0;
            var (t, log) := Run(config, inputs + [input]);
            && s.config == InForce(config, inputs) && (forall m :: m in s.pressed <==> IsHeld(inputs, m))
            && (log == Run(config, inputs).1 + [CANCEL] <==> Cancels(s.config, s.pressed, input))
            && (Cancels(s.config, s.pressed, input) ==> !t.triggerPressed)
  {
    HeldRun(config, inputs);
    RunSnoc(config, inputs, input);
    EventOf(Run(config, inputs).0, input);
    hide *;
    OneEvent(Run(config, inputs).1, Handle(Run(config, inputs).0, input).1, CANCEL);
  }

  /** Likewise START and STOP, and nothing else is ever added. */
  lemma StartStopLaw(config: HotkeyConfig, inputs: seq<Input>, input: Input)
    ensures var (s, log) := Run(config, inputs);
            var (t, log') := Run(config, inputs + [input]);
            log' == log + (if Cancels(s.config, s.pressed, input) then [CANCEL]
                           else if Starts(s, input) then [START]
                           else if Stops(s, input) then [STOP] else [])
    ensures var (s, log) := Run(config, inputs);
            var (t, log') := Run(config, inputs + [input]);
            t.triggerPressed <==>
              log' == log + [START] || (s.triggerPressed && log' == log && !input.SetConfig? && !input.ResetInput?)
  {
    RunSnoc(config, inputs, input);
    var (s, log) := Run(config, inputs);
    EventOf(s, input);
    var out := Handle(s, input).1;
    OneEvent(log, out, START);
    assert log + out == log <==> out == [];
    hide Handle, Cancels, Starts, Stops, Run;
  }

  // ---------------------------------------------------------------- whether a configuration can cancel

  predicate CanCancel(config: HotkeyConfig) {
    config.escapeToCancel || exists c :: c in config.cancels && !c.isModifierOnly
  }

  lemma CancelsCan(config: HotkeyConfig, held: set<string>, input: Input)
    ensures Cancels(config, held, input) ==> CanCancel(config)
  {
    hide SameKey;
  }

  lemma {:induction false} CancelRun(config: HotkeyConfig, inputs: seq<Input>)
    requires NoReconfiguration(inputs)
    ensures Run(config, inputs).0.config == config && (CANCEL in Run(config, inputs).1 ==> CanCancel(config))
  {
    hide Handle, CanCancel;
    if inputs != [] {
      var before, input := inputs[..|inputs| - 1], inputs[|inputs| - 1];
      CancelRun(config, before);
      var s := Run(config, before).0;
      PressedOf(s, input, "");
      EventOf(s, input);
      CancelsCan(config, s.pressed, input);
    }
  }

  lemma SameKeySelf(key: string)
    ensures SameKey(key, key)
  {
  }

  lemma CancelBy(config: HotkeyConfig) returns (inputs: seq<Input>)
    requires CanCancel(config)
    ensures NoReconfiguration(inputs) && CANCEL in Run(config, inputs).1
  {
    var held: seq<string>, key: string := [], "esc";
    if !config.escapeToCancel {
      var c :| c in config.cancels && !c.isModifierOnly;
      held := Enumerate(c.modifiers);
      key := c.key;
      assert Held(held) == c.modifiers;
      SameKeySelf(c.key);
      var i :| 0 <= i < |config.cancels| && config.cancels[i] == c;
      assert CancelCombo(config.cancels[i], Held(held), key);
    }
    assert Cancels(config, Held(held), KeyPress(key));
    hide Cancels, Run, Handle, Holding, AnyTrigger;
    PressAll(config, held);
    var s := Run(config, Presses(held)).0;
    EventOf(s, KeyPress(key));
    Extended(config, Presses(held), KeyPress(key));
    inputs := Presses(held) + [KeyPress(key)];
  }

  /** Some run emits CANCEL exactly when escape cancels or a cancel combination has a key. */
  lemma CancelIff(config: HotkeyConfig)
    ensures (exists inputs :: NoReconfiguration(inputs) && CANCEL in Run(config, inputs).1) <==> CanCancel(config)
  {
    hide Run, NoReconfiguration, CanCancel;
    if CanCancel(config) { var inputs := CancelBy(config); }
    if inputs :| NoReconfiguration(inputs) && CANCEL in Run(config, inputs).1 { CancelRun(config, inputs); }
  }
}
