/** The hotkey machine of src/hotkey/hotkey_common.cpp: key events in, START, STOP and CANCEL
    out. The log of what it emits has a shape that the daemon can rely on, in every run, with
    live re-configuration and input resets at any time. */
module Hotkey {
  import opened Options
  import opened Stripping

  datatype Event = START | STOP | CANCEL

  datatype KeyCombo = KeyCombo(modifiers: set<string>, key: string, isModifierOnly: bool)

  /** A configuration whose combos have been parsed; invalid ones have been skipped. */
  datatype HotkeyConfig =
    HotkeyConfig(triggers: seq<KeyCombo>, cancels: seq<KeyCombo>, mode: string, escapeToCancel: bool)

  datatype Input =
    | ModifierPress(modifier: string)
    | ModifierRelease(modifier: string)
    | KeyPress(key: string)
    | KeyRelease(key: string)
    | SetConfig(config: HotkeyConfig)
    | ResetInput

  // ---------------------------------------------------------------- matching

  function NormalizeAlias(key: string): string {
    if key == "enter" then "return" else if key == "escape" then "esc" else key
  }

  function WithoutUnderscores(s: string): string { Without(s, '_') }

  predicate CheckCombo(pressed: set<string>, combo: KeyCombo, key: string) {
    && combo.modifiers == pressed
    && (NormalizeAlias(key) == NormalizeAlias(combo.key)
        || NormalizeAlias(key) == WithoutUnderscores(NormalizeAlias(combo.key)))
  }

  predicate TriggerMatches(pressed: set<string>, combo: KeyCombo, key: string) {
    if combo.isModifierOnly then combo.modifiers == pressed else key != "" && CheckCombo(pressed, combo, key)
  }

  // ---------------------------------------------------------------- one input, as a function

  datatype State = State(config: HotkeyConfig, pressed: set<string>, triggerPressed: bool, active: Option<KeyCombo>)

  /** The first matching trigger. */
  function AnyTrigger(combos: seq<KeyCombo>, pressed: set<string>, key: string): Option<KeyCombo> {
    if combos == [] then None
    else if TriggerMatches(pressed, combos[0], key) then Some(combos[0])
    else AnyTrigger(combos[1..], pressed, key)
  }

  predicate AnyCancel(combos: seq<KeyCombo>, pressed: set<string>, key: string) {
    exists c :: c in combos && !c.isModifierOnly && CheckCombo(pressed, c, key)
  }

  function Started(s: State, combo: KeyCombo): (State, seq<Event>) {
    (s.(triggerPressed := true, active := Some(combo)), [START])
  }

  function OnKeyPress(s: State, key: string): (State, seq<Event>) {
    if s.config.escapeToCancel && (key == "esc" || key == "escape") then (s.(triggerPressed := false), [CANCEL])
    else if AnyCancel(s.config.cancels, s.pressed, key) then (s.(triggerPressed := false), [CANCEL])
    else
      var matched := AnyTrigger(s.config.triggers, s.pressed, key);
      if matched.None? || matched.value.isModifierOnly then (s, [])
      else if !s.triggerPressed then Started(s, matched.value)
      else if s.config.mode == "toggle" then (s.(triggerPressed := false), [STOP])
      else (s, [])
  }

  function OnModifierPress(s: State, modifier: string): (State, seq<Event>) {
    var s1 := s.(pressed := s.pressed + {modifier});
    var matched := AnyTrigger(s1.config.triggers, s1.pressed, "");
    if matched.Some? && matched.value.isModifierOnly && !s1.triggerPressed then Started(s1, matched.value) else (s1, [])
  }

  function Released(s: State): (State, seq<Event>) {
    (s.(triggerPressed := false, active := None), [STOP])
  }

  function OnModifierRelease(s: State, modifier: string): (State, seq<Event>) {
    var s1 := s.(pressed := s.pressed - {modifier});
    if s1.active.Some? && s1.active.value.isModifierOnly && s1.config.mode == "push_to_talk" && s1.triggerPressed
       && modifier in s1.active.value.modifiers
    then Released(s1) else (s1, [])
  }

  function OnKeyRelease(s: State, key: string): (State, seq<Event>) {
    if s.active.Some? && !s.active.value.isModifierOnly && s.config.mode == "push_to_talk" && s.triggerPressed
       && CheckCombo(s.pressed, s.active.value, key)
    then Released(s) else (s, [])
  }

  function Handle(s: State, input: Input): (State, seq<Event>) {
    match input
    case ModifierPress(m) => OnModifierPress(s, m)
    case ModifierRelease(m) => OnModifierRelease(s, m)
    case KeyPress(k) => OnKeyPress(s, k)
    case KeyRelease(k) => OnKeyRelease(s, k)
    case SetConfig(c) => (State(c, {}, false, None), [])
    case ResetInput => (s.(pressed := {}, triggerPressed := false, active := None), [])
  }

  // ---------------------------------------------------------------- the object

  class HotkeyManager {
    var config: HotkeyConfig
    var pressedModifiers: set<string>
    var triggerPressed: bool
    var activeTrigger: Option<KeyCombo>
    var running: bool

    /** Every event passed to the callback. */
    var log: seq<Event>

    ghost function Now(): State
      reads this
    {
      State(config, pressedModifiers, triggerPressed, activeTrigger)
    }

    constructor (config: HotkeyConfig)
      ensures Now() == State(config, {}, false, None) && log == [] && !running
    {
      this.config, pressedModifiers, triggerPressed, activeTrigger, running, log := config, {}, false, None, false, [];
    }

    method SendEvent(event: Event)
      modifies `log
      ensures log == old(log) + [event]
    {
      log := log + [event];
    }

    method SetConfigLive(next: HotkeyConfig)
      modifies this
      ensures Now() == Handle(old(Now()), SetConfig(next)).0 && log == old(log) && running == old(running)
    {
      config := next;
      pressedModifiers, triggerPressed, activeTrigger := {}, false, None;
    }

    method ResetInputState()
      modifies this
      ensures Now() == Handle(old(Now()), ResetInput).0 && log == old(log) && running == old(running)
    {
      pressedModifiers, triggerPressed, activeTrigger := {}, false, None;
    }

    method CheckAnyTrigger(key: string) returns (r: Option<KeyCombo>)
      ensures r == AnyTrigger(config.triggers, pressedModifiers, key)
    {
      var combos := config.triggers;
      assert combos[0..] == combos;
      for i := 0 to |combos|
        invariant AnyTrigger(combos[i..], pressedModifiers, key) == AnyTrigger(combos, pressedModifiers, key)
      {
        assert combos[i..][1..] == combos[i + 1..];
        if TriggerMatches(pressedModifiers, combos[i], key) {
          return Some(combos[i]);
        }
      }
      r := None;
    }

    method CheckAnyCancel(key: string) returns (r: bool)
      ensures r == AnyCancel(config.cancels, pressedModifiers, key)
    {
      for i := 0 to |config.cancels|
        invariant forall j :: 0 <= j < i ==>
                    config.cancels[j].isModifierOnly || !CheckCombo(pressedModifiers, config.cancels[j], key)
      {
        if !config.cancels[i].isModifierOnly && CheckCombo(pressedModifiers, config.cancels[i], key) {
          return true;
        }
      }
      r := false;
    }

    method ModifierPressed(modifier: string)
      modifies this
      ensures running == old(running)
      ensures !running ==> Now() == old(Now()) && log == old(log)
      ensures running ==> Now() == Handle(old(Now()), ModifierPress(modifier)).0
      ensures running ==> log == old(log) + Handle(old(Now()), ModifierPress(modifier)).1
    {
      if !running { return; }
      assert log + [] == log;
      pressedModifiers := pressedModifiers + {modifier};
      var matched := CheckAnyTrigger("");
      if matched.Some? && matched.value.isModifierOnly && !triggerPressed {
        triggerPressed := true;
        activeTrigger := matched;
        SendEvent(START);
      }
    }

    method ModifierReleased(modifier: string)
      modifies this
      ensures running == old(running)
      ensures !running ==> Now() == old(Now()) && log == old(log)
      ensures running ==> Now() == Handle(old(Now()), ModifierRelease(modifier)).0
      ensures running ==> log == old(log) + Handle(old(Now()), ModifierRelease(modifier)).1
    {
      if !running { return; }
      assert log + [] == log;
      pressedModifiers := pressedModifiers - {modifier};
      if activeTrigger.Some? && activeTrigger.value.isModifierOnly && config.mode == "push_to_talk" && triggerPressed
         && modifier in activeTrigger.value.modifiers {
        triggerPressed := false;
        activeTrigger := None;
        SendEvent(STOP);
      }
    }

    method KeyPressed(key: string)
      modifies this
      ensures running == old(running)
      ensures !running ==> Now() == old(Now()) && log == old(log)
      ensures running ==> Now() == Handle(old(Now()), KeyPress(key)).0
      ensures running ==> log == old(log) + Handle(old(Now()), KeyPress(key)).1
    {
      if !running { return; }
      assert log + [] == log;
      if config.escapeToCancel && (key == "esc" || key == "escape") {
        triggerPressed := false;
        SendEvent(CANCEL);
        return;
      }
      var cancelled := CheckAnyCancel(key);
      if cancelled {
        triggerPressed := false;
        SendEvent(CANCEL);
        return;
      }
      var matched := CheckAnyTrigger(key);
      if matched.Some? && !matched.value.isModifierOnly {
        if config.mode == "toggle" {
          if triggerPressed {
            triggerPressed := false;
            SendEvent(STOP);
          } else {
            triggerPressed := true;
            activeTrigger := matched;
            SendEvent(START);
          }
        } else if !triggerPressed {
          triggerPressed := true;
          activeTrigger := matched;
          SendEvent(START);
        }
      }
    }

    method KeyReleased(key: string)
      modifies this
      ensures running == old(running)
      ensures !running ==> Now() == old(Now()) && log == old(log)
      ensures running ==> Now() == Handle(old(Now()), KeyRelease(key)).0
      ensures running ==> log == old(log) + Handle(old(Now()), KeyRelease(key)).1
    {
      if !running { return; }
      assert log + [] == log;
      if activeTrigger.Some? && !activeTrigger.value.isModifierOnly && config.mode == "push_to_talk" && triggerPressed {
        if CheckCombo(pressedModifiers, activeTrigger.value, key) {
          triggerPressed := false;
          activeTrigger := None;
          SendEvent(STOP);
        }
      }
    }
  }

  // ---------------------------------------------------------------- every run

  predicate LastIsStart(log: seq<Event>) { log != [] && log[|log| - 1] == START }

  /** Every STOP comes directly after a START. */
  predicate StopsFollowStarts(log: seq<Event>) {
    forall i :: 0 <= i < |log| && log[i] == STOP ==> 0 < i && log[i - 1] == START
  }

  /** A pressed trigger means that the last event was START, and that the trigger remembered is one
      of those now configured. */
  predicate Inv(s: State, log: seq<Event>) {
    && StopsFollowStarts(log)
    && (s.triggerPressed ==> LastIsStart(log) && s.active.Some? && s.active.value in s.config.triggers)
  }

  lemma {:induction false} TriggerIsConfigured(combos: seq<KeyCombo>, pressed: set<string>, key: string)
    ensures var r := AnyTrigger(combos, pressed, key);
            r.Some? ==> r.value in combos && TriggerMatches(pressed, r.value, key)
  {
    if combos != [] { TriggerIsConfigured(combos[1..], pressed, key); }
  }

  lemma InvStep(s: State, log: seq<Event>, input: Input)
    requires Inv(s, log)
    ensures var (s', out) := Handle(s, input); Inv(s', log + out) && |out| <= 1
  {
    hide CheckCombo, AnyTrigger, AnyCancel, TriggerMatches;
    if input.KeyPress? { TriggerIsConfigured(s.config.triggers, s.pressed, input.key); }
    if input.ModifierPress? { TriggerIsConfigured(s.config.triggers, s.pressed + {input.modifier}, ""); }
    var (s', out) := Handle(s, input);
    assert forall i :: 0 <= i < |log| ==> (log + out)[i] == log[i];
  }

  function Initial(config: HotkeyConfig): State { State(config, {}, false, None) }

  /** The state and the log after a sequence of inputs. */
  function Run(config: HotkeyConfig, inputs: seq<Input>): (State, seq<Event>) {
    if inputs == [] then (Initial(config), [])
    else
      var (s, log) := Run(config, inputs[..|inputs| - 1]);
      var (s', out) := Handle(s, inputs[|inputs| - 1]);
      (s', log + out)
  }

  lemma InvStart(config: HotkeyConfig)
    ensures Inv(Initial(config), [])
  {
  }

  /** In every run each STOP directly follows a START, and `triggerPressed` implies that the last
      event was START and the active trigger is a current one. */
  lemma {:induction false} LogShape(config: HotkeyConfig, inputs: seq<Input>)
    ensures Inv(Run(config, inputs).0, Run(config, inputs).1)
  {
    hide Handle, Inv;
    if inputs == [] {
      InvStart(config);
    } else {
      LogShape(config, inputs[..|inputs| - 1]);
      var (s, log) := Run(config, inputs[..|inputs| - 1]);
      InvStep(s, log, inputs[|inputs| - 1]);
    }
  }

  lemma PressedStep(s: State, log: seq<Event>, input: Input)
    requires s.triggerPressed <==> LastIsStart(log)
    requires !input.SetConfig? && !input.ResetInput?
    ensures var (s', out) := Handle(s, input); s'.triggerPressed <==> LastIsStart(log + out)
  {
    hide CheckCombo, AnyTrigger, AnyCancel;
    assert log + [] == log;
  }

  predicate Undisturbed(inputs: seq<Input>) {
    forall i :: 0 <= i < |inputs| ==> !inputs[i].SetConfig? && !inputs[i].ResetInput?
  }

  lemma EmptyLog()
    ensures !LastIsStart([])
  {
  }

  /** In every run without re-configuration and resets the trigger is pressed exactly when the last
      event was START. */
  lemma {:induction false} PressedRun(config: HotkeyConfig, inputs: seq<Input>)
    requires Undisturbed(inputs)
    ensures var (s, log) := Run(config, inputs); s.triggerPressed <==> LastIsStart(log)
  {
    hide Handle, LastIsStart;
    if inputs == [] {
      assert !LastIsStart([]) by { EmptyLog(); }
    } else {
      PressedRun(config, inputs[..|inputs| - 1]);
      var (s, log) := Run(config, inputs[..|inputs| - 1]);
      PressedStep(s, log, inputs[|inputs| - 1]);
    }
  }
}
