/** Reading a key combination such as "ctrl+shift+a": `KeyCombo::parse` of
    src/hotkey/hotkey_common.cpp. What it accepts can be triggered, unless it is the escape key and
    escape cancels, or another combination stands before it. */
module KeyCombos {
  import opened Options
  import opened Ctype
  import opened Hotkey
  import opened HotkeyLimits
  import opened Stripping
  import opened TextLines

  predicate Modifier(part: string) { part == "ctrl" || part == "alt" || part == "shift" || part == "super" }

  /** The other names of the modifiers. */
  function Canonical(part: string): string {
    if part == "control" then "ctrl"
    else if part == "option" then "alt"
    else if part == "win" || part == "cmd" || part == "meta" then "super"
    else part
  }

  predicate IsBlank(c: char) { c == ' ' }

  function Cleaned(part: string): string { Strip(Lower(part), IsBlank) }

  /** Lower-cased, trimmed, without the empty ones, and with modifiers under one name. */
  function Parts(pieces: seq<string>): seq<string> {
    if pieces == [] then []
    else
      var p := Cleaned(pieces[|pieces| - 1]);
      Parts(pieces[..|pieces| - 1]) + (if p == "" then [] else [Canonical(p)])
  }

  function PartsOf(text: string): seq<string> { Parts(SplitOn(text, '+')) }

  lemma {:induction false} PartsNotEmpty(pieces: seq<string>)
    ensures forall i :: 0 <= i < |Parts(pieces)| ==> Parts(pieces)[i] != ""
  {
    hide Cleaned;
    if pieces != [] { PartsNotEmpty(pieces[..|pieces| - 1]); }
  }

  function Names(parts: seq<string>): set<string> { set p | p in parts }

  /** What a combination means: every part but the last is a modifier, and so may the last be.
      None stands for the exception. */
  function Meaning(parts: seq<string>): Option<KeyCombo> {
    if parts == [] || exists i :: 0 <= i < |parts| - 1 && !Modifier(parts[i]) then None
    else
      var last := parts[|parts| - 1];
      if Modifier(last) then Some(KeyCombo(Names(parts), "", true))
      else Some(KeyCombo(Names(parts[..|parts| - 1]), last, false))
  }

  method ParseCombo(text: string) returns (r: Option<KeyCombo>)
    ensures r == Meaning(PartsOf(text))
  {
    hide Cleaned, Canonical, Modifier;
    var pieces := SplitOn(text, '+');
    var normalized: seq<string> := [];
    for i := 0 to |pieces|
      invariant normalized == Parts(pieces[..i])
    {
      assert pieces[..i + 1][..i] == pieces[..i];
      var part := Cleaned(pieces[i]);
      if part != "" { normalized := normalized + [Canonical(part)]; }
    }
    assert pieces[..|pieces|] == pieces;
    if normalized == [] { return None; }
    var allModifiers := true;
    for i := 0 to |normalized|
      invariant allModifiers <==> forall j :: 0 <= j < i ==> Modifier(normalized[j])
    {
      if !Modifier(normalized[i]) {
        allModifiers := false;
        break;
      }
    }
    if allModifiers {
      assert Modifier(normalized[|normalized| - 1]);
      return Some(KeyCombo(Names(normalized), "", true));
    }
    for i := 0 to |normalized| - 1
      invariant forall j :: 0 <= j < i ==> Modifier(normalized[j])
    {
      if !Modifier(normalized[i]) { return None; }
    }
    r := Some(KeyCombo(Names(normalized[..|normalized| - 1]), normalized[|normalized| - 1], false));
  }

  /** An accepted combination asks for modifiers that exist, names a key that is not one of them or
      none at all, and fires when exactly its modifiers are held and its key is pressed. */
  lemma AcceptedFires(text: string)
    ensures var r := Meaning(PartsOf(text));
            r.Some? ==>
              && (forall m :: m in r.value.modifiers ==> Modifier(m))
              && !Modifier(r.value.key)
              && (r.value.isModifierOnly <==> r.value.key == "")
              && (r.value.isModifierOnly ==> r.value.modifiers != {})
              && (forall pressed :: TriggerMatches(pressed, r.value, r.value.key) <==> pressed == r.value.modifiers)
  {
    var parts := PartsOf(text);
    PartsNotEmpty(SplitOn(text, '+'));
    hide Parts, SplitOn, WithoutUnderscores;
    var r := Meaning(parts);
    if r.Some? {
      var last := parts[|parts| - 1];
      assert forall i :: 0 <= i < |parts| - 1 ==> Modifier(parts[i]);
      assert last in Names(parts);
    }
  }

  lemma AloneFires(c: KeyCombo, mode: string, escapeToCancel: bool, key: string)
    requires !c.isModifierOnly
    ensures Fires(HotkeyConfig([c], [], mode, escapeToCancel), c.modifiers, key)
            <==> !(escapeToCancel && (key == "esc" || key == "escape")) && key != "" && CheckCombo(c.modifiers, c, key)
  {
    hide CheckCombo;
    assert [c][0] == c && [c][1..] == [];
    assert !AnyCancel([], c.modifiers, key);
    assert AnyTrigger([c], c.modifiers, key) == if TriggerMatches(c.modifiers, c, key) then Some(c) else None;
  }

  lemma EscBare()
    ensures WithoutUnderscores("esc") == "esc"
  {
    WithoutFacts("esc", '_');
  }

  lemma AloneKey(c: KeyCombo, mode: string, escapeToCancel: bool)
    requires !c.isModifierOnly && c.key != ""
    ensures OwnKeyFires(HotkeyConfig([c], [], mode, escapeToCancel), c)
            <==> !(escapeToCancel && (c.key == "esc" || c.key == "escape"))
  {
    var k := NormalizeAlias(c.key);
    AliasTwice(c.key);
    AloneFires(c, mode, escapeToCancel, k);
    AloneFires(c, mode, escapeToCancel, WithoutUnderscores(k));
    if k == "esc" { assert WithoutUnderscores("esc") == "esc" by { EscBare(); } }
    hide NormalizeAlias, WithoutUnderscores, Fires;
  }

  lemma AloneCanStart(c: KeyCombo, mode: string, escapeToCancel: bool)
    requires c.isModifierOnly <==> c.key == ""
    requires c.isModifierOnly ==> c.modifiers != {}
    ensures CanStart(HotkeyConfig([c], [], mode, escapeToCancel))
            <==> !(escapeToCancel && (c.key == "esc" || c.key == "escape"))
  {
    var config := HotkeyConfig([c], [], mode, escapeToCancel);
    assert c in config.triggers && config.triggers[0] == c;
    if c.isModifierOnly {
      hide KeyCanFire;
      assert ModifiersCanFire(config);
    } else {
      AloneKey(c, mode, escapeToCancel);
      hide OwnKeyFires;
      assert KeyCanFire(config) <==> OwnKeyFires(config, c);
    }
  }

  /** An accepted combination as the only trigger, without cancel combinations: some run starts, unless
      escape cancels and the key is escape. */
  lemma AcceptedStarts(text: string, mode: string, escapeToCancel: bool)
    ensures var r := Meaning(PartsOf(text));
            r.Some? ==>
              var config := HotkeyConfig([r.value], [], mode, escapeToCancel);
              ((exists inputs :: NoReconfiguration(inputs) && START in Run(config, inputs).1)
               <==> !(escapeToCancel && (r.value.key == "esc" || r.value.key == "escape")))
  {
    hide Meaning, PartsOf, Modifier, CanStart, NoReconfiguration, Run;
    var r := Meaning(PartsOf(text));
    AcceptedFires(text);
    if r.Some? {
      StartIff(HotkeyConfig([r.value], [], mode, escapeToCancel));
      AloneCanStart(r.value, mode, escapeToCancel);
    }
  }
}
