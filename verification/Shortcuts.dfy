/** Shortcut settings: conflicts, validation, and what set, clear, reset and resolve do to them. */
module Shortcuts {
  import opened Basics
  import opened ShortcutKeys
  import opened ShortcutNames
  import opened Text

  datatype Command =
    | SearchEverywhere | OpenFile | GoToSymbol | FindInFiles | GoToDefinition | FindUsages
    | NavigationBack | NavigationForward | FocusFiles | FocusPreview | FocusTerminal

  const COMMANDS: seq<Command> :=
    [SearchEverywhere, OpenFile, GoToSymbol, FindInFiles, GoToDefinition, FindUsages,
     NavigationBack, NavigationForward, FocusFiles, FocusPreview, FocusTerminal]

  lemma AllCommands(c: Command)
    ensures c in COMMANDS
  {
    assert COMMANDS[0].SearchEverywhere? && COMMANDS[1].OpenFile? && COMMANDS[2].GoToSymbol?
           && COMMANDS[3].FindInFiles?;
    assert COMMANDS[4].GoToDefinition? && COMMANDS[5].FindUsages? && COMMANDS[6].NavigationBack?;
    assert COMMANDS[7].NavigationForward? && COMMANDS[8].FocusFiles? && COMMANDS[9].FocusPreview?;
    assert COMMANDS[10].FocusTerminal?;
  }

  /** Stored settings: a command without an entry has its defaults. */
  type Settings = map<Command, seq<Binding>>

  /** How bindings are normalised, and the defaults of every command. */
  datatype Keymap = Keymap(normal: Binding -> Option<Binding>, defaults: Command -> seq<Binding>)

  function NormalizeAll(bindings: seq<Binding>, normal: Binding -> Option<Binding>): seq<Binding> {
    if bindings == [] then []
    else
      var last := normal(bindings[|bindings| - 1]);
      NormalizeAll(bindings[..|bindings| - 1], normal) + if last.Some? then [last.value] else []
  }

  /** The bindings of a command in the normalised settings (`normalizeShortcutSettings`). */
  function BindingsOf(settings: Settings, c: Command, keymap: Keymap): seq<Binding> {
    if c in settings then NormalizeAll(settings[c], keymap.normal) else keymap.defaults(c)
  }

  ghost predicate AllNormal(bindings: seq<Binding>, normal: Binding -> Option<Binding>) {
    forall i :: 0 <= i < |bindings| ==> normal(bindings[i]) == Some(bindings[i])
  }

  /** Normalising again changes nothing, and only the platform that was asked for is stored. */
  ghost predicate IsNormalizer(normal: Binding -> Option<Binding>) {
    forall b: Binding :: normal(b).Some? ==>
      && normal(normal(b).value) == normal(b)
      && forall p: Platform :: normal(b.(platform := p)) == Some(normal(b).value.(platform := p))
  }

  /** What is true of the built-in keymap. */
  ghost predicate Proper(keymap: Keymap) {
    IsNormalizer(keymap.normal) && forall c: Command :: AllNormal(keymap.defaults(c), keymap.normal)
  }

  lemma {:induction false} NormalizeAllIsNormal(bindings: seq<Binding>, normal: Binding -> Option<Binding>)
    requires IsNormalizer(normal)
    ensures AllNormal(NormalizeAll(bindings, normal), normal)
  {
    if bindings == [] {
    } else {
      NormalizeAllIsNormal(bindings[..|bindings| - 1], normal);
    }
  }

  lemma {:induction false} NormalizeAllAgain(bindings: seq<Binding>, normal: Binding -> Option<Binding>)
    requires AllNormal(bindings, normal)
    ensures NormalizeAll(bindings, normal) == bindings
  {
    if bindings == [] {
    } else {
      NormalizeAllAgain(bindings[..|bindings| - 1], normal);
    }
  }

  lemma BindingsAreNormal(settings: Settings, c: Command, keymap: Keymap)
    requires Proper(keymap)
    ensures AllNormal(BindingsOf(settings, c, keymap), keymap.normal)
  {
    if c in settings {
      NormalizeAllIsNormal(settings[c], keymap.normal);
    }
  }

  /** `platformMatches` and `platformsOverlap`, which are the same relation. */
  predicate Overlap(left: Platform, right: Platform) {
    left.All? || right.All? || left == right
  }

  /** `shortcutSignature`. */
  function Signature(binding: Binding): string {
    Join(binding.keys, '+')
  }

  predicate Clash(a: Binding, b: Binding) {
    Signature(a) == Signature(b) && Overlap(a.platform, b.platform)
  }

  /** The first binding in the list that clashes. */
  function FirstClash(bindings: seq<Binding>, binding: Binding): Option<Binding> {
    if bindings == [] then None
    else if Clash(bindings[0], binding) then Some(bindings[0])
    else FirstClash(bindings[1..], binding)
  }

  datatype Conflict = Conflict(command: Command, binding: Binding)

  function FirstConflict(commands: seq<Command>, settings: Settings, c: Command, binding: Binding, keymap: Keymap):
    Option<Conflict>
  {
    if commands == [] then None
    else
      var clash := if commands[0] == c then None else FirstClash(BindingsOf(settings, commands[0], keymap), binding);
      if clash.Some? then Some(Conflict(commands[0], clash.value))
      else FirstConflict(commands[1..], settings, c, binding, keymap)
  }

  /** Some other command has a binding with the same signature on a common platform. */
  ghost predicate Conflicts(settings: Settings, c: Command, binding: Binding, keymap: Keymap) {
    exists other: Command :: other != c && ClashIn(BindingsOf(settings, other, keymap), binding)
  }

  ghost predicate ClashIn(bindings: seq<Binding>, binding: Binding) {
    exists i :: 0 <= i < |bindings| && Clash(bindings[i], binding)
  }

  lemma {:induction false} FirstClashFinds(bindings: seq<Binding>, binding: Binding)
    ensures FirstClash(bindings, binding).Some? <==> ClashIn(bindings, binding)
  {
    if bindings == [] {
    } else {
      FirstClashFinds(bindings[1..], binding);
      if FirstClash(bindings, binding).Some? && !Clash(bindings[0], binding) {
        var i :| 0 <= i < |bindings[1..]| && Clash(bindings[1..][i], binding);
        assert Clash(bindings[i + 1], binding);
      }
      if ClashIn(bindings, binding) && !Clash(bindings[0], binding) {
        var i :| 0 <= i < |bindings| && Clash(bindings[i], binding);
        assert Clash(bindings[1..][i - 1], binding);
      }
    }
  }

  lemma {:induction false} FirstConflictFinds(commands: seq<Command>, settings: Settings, c: Command, binding: Binding,
                                              keymap: Keymap)
    ensures FirstConflict(commands, settings, c, binding, keymap).Some? <==>
      exists other :: other in commands && other != c && ClashIn(BindingsOf(settings, other, keymap), binding)
  {
    if commands == [] {
    } else {
      FirstClashFinds(BindingsOf(settings, commands[0], keymap), binding);
      FirstConflictFinds(commands[1..], settings, c, binding, keymap);
      assert forall other :: other in commands <==> other == commands[0] || other in commands[1..];
    }
  }

  /** `findShortcutConflict`: an answer exactly when another command's binding clashes. */
  function FindConflict(settings: Settings, c: Command, binding: Binding, keymap: Keymap): Option<Conflict> {
    var normal := keymap.normal(binding);
    if normal.None? then None else FirstConflict(COMMANDS, settings, c, normal.value, keymap)
  }

  lemma FindConflictFinds(settings: Settings, c: Command, binding: Binding, keymap: Keymap)
    ensures FindConflict(settings, c, binding, keymap).Some? <==>
      keymap.normal(binding).Some? && Conflicts(settings, c, keymap.normal(binding).value, keymap)
  {
    var normal := keymap.normal(binding);
    if normal.Some? {
      FirstConflictFinds(COMMANDS, settings, c, normal.value, keymap);
      if Conflicts(settings, c, normal.value, keymap) {
        var other: Command :| other != c && ClashIn(BindingsOf(settings, other, keymap), normal.value);
        AllCommands(other);
      }
    }
  }

  /** The loops of `findShortcutConflict`. */
  method SearchConflict(settings: Settings, c: Command, binding: Binding, keymap: Keymap)
    returns (found: Option<Conflict>)
    ensures found == FindConflict(settings, c, binding, keymap)
  {
    var normal := keymap.normal(binding);
    if normal.None? {
      return None;
    }
    for i := 0 to |COMMANDS|
      invariant FirstConflict(COMMANDS, settings, c, normal.value, keymap)
             == FirstConflict(COMMANDS[i..], settings, c, normal.value, keymap)
    {
      if COMMANDS[i] == c {
        continue;
      }
      var bindings := BindingsOf(settings, COMMANDS[i], keymap);
      for j := 0 to |bindings|
        invariant FirstClash(bindings, normal.value) == FirstClash(bindings[j..], normal.value)
      {
        if Signature(bindings[j]) != Signature(normal.value) {
          continue;
        }
        if !Overlap(bindings[j].platform, normal.value.platform) {
          continue;
        }
        return Some(Conflict(COMMANDS[i], bindings[j]));
      }
    }
    found := None;
  }

  datatype Validation = Valid(binding: Binding) | Empty | Reserved | NeedsModifier | Taken(conflict: Conflict)

  predicate IsModifier(key: string) {
    key in MODIFIERS
  }

  function CountModifiers(keys: seq<string>): nat {
    if keys == [] then 0 else CountModifiers(keys[..|keys| - 1]) + if IsModifier(keys[|keys| - 1]) then 1 else 0
  }

  /** `reservedBrowserShortcutReason` of normal keys: one of five letters with Meta or Ctrl alone. */
  predicate IsReserved(keys: seq<string>) {
    && |keys| >= 2 && keys[|keys| - 1] in ["L", "R", "W", "T", "N"]
    && CountModifiers(keys[..|keys| - 1]) == 1 && ("Meta" in keys || "Ctrl" in keys)
  }

  predicate IsFunctionKey(key: string) {
    key != "" && key[0] == 'F' && IsFunctionNumber(key[1..])
  }

  /** A double shift, or a key with a modifier, or a function key; and nothing the browser keeps for itself. */
  predicate IsAllowed(keys: seq<string>) {
    && !IsReserved(keys)
    && (keys == DOUBLE_SHIFT
        || ((exists k :: k in keys && !IsModifier(k))
            && ((exists k :: k in keys && IsModifier(k)) || (keys != [] && IsFunctionKey(keys[0])))))
  }

  /** `validateShortcutBinding` with settings and a command. */
  function Validate(binding: Binding, settings: Settings, c: Command, keymap: Keymap): Validation {
    var normal := keymap.normal(binding);
    if normal.None? then Empty
    else
      var keys := normal.value.keys;
      var doubleShift := keys == DOUBLE_SHIFT;
      if IsReserved(keys) then Reserved
      else if !doubleShift && !(exists k :: k in keys && !IsModifier(k)) then NeedsModifier
      else if !doubleShift && !(exists k :: k in keys && IsModifier(k)) && (keys == [] || !IsFunctionKey(keys[0])) then
        NeedsModifier
      else
        var conflict := FindConflict(settings, c, normal.value, keymap);
        if conflict.Some? then Taken(conflict.value) else Valid(normal.value)
  }

  function Without(bindings: seq<Binding>, platform: Platform): seq<Binding> {
    if bindings == [] then []
    else
      var last := bindings[|bindings| - 1];
      Without(bindings[..|bindings| - 1], platform) + if Overlap(last.platform, platform) then [] else [last]
  }

  function Matching(bindings: seq<Binding>, platform: Platform): seq<Binding> {
    if bindings == [] then []
    else
      var last := bindings[|bindings| - 1];
      Matching(bindings[..|bindings| - 1], platform) + if Overlap(last.platform, platform) then [last] else []
  }

  /** Normalised settings in which one command's bindings are replaced. */
  function Replaced(settings: Settings, c: Command, bindings: seq<Binding>, keymap: Keymap): Settings {
    map d | d in COMMANDS :: if d == c then bindings else BindingsOf(settings, d, keymap)
  }

  /** The bindings of a command once `normal` is stored for a platform, if it is a binding at all. */
  function Stored(own: seq<Binding>, normal: Option<Binding>, platform: Platform): seq<Binding> {
    if normal.None? then own else Without(own, platform) + [normal.value]
  }

  /** `setShortcutBinding`, `platform` being where the binding is to be stored. */
  function Set(settings: Settings, c: Command, binding: Binding, platform: Platform, keymap: Keymap): Settings {
    var normal := keymap.normal(binding.(platform := platform));
    Replaced(settings, c, Stored(BindingsOf(settings, c, keymap), normal, platform), keymap)
  }

  /** `clearShortcutBinding`. */
  function Clear(settings: Settings, c: Command, platform: Platform, keymap: Keymap): Settings {
    Replaced(settings, c, Without(BindingsOf(settings, c, keymap), platform), keymap)
  }

  /** `resetShortcutBinding`. */
  function Reset(settings: Settings, c: Command, platform: Platform, keymap: Keymap): Settings {
    Replaced(settings, c, Without(BindingsOf(settings, c, keymap), platform) + Matching(keymap.defaults(c), platform),
             keymap)
  }

  function FirstOn(bindings: seq<Binding>, platform: Platform): Option<Binding> {
    if bindings == [] then None
    else if bindings[0].platform == platform then Some(bindings[0])
    else FirstOn(bindings[1..], platform)
  }

  function FirstFor(bindings: seq<Binding>, platform: Platform): Option<Binding> {
    if bindings == [] then None
    else if Overlap(bindings[0].platform, platform) then Some(bindings[0])
    else FirstFor(bindings[1..], platform)
  }

  function ResolveIn(bindings: seq<Binding>, platform: Platform): Option<Binding> {
    if FirstOn(bindings, platform).Some? then FirstOn(bindings, platform) else FirstFor(bindings, platform)
  }

  /** `resolveShortcutBinding`. */
  function Resolve(settings: Settings, c: Command, platform: Platform, keymap: Keymap): Option<Binding> {
    ResolveIn(BindingsOf(settings, c, keymap), platform)
  }
}
