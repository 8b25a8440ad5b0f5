/** The built-in keymap, and what key events do with it. */
module BuiltInShortcuts {
  import opened Basics
  import opened KeyEvents
  import opened ShortcutKeys
  import opened ShortcutNames
  import opened Shortcuts
  import opened ShortcutSafety
  import opened Text

  /** Keys of a command's default on Mac and elsewhere (`AGENT_SPACE_SHORTCUT_COMMANDS`). */
  function DefaultKeys(c: Command, platform: Platform): seq<string> {
    var primary := if platform.Mac? then "Meta" else "Ctrl";
    match c
    case SearchEverywhere => DOUBLE_SHIFT
    case OpenFile => [primary, "O"]
    case GoToSymbol => [primary, "Shift", "O"]
    case FindInFiles => [primary, "Shift", "F"]
    case GoToDefinition => [primary, "B"]
    case FindUsages => ["Alt", "F7"]
    case NavigationBack => if platform.Mac? then ["Meta", "["] else ["Ctrl", "Alt", "ArrowLeft"]
    case NavigationForward => if platform.Mac? then ["Meta", "]"] else ["Ctrl", "Alt", "ArrowRight"]
    case FocusFiles => ["Alt", "1"]
    case FocusPreview => ["Alt", "2"]
    case FocusTerminal => ["Alt", "3"]
  }

  predicate IsShared(c: Command) {
    c.SearchEverywhere? || c.FindUsages? || c.FocusFiles? || c.FocusPreview? || c.FocusTerminal?
  }

  function Defaults(c: Command): seq<Binding> {
    if IsShared(c) then [Binding(DefaultKeys(c, All), All)]
    else [Binding(DefaultKeys(c, Mac), Mac), Binding(DefaultKeys(c, Other), Other)]
  }

  function NormalBinding(binding: Binding): Option<Binding> {
    Normalize(binding, KeyName)
  }

  function BuiltIn(): Keymap {
    Keymap(NormalBinding, Defaults)
  }

  lemma NormalBindingNormalizes()
    ensures IsNormalizer(NormalBinding)
  {
    KeyNamesOnce();
    forall b: Binding | NormalBinding(b).Some?
      ensures NormalBinding(NormalBinding(b).value) == NormalBinding(b)
    {
      NormalizeOnce(b, KeyName);
    }
  }

  /** The letter, sign or function key of a default. */
  predicate IsBase(key: string) {
    || key == "O" || key == "F" || key == "B" || key == "F7" || key == "[" || key == "]"
    || key == "1" || key == "2" || key == "3" || key == "ArrowLeft" || key == "ArrowRight"
  }

  lemma BaseIsSettled(key: string)
    requires IsBase(key) && key != "ArrowLeft" && key != "ArrowRight"
    ensures Settled(key)
  {
    if key == "F7" {
      assert key[1..] == "7";
      FunctionKeyIsSettled(key);
    } else {
      CharacterIsSettled(key);
    }
  }

  lemma BaseIsFixed(key: string)
    requires IsBase(key)
    ensures KeyName(key) == key
  {
    if key == "ArrowLeft" || key == "ArrowRight" {
      NameIsFixed(key);
    } else {
      BaseIsSettled(key);
      SettledIsFixed(key);
    }
  }

  lemma BaseIsNoModifier(key: string)
    requires IsBase(key)
    ensures key != "" && key !in MODIFIERS
  {
    assert key[0] != 'M' && key[0] != 'C' && key[0] != 'S' && (key[0] == 'A' ==> key[1] == 'r');
    assert MODIFIERS[0][0] == 'M' && MODIFIERS[1][0] == 'C' && MODIFIERS[2][1] == 'l' && MODIFIERS[3][0] == 'S';
  }

  lemma ModifierIsFixed(key: string)
    requires key in MODIFIERS
    ensures KeyName(key) == key && key != ""
  {
    NameIsFixed(key);
  }

  lemma ChordIsNamed(modifiers: seq<string>, base: string)
    requires IsBase(base) && forall i :: 0 <= i < |modifiers| ==> modifiers[i] in MODIFIERS
    ensures Named(modifiers + [base], KeyName) == modifiers + [base]
  {
    BaseIsFixed(base);
    BaseIsNoModifier(base);
    forall i | 0 <= i < |modifiers|
      ensures modifiers[i] != "" && KeyName(modifiers[i]) == modifiers[i]
    {
      ModifierIsFixed(modifiers[i]);
    }
    FixedChordIsNamed(modifiers, base, KeyName);
  }

  lemma FixedChordIsNamed(modifiers: seq<string>, base: string, name: string -> string)
    requires base != "" && name(base) == base
    requires forall i :: 0 <= i < |modifiers| ==> modifiers[i] != "" && name(modifiers[i]) == modifiers[i]
    ensures Named(modifiers + [base], name) == modifiers + [base]
  {
    NamedAgain(modifiers, name);
    var keys := modifiers + [base];
    assert keys[..|keys| - 1] == modifiers && keys[|keys| - 1] == base;
  }

  lemma ChordIsDistinct(modifiers: seq<string>, base: string)
    requires Present(MODIFIERS, modifiers) == modifiers && base !in MODIFIERS
    ensures Distinct(modifiers + [base]) && forall i :: 0 <= i < |modifiers| ==> modifiers[i] in MODIFIERS
  {
    ModifiersAreDistinct();
    PresentKeys(MODIFIERS, modifiers);
    assert forall i :: 0 <= i < |modifiers| ==> modifiers[i] in Present(MODIFIERS, modifiers);
  }

  /** Stated for any list of modifiers. */
  lemma ChordOrders(all: seq<string>, modifiers: seq<string>, base: string)
    requires Present(all, modifiers) == modifiers && base !in all && Distinct(modifiers + [base])
    requires forall i :: 0 <= i < |modifiers| ==> modifiers[i] in all
    ensures var keys := modifiers + [base]; Ordered(all, Others([], keys)) == keys
  {
    var keys := modifiers + [base];
    OthersOfOrdered([], [], keys);
    assert [] + keys == keys;
    OthersOfOrdered(all, modifiers, [base]);
    PresentSame(all, modifiers, keys);
  }

  lemma ChordIsOrdered(modifiers: seq<string>, base: string)
    requires Present(MODIFIERS, modifiers) == modifiers && base !in MODIFIERS
    ensures var keys := modifiers + [base]; Ordered(MODIFIERS, Others([], keys)) == keys && keys != DOUBLE_SHIFT
  {
    ChordIsDistinct(modifiers, base);
    ChordOrders(MODIFIERS, modifiers, base);
    assert (modifiers + [base])[|modifiers|] == base && DOUBLE_SHIFT[1] == MODIFIERS[3];
  }

  /** Modifiers in order, then one other key: already canonical. */
  lemma ChordIsNormal(modifiers: seq<string>, base: string, platform: Platform)
    requires Present(MODIFIERS, modifiers) == modifiers && IsBase(base)
    ensures NormalBinding(Binding(modifiers + [base], platform)) == Some(Binding(modifiers + [base], platform))
  {
    ModifiersAreDistinct();
    PresentKeys(MODIFIERS, modifiers);
    assert forall i :: 0 <= i < |modifiers| ==> modifiers[i] in Present(MODIFIERS, modifiers);
    BaseIsNoModifier(base);
    ChordIsNamed(modifiers, base);
    ChordIsOrdered(modifiers, base);
  }

  /** The modifiers of a default, all its keys but the last. */
  function DefaultModifiers(c: Command, platform: Platform): seq<string> {
    var primary := if platform.Mac? then "Meta" else "Ctrl";
    match c
    case SearchEverywhere | FindUsages | FocusFiles | FocusPreview | FocusTerminal => ["Alt"]
    case OpenFile | GoToDefinition => [primary]
    case GoToSymbol | FindInFiles => [primary, "Shift"]
    case NavigationBack | NavigationForward => if platform.Mac? then ["Meta"] else ["Ctrl", "Alt"]
  }

  lemma PresentModifiers(keys: seq<string>)
    ensures Present(MODIFIERS, keys)
         == (if "Meta" in keys then ["Meta"] else []) + (if "Ctrl" in keys then ["Ctrl"] else [])
            + (if "Alt" in keys then ["Alt"] else []) + (if "Shift" in keys then ["Shift"] else [])
  {
    var three, two, one := MODIFIERS[..3], MODIFIERS[..2], MODIFIERS[..1];
    assert three[..2] == two && two[..1] == one && one[..0] == [];
    assert Present(one, keys) == if "Meta" in keys then ["Meta"] else [];
    assert Present(two, keys) == Present(one, keys) + if "Ctrl" in keys then ["Ctrl"] else [];
    assert Present(three, keys) == Present(two, keys) + if "Alt" in keys then ["Alt"] else [];
  }

  lemma ModifiersAreOrdered(c: Command, platform: Platform)
    ensures Present(MODIFIERS, DefaultModifiers(c, platform)) == DefaultModifiers(c, platform)
  {
    PresentModifiers(DefaultModifiers(c, platform));
  }

  /** Modifiers in order, then one other key. */
  ghost predicate IsChord(keys: seq<string>) {
    && keys != [] && IsBase(keys[|keys| - 1])
    && Present(MODIFIERS, keys[..|keys| - 1]) == keys[..|keys| - 1]
  }

  lemma DefaultIsChord(c: Command, platform: Platform)
    requires !c.SearchEverywhere?
    ensures IsChord(DefaultKeys(c, platform))
  {
    var keys := DefaultKeys(c, platform);
    ModifiersAreOrdered(c, platform);
    assert keys[..|keys| - 1] == DefaultModifiers(c, platform);
  }

  ghost predicate FixesChords(normal: Binding -> Option<Binding>) {
    forall keys: seq<string>, platform: Platform :: IsChord(keys) || keys == DOUBLE_SHIFT ==>
      normal(Binding(keys, platform)) == Some(Binding(keys, platform))
  }

  lemma ModifiersAreNamed(keys: seq<string>)
    requires forall i :: 0 <= i < |keys| ==> keys[i] in MODIFIERS
    ensures Named(keys, KeyName) == keys
  {
    forall i | 0 <= i < |keys|
      ensures keys[i] != "" && KeyName(keys[i]) == keys[i]
    {
      ModifierIsFixed(keys[i]);
    }
    NamedAgain(keys, KeyName);
  }

  lemma NamedDoubleShift(keys: seq<string>, platform: Platform, name: string -> string)
    requires keys == DOUBLE_SHIFT && Named(keys, name) == keys
    ensures Normalize(Binding(keys, platform), name) == Some(Binding(keys, platform))
  {
  }

  lemma FixedKeysAreNormal(keys: seq<string>, platform: Platform)
    requires IsChord(keys) || keys == DOUBLE_SHIFT
    ensures NormalBinding(Binding(keys, platform)) == Some(Binding(keys, platform))
  {
    if IsChord(keys) {
      assert keys[..|keys| - 1] + [keys[|keys| - 1]] == keys;
      ChordIsNormal(keys[..|keys| - 1], keys[|keys| - 1], platform);
    } else {
      assert MODIFIERS[3] == "Shift";
      ModifiersAreNamed(keys);
      NamedDoubleShift(keys, platform, KeyName);
    }
  }

  lemma NormalBindingFixesChords()
    ensures FixesChords(NormalBinding)
  {
    forall keys: seq<string>, platform: Platform | IsChord(keys) || keys == DOUBLE_SHIFT
      ensures NormalBinding(Binding(keys, platform)) == Some(Binding(keys, platform))
    {
      FixedKeysAreNormal(keys, platform);
    }
  }

  lemma DefaultsAreNormal(c: Command, normal: Binding -> Option<Binding>)
    requires FixesChords(normal)
    ensures AllNormal(Defaults(c), normal)
  {
    forall i | 0 <= i < |Defaults(c)|
      ensures normal(Defaults(c)[i]) == Some(Defaults(c)[i])
    {
      var keys, platform := Defaults(c)[i].keys, Defaults(c)[i].platform;
      if !c.SearchEverywhere? {
        DefaultIsChord(c, platform);
      }
      assert normal(Binding(keys, platform)) == Some(Binding(keys, platform));
    }
  }

  /** The built-in keymap normalises once and for all and its defaults are normal. */
  lemma BuiltInIsProper()
    ensures Proper(BuiltIn())
  {
    NormalBindingNormalizes();
    NormalBindingFixesChords();
    forall c: Command
      ensures AllNormal(Defaults(c), NormalBinding)
    {
      DefaultsAreNormal(c, NormalBinding);
    }
  }

  /** The command that a default belongs to, read off its keys. */
  function Owner(keys: seq<string>): Command
    requires keys != []
  {
    var base := keys[|keys| - 1];
    if base == "O" then (if |keys| == 2 then OpenFile else GoToSymbol)
    else if base == "F" then FindInFiles
    else if base == "B" then GoToDefinition
    else if base == "F7" then FindUsages
    else if base == "[" || base == "ArrowLeft" then NavigationBack
    else if base == "]" || base == "ArrowRight" then NavigationForward
    else if base == "1" then FocusFiles
    else if base == "2" then FocusPreview
    else if base == "3" then FocusTerminal
    else SearchEverywhere
  }

  lemma OwnerOfDefault(c: Command, platform: Platform)
    ensures DefaultKeys(c, platform) != [] && Owner(DefaultKeys(c, platform)) == c
  {
  }

  lemma DefaultsHaveNoPlus(c: Command, platform: Platform)
    ensures FreeOf(DefaultKeys(c, platform), '+')
  {
  }

  /**
   Two bindings share a signature if and only if cutting their keys at plus signs gives the same pieces. So
   signatures tell keys apart that contain no plus sign.
   */
  lemma SameSignature(a: Binding, b: Binding)
    requires a.keys != [] && b.keys != []
    ensures Signature(a) == Signature(b) <==> Pieces(a.keys, '+') == Pieces(b.keys, '+')
    ensures FreeOf(a.keys, '+') && FreeOf(b.keys, '+') ==> (Signature(a) == Signature(b) <==> a.keys == b.keys)
  {
    SameJoin(a.keys, b.keys, '+');
    if FreeOf(a.keys, '+') && FreeOf(b.keys, '+') {
      PiecesOfFree(a.keys, '+');
      PiecesOfFree(b.keys, '+');
    }
  }

  lemma DefaultBelongs(c: Command, i: nat)
    requires i < |Defaults(c)|
    ensures var keys := Defaults(c)[i].keys; keys != [] && Owner(keys) == c && FreeOf(keys, '+')
  {
    var platform := Defaults(c)[i].platform;
    assert Defaults(c)[i].keys == DefaultKeys(c, platform);
    OwnerOfDefault(c, platform);
    DefaultsHaveNoPlus(c, platform);
  }

  lemma DefaultsAreApart(c: Command, d: Command)
    requires c != d
    ensures Apart(Defaults(c), Defaults(d))
  {
    forall i, j | 0 <= i < |Defaults(c)| && 0 <= j < |Defaults(d)|
      ensures !Clash(Defaults(c)[i], Defaults(d)[j])
    {
      DefaultBelongs(c, i);
      DefaultBelongs(d, j);
      SameSignature(Defaults(c)[i], Defaults(d)[j]);
    }
  }

  lemma DefaultsAreConflictFree()
    ensures ConflictFree(map[], BuiltIn())
  {
    forall c: Command, d: Command | c != d
      ensures Apart(BindingsOf(map[], c, BuiltIn()), BindingsOf(map[], d, BuiltIn()))
    {
      DefaultsAreApart(c, d);
    }
  }

  /** Files unassigned, and its default given to opening files. */
  function FilesKeyTaken(): Settings {
    Set(Clear(map[], FocusFiles, All, BuiltIn()), OpenFile, Binding(DefaultKeys(FocusFiles, All), All), All, BuiltIn())
  }

  lemma FilesKeyIsFree()
    ensures ConflictFree(FilesKeyTaken(), BuiltIn())
    ensures Resolve(FilesKeyTaken(), OpenFile, All, BuiltIn()) == Some(Binding(DefaultKeys(FocusFiles, All), All))
  {
    var keymap, binding := BuiltIn(), Binding(DefaultKeys(FocusFiles, All), All);
    var cleared := Clear(map[], FocusFiles, All, keymap);
    BuiltInIsProper();
    DefaultsAreConflictFree();
    ClearConflictFree(map[], FocusFiles, All, keymap);
    DefaultIsChord(FocusFiles, All);
    FixedKeysAreNormal(binding.keys, All);
    assert binding.(platform := All) == binding && keymap.normal(binding) == Some(binding);
    forall d: Command
      ensures !ClashIn(BindingsOf(cleared, d, keymap), binding)
    {
      WithoutIsNormal(map[], FocusFiles, All, keymap);
      ReplacedBindings(map[], FocusFiles, Without(Defaults(FocusFiles), All), keymap, d);
      if d == FocusFiles {
        WithoutKeeps(Defaults(d), All);
      } else {
        DefaultsAreApart(d, FocusFiles);
        assert Defaults(FocusFiles)[0] == binding;
      }
    }
    FindConflictFinds(cleared, OpenFile, binding, keymap);
    SetConflictFree(cleared, OpenFile, binding, All, keymap);
    SetThenResolve(cleared, OpenFile, binding, All, keymap, All);
  }

  /** Resetting files in these settings brings its default back although another command has taken it. */
  lemma ResetCanConflict()
    ensures ConflictFree(FilesKeyTaken(), BuiltIn())
    ensures !ConflictFree(Reset(FilesKeyTaken(), FocusFiles, All, BuiltIn()), BuiltIn())
  {
    BuiltInIsProper();
    FilesKeyIsFree();
    assert Defaults(FocusFiles)[0] == Binding(DefaultKeys(FocusFiles, All), All);
    TakenDefaultConflicts(FilesKeyTaken(), FocusFiles, OpenFile, Binding(DefaultKeys(FocusFiles, All), All), All,
                          BuiltIn());
  }

  /** `normalizeShortcutKeyEvent`. */
  function EventBinding(event: KeyEvent): Option<Binding> {
    var base := KeyName(if IsPhysical(event.code) then event.code else event.key);
    if base == "" then None
    else
      NormalBinding(Binding(
        (if event.meta then ["Meta"] else []) + (if event.ctrl then ["Ctrl"] else [])
        + (if event.alt then ["Alt"] else [])
        + (if event.shift then ["Shift"] else []) + (if base in MODIFIERS then [] else [base]), All))
  }

  /** `shortcutEventMatchesBinding`, for the binding that the event stands for. */
  predicate Matches(pressed: Option<Binding>, binding: Option<Binding>) {
    && binding.Some? && binding.value.keys != DOUBLE_SHIFT
    && pressed.Some? && pressed.value.keys == binding.value.keys
  }

  /** What a key press means: a double shift, nothing, or the keys that are down. */
  datatype Press = DoubleShift | Ignored | Chord(pressed: Option<Binding>)

  function PressOf(event: KeyEvent, triggered: bool): Press {
    if triggered then DoubleShift else if IsPlainShift(event) then Ignored else Chord(EventBinding(event))
  }

  predicate Responds(press: Press, settings: Settings, c: Command, platform: Platform, keymap: Keymap) {
    var binding := Resolve(settings, c, platform, keymap);
    match press
    case DoubleShift => binding.Some? && binding.value.keys == DOUBLE_SHIFT
    case Ignored => false
    case Chord(pressed) => Matches(pressed, binding)
  }

  /** `commandFromShortcutEvent`: the first of the commands that responds. */
  function CommandFrom(press: Press, commands: seq<Command>, settings: Settings, platform: Platform,
                       keymap: Keymap): Option<Command>
  {
    if commands == [] then None
    else if Responds(press, settings, commands[0], platform, keymap) then Some(commands[0])
    else CommandFrom(press, commands[1..], settings, platform, keymap)
  }

  lemma AtMostOneResponds(press: Press, settings: Settings, platform: Platform, keymap: Keymap, c: Command, d: Command)
    requires ConflictFree(settings, keymap) && !platform.All?
    requires Responds(press, settings, c, platform, keymap) && Responds(press, settings, d, platform, keymap)
    ensures c == d
  {
    if c != d {
      ResolvedKeysDiffer(settings, c, d, platform, keymap);
    }
  }

  lemma {:induction false} CommandFromFinds(press: Press, commands: seq<Command>, settings: Settings,
                                            platform: Platform, keymap: Keymap, c: Command)
    requires ConflictFree(settings, keymap) && !platform.All?
    ensures CommandFrom(press, commands, settings, platform, keymap) == Some(c)
       <==> c in commands && Responds(press, settings, c, platform, keymap)
  {
    if commands == [] {
    } else {
      CommandFromFinds(press, commands[1..], settings, platform, keymap, c);
      if Responds(press, settings, commands[0], platform, keymap) && Responds(press, settings, c, platform, keymap) {
        AtMostOneResponds(press, settings, platform, keymap, commands[0], c);
      }
    }
  }

  /**
   After any run of clears and validated sets on the built-in settings, a key event or double shift on a
   concrete platform runs a command exactly when that command responds, whatever order the commands are asked in.
   */
  lemma KeyPressesAreUnambiguous(edits: seq<Edit>, event: KeyEvent, triggered: bool, commands: seq<Command>,
                                 platform: Platform, c: Command)
    requires AllValidated(map[], edits, BuiltIn()) && !platform.All?
    ensures
      var settings, press := Run(map[], edits, BuiltIn()), PressOf(event, triggered);
      CommandFrom(press, commands, settings, platform, BuiltIn()) == Some(c)
      <==> c in commands && Responds(press, settings, c, platform, BuiltIn())
  {
    BuiltInIsProper();
    DefaultsAreConflictFree();
    RunsStayConflictFree(map[], edits, BuiltIn());
    CommandFromFinds(PressOf(event, triggered), commands, Run(map[], edits, BuiltIn()), platform, BuiltIn(), c);
  }

  lemma DefaultIsAllowed(c: Command, platform: Platform)
    ensures IsAllowed(DefaultKeys(c, platform))
  {
    var keys := DefaultKeys(c, platform);
    if c.SearchEverywhere? {
      assert keys[|keys| - 1] == "Shift";
    } else {
      var base := keys[|keys| - 1];
      assert IsBase(base);
      BaseIsNoModifier(base);
      assert base in keys && keys[0] in keys;
      assert keys[0] == "Meta" || keys[0] == "Ctrl" || keys[0] == "Alt";
      assert MODIFIERS[0] == "Meta" && MODIFIERS[1] == "Ctrl" && MODIFIERS[2] == "Alt";
      BaseIsNotReserved(base);
    }
  }

  lemma BaseIsNotReserved(key: string)
    requires IsBase(key)
    ensures key !in ["L", "R", "W", "T", "N"]
  {
    assert key[0] != 'L' && key[0] != 'R' && key[0] != 'W' && key[0] != 'T' && key[0] != 'N';
  }

  lemma DefaultsAreAllowed()
    ensures AllAllowed(map[], BuiltIn(), IsAllowed)
  {
    forall c: Command
      ensures BindingsAllowed(Defaults(c), IsAllowed)
    {
      DefaultIsAllowed(c, All);
      DefaultIsAllowed(c, Mac);
      DefaultIsAllowed(c, Other);
    }
  }

  /**
   After any run of clears and validated sets on the built-in settings, a chord runs a command only if
   validation allows it: typing without modifiers runs nothing but function keys, and the browser's own
   shortcuts are never taken.
   */
  lemma OnlyAllowedChordsRun(edits: seq<Edit>, pressed: Binding, platform: Platform, c: Command)
    requires AllValidated(map[], edits, BuiltIn())
    ensures Responds(Chord(Some(pressed)), Run(map[], edits, BuiltIn()), c, platform, BuiltIn()) ==>
      IsAllowed(pressed.keys) && pressed.keys != DOUBLE_SHIFT
  {
    BuiltInIsProper();
    DefaultsAreAllowed();
    RunsStayAllowed(map[], edits, BuiltIn());
    ResolvedAllowed(Run(map[], edits, BuiltIn()), c, platform, BuiltIn(), IsAllowed);
  }
}
