/** No key press ever means two commands: conflict-freedom of shortcut settings over runs of edits. */
module ShortcutSafety {
  import opened Basics
  import opened ShortcutKeys
  import opened Shortcuts

  ghost predicate Apart(left: seq<Binding>, right: seq<Binding>) {
    forall i, j :: 0 <= i < |left| && 0 <= j < |right| ==> !Clash(left[i], right[j])
  }

  /** No two commands have bindings with the same signature on a common platform. */
  ghost predicate ConflictFree(settings: Settings, keymap: Keymap) {
    forall c: Command, d: Command :: c != d ==> Apart(BindingsOf(settings, c, keymap), BindingsOf(settings, d, keymap))
  }

  lemma ReplacedBindings(settings: Settings, c: Command, bindings: seq<Binding>, keymap: Keymap, d: Command)
    requires Proper(keymap) && AllNormal(bindings, keymap.normal)
    ensures BindingsOf(Replaced(settings, c, bindings, keymap), d, keymap)
         == if d == c then bindings else BindingsOf(settings, d, keymap)
  {
    AllCommands(d);
    BindingsAreNormal(settings, d, keymap);
    NormalizeAllAgain(bindings, keymap.normal);
    NormalizeAllAgain(BindingsOf(settings, d, keymap), keymap.normal);
  }

  /** What the settings hold for a command does not conflict. */
  lemma OwnDoNotConflict(settings: Settings, c: Command, keymap: Keymap, binding: Binding)
    requires ConflictFree(settings, keymap) && binding in BindingsOf(settings, c, keymap)
    ensures !Conflicts(settings, c, binding, keymap)
  {
    forall d: Command | d != c
      ensures !ClashIn(BindingsOf(settings, d, keymap), binding)
    {
      assert Apart(BindingsOf(settings, d, keymap), BindingsOf(settings, c, keymap));
    }
  }

  ghost predicate NoneConflicts(settings: Settings, c: Command, bindings: seq<Binding>, keymap: Keymap) {
    forall b :: b in bindings ==> !Conflicts(settings, c, b, keymap)
  }

  /** Replacing one command's bindings keeps the settings free of conflicts exactly when no new binding conflicts. */
  lemma ReplacedConflictFree(settings: Settings, c: Command, bindings: seq<Binding>, keymap: Keymap)
    requires Proper(keymap) && AllNormal(bindings, keymap.normal) && ConflictFree(settings, keymap)
    ensures ConflictFree(Replaced(settings, c, bindings, keymap), keymap)
       <==> NoneConflicts(settings, c, bindings, keymap)
  {
    var after := Replaced(settings, c, bindings, keymap);
    forall d: Command
      ensures BindingsOf(after, d, keymap) == if d == c then bindings else BindingsOf(settings, d, keymap)
    {
      ReplacedBindings(settings, c, bindings, keymap, d);
    }
    if ConflictFree(after, keymap) {
      forall b | b in bindings
        ensures !Conflicts(settings, c, b, keymap)
      {
        OwnDoNotConflict(after, c, keymap, b);
        forall d: Command | d != c
          ensures !ClashIn(BindingsOf(settings, d, keymap), b)
        {
          assert !ClashIn(BindingsOf(after, d, keymap), b);
        }
      }
    }
    if NoneConflicts(settings, c, bindings, keymap) {
      forall d: Command, e: Command | d != e
        ensures Apart(BindingsOf(after, d, keymap), BindingsOf(after, e, keymap))
      {
        assert Apart(BindingsOf(settings, d, keymap), BindingsOf(settings, e, keymap));
        if d == c || e == c {
          NoClash(settings, c, bindings, keymap, if d == c then e else d);
        }
      }
    }
  }

  lemma NoClash(settings: Settings, c: Command, bindings: seq<Binding>, keymap: Keymap, d: Command)
    requires d != c && NoneConflicts(settings, c, bindings, keymap)
    ensures Apart(bindings, BindingsOf(settings, d, keymap)) && Apart(BindingsOf(settings, d, keymap), bindings)
  {
    var others := BindingsOf(settings, d, keymap);
    forall i, j | 0 <= i < |bindings| && 0 <= j < |others|
      ensures !Clash(others[j], bindings[i]) && !Clash(bindings[i], others[j])
    {
      assert bindings[i] in bindings;
      assert !ClashIn(others, bindings[i]);
    }
  }

  lemma {:induction false} WithoutKeeps(bindings: seq<Binding>, platform: Platform)
    ensures forall i :: 0 <= i < |Without(bindings, platform)| ==>
      Without(bindings, platform)[i] in bindings && !Overlap(Without(bindings, platform)[i].platform, platform)
  {
    if bindings == [] {
    } else {
      WithoutKeeps(bindings[..|bindings| - 1], platform);
    }
  }

  lemma {:induction false} MatchingKeeps(bindings: seq<Binding>, platform: Platform)
    ensures forall b :: b in Matching(bindings, platform) <==> b in bindings && Overlap(b.platform, platform)
  {
    if bindings == [] {
    } else {
      MatchingKeeps(bindings[..|bindings| - 1], platform);
      assert bindings == bindings[..|bindings| - 1] + [bindings[|bindings| - 1]];
    }
  }

  lemma WithoutIsNormal(settings: Settings, c: Command, platform: Platform, keymap: Keymap)
    requires Proper(keymap)
    ensures AllNormal(Without(BindingsOf(settings, c, keymap), platform), keymap.normal)
  {
    BindingsAreNormal(settings, c, keymap);
    WithoutKeeps(BindingsOf(settings, c, keymap), platform);
  }

  lemma StoredNormal(settings: Settings, c: Command, binding: Binding, platform: Platform, keymap: Keymap)
    requires Proper(keymap)
    ensures
      var normal := keymap.normal(binding.(platform := platform));
      && (normal.Some? ==> normal.value.platform == platform)
      && AllNormal(Stored(BindingsOf(settings, c, keymap), normal, platform), keymap.normal)
  {
    var b := binding.(platform := platform);
    var normal := keymap.normal(b);
    BindingsAreNormal(settings, c, keymap);
    if normal.Some? {
      WithoutIsNormal(settings, c, platform, keymap);
      assert b.(platform := platform) == b;
      assert keymap.normal(b.(platform := platform)) == Some(normal.value.(platform := platform));
    }
  }

  /** What `Set` stores, and that it changes no other command. */
  lemma SetBindings(settings: Settings, c: Command, binding: Binding, platform: Platform, keymap: Keymap, d: Command)
    requires Proper(keymap)
    ensures BindingsOf(Set(settings, c, binding, platform, keymap), d, keymap)
         == if d == c
            then Stored(BindingsOf(settings, c, keymap), keymap.normal(binding.(platform := platform)), platform)
            else BindingsOf(settings, d, keymap)
  {
    var bindings := Stored(BindingsOf(settings, c, keymap), keymap.normal(binding.(platform := platform)), platform);
    StoredNormal(settings, c, binding, platform, keymap);
    ReplacedBindings(settings, c, bindings, keymap, d);
  }

  lemma StoredConflicts(settings: Settings, c: Command, normal: Option<Binding>, platform: Platform, keymap: Keymap)
    requires ConflictFree(settings, keymap)
    ensures
      NoneConflicts(settings, c, Stored(BindingsOf(settings, c, keymap), normal, platform), keymap)
      <==> (normal.Some? ==> !Conflicts(settings, c, normal.value, keymap))
  {
    var own := BindingsOf(settings, c, keymap);
    var bindings := Stored(own, normal, platform);
    WithoutKeeps(own, platform);
    forall b | b in own
      ensures !Conflicts(settings, c, b, keymap)
    {
      OwnDoNotConflict(settings, c, keymap, b);
    }
    if normal.Some? {
      assert bindings[|bindings| - 1] == normal.value;
    }
  }

  /** Storing a binding keeps the settings free of conflicts exactly when it has none where it is stored. */
  lemma SetConflictFree(settings: Settings, c: Command, binding: Binding, platform: Platform, keymap: Keymap)
    requires Proper(keymap) && ConflictFree(settings, keymap)
    ensures ConflictFree(Set(settings, c, binding, platform, keymap), keymap)
       <==> FindConflict(settings, c, binding.(platform := platform), keymap).None?
  {
    var normal := keymap.normal(binding.(platform := platform));
    StoredNormal(settings, c, binding, platform, keymap);
    StoredConflicts(settings, c, normal, platform, keymap);
    ReplacedConflictFree(settings, c, Stored(BindingsOf(settings, c, keymap), normal, platform), keymap);
    FindConflictFinds(settings, c, binding.(platform := platform), keymap);
  }

  lemma KeptDoNotConflict(settings: Settings, c: Command, platform: Platform, keymap: Keymap)
    requires ConflictFree(settings, keymap)
    ensures NoneConflicts(settings, c, Without(BindingsOf(settings, c, keymap), platform), keymap)
  {
    var kept := Without(BindingsOf(settings, c, keymap), platform);
    WithoutKeeps(BindingsOf(settings, c, keymap), platform);
    forall b | b in kept
      ensures !Conflicts(settings, c, b, keymap)
    {
      OwnDoNotConflict(settings, c, keymap, b);
    }
  }

  /** Clearing keeps the settings free of conflicts. */
  lemma ClearConflictFree(settings: Settings, c: Command, platform: Platform, keymap: Keymap)
    requires Proper(keymap) && ConflictFree(settings, keymap)
    ensures ConflictFree(Clear(settings, c, platform, keymap), keymap)
  {
    var kept := Without(BindingsOf(settings, c, keymap), platform);
    WithoutIsNormal(settings, c, platform, keymap);
    KeptDoNotConflict(settings, c, platform, keymap);
    ReplacedConflictFree(settings, c, kept, keymap);
  }

  lemma ResetNormal(settings: Settings, c: Command, platform: Platform, keymap: Keymap)
    requires Proper(keymap)
    ensures AllNormal(Without(BindingsOf(settings, c, keymap), platform) + Matching(keymap.defaults(c), platform),
                      keymap.normal)
  {
    var back := Matching(keymap.defaults(c), platform);
    WithoutIsNormal(settings, c, platform, keymap);
    MatchingKeeps(keymap.defaults(c), platform);
    forall i | 0 <= i < |back|
      ensures keymap.normal(back[i]) == Some(back[i])
    {
      assert back[i] in back;
    }
  }

  lemma ConflictsAreFound(settings: Settings, c: Command, bindings: seq<Binding>, keymap: Keymap)
    requires AllNormal(bindings, keymap.normal)
    ensures NoneConflicts(settings, c, bindings, keymap)
       <==> forall b :: b in bindings ==> FindConflict(settings, c, b, keymap).None?
  {
    forall b | b in bindings
      ensures FindConflict(settings, c, b, keymap).None? <==> !Conflicts(settings, c, b, keymap)
    {
      FindConflictFinds(settings, c, b, keymap);
    }
  }

  lemma OnlyBackConflicts(settings: Settings, c: Command, kept: seq<Binding>, back: seq<Binding>, keymap: Keymap)
    requires NoneConflicts(settings, c, kept, keymap)
    ensures NoneConflicts(settings, c, kept + back, keymap) <==> NoneConflicts(settings, c, back, keymap)
  {
    assert forall b :: b in kept + back <==> b in kept || b in back;
  }

  /** Resetting is not validated: it is safe exactly when no default it brings back is taken by another command. */
  lemma ResetConflictFree(settings: Settings, c: Command, platform: Platform, keymap: Keymap)
    requires Proper(keymap) && ConflictFree(settings, keymap)
    ensures ConflictFree(Reset(settings, c, platform, keymap), keymap)
       <==> forall b :: b in Matching(keymap.defaults(c), platform) ==> FindConflict(settings, c, b, keymap).None?
  {
    var kept, back := Without(BindingsOf(settings, c, keymap), platform), Matching(keymap.defaults(c), platform);
    var bindings := kept + back;
    ResetNormal(settings, c, platform, keymap);
    ReplacedConflictFree(settings, c, bindings, keymap);
    KeptDoNotConflict(settings, c, platform, keymap);
    OnlyBackConflicts(settings, c, kept, back, keymap);
    BackIsNormal(bindings, kept, back, keymap);
    ConflictsAreFound(settings, c, back, keymap);
  }

  lemma BackIsNormal(bindings: seq<Binding>, kept: seq<Binding>, back: seq<Binding>, keymap: Keymap)
    requires bindings == kept + back && AllNormal(bindings, keymap.normal)
    ensures AllNormal(back, keymap.normal)
  {
    forall i | 0 <= i < |back|
      ensures keymap.normal(back[i]) == Some(back[i])
    {
      assert bindings[|kept| + i] == back[i];
    }
  }

  /** Every platform that `narrow` covers, `wide` covers too. */
  predicate Within(narrow: Platform, wide: Platform) {
    wide.All? || narrow == wide
  }

  lemma ValidatedIsFree(settings: Settings, c: Command, binding: Binding, keymap: Keymap)
    requires Validate(binding, settings, c, keymap).Valid?
    ensures keymap.normal(binding).Some? && FindConflict(settings, c, keymap.normal(binding).value, keymap).None?
  {
  }

  /** A binding found free can be stored for the platform it was looked up for, or a narrower one. */
  lemma ValidatedSetConflictFree(settings: Settings, c: Command, binding: Binding, platform: Platform, keymap: Keymap)
    requires Proper(keymap) && ConflictFree(settings, keymap)
    requires keymap.normal(binding).Some? && FindConflict(settings, c, keymap.normal(binding).value, keymap).None?
    requires Within(platform, binding.platform)
    ensures ConflictFree(Set(settings, c, binding, platform, keymap), keymap)
  {
    var normal := keymap.normal(binding).value;
    var stored := binding.(platform := platform);
    assert keymap.normal(stored) == Some(normal.(platform := platform));
    assert binding.(platform := binding.platform) == binding;
    assert normal.(platform := binding.platform) == normal;
    FindConflictFinds(settings, c, normal, keymap);
    FindConflictFinds(settings, c, stored, keymap);
    NarrowerConflicts(settings, c, normal, platform, keymap);
    SetConflictFree(settings, c, binding, platform, keymap);
  }

  lemma NarrowerConflicts(settings: Settings, c: Command, binding: Binding, platform: Platform, keymap: Keymap)
    requires Within(platform, binding.platform)
    ensures Conflicts(settings, c, binding.(platform := platform), keymap) ==> Conflicts(settings, c, binding, keymap)
  {
    if Conflicts(settings, c, binding.(platform := platform), keymap) {
      var d: Command :| d != c && ClashIn(BindingsOf(settings, d, keymap), binding.(platform := platform));
      var bindings := BindingsOf(settings, d, keymap);
      var i :| 0 <= i < |bindings| && Clash(bindings[i], binding.(platform := platform));
      assert Clash(bindings[i], binding);
      assert ClashIn(bindings, binding);
    }
  }

  datatype Edit = ClearEdit(c: Command, platform: Platform) | SetEdit(c: Command, binding: Binding, platform: Platform)

  function Apply(settings: Settings, edit: Edit, keymap: Keymap): Settings {
    match edit
    case ClearEdit(c, platform) => Clear(settings, c, platform, keymap)
    case SetEdit(c, binding, platform) => Set(settings, c, binding, platform, keymap)
  }

  function Run(settings: Settings, edits: seq<Edit>, keymap: Keymap): Settings {
    if edits == [] then settings
    else Apply(Run(settings, edits[..|edits| - 1], keymap), edits[|edits| - 1], keymap)
  }

  /** A binding that is set was validated just before, for at least the platform it is stored under. */
  ghost predicate IsValidated(settings: Settings, edit: Edit, keymap: Keymap) {
    edit.SetEdit? ==>
      Validate(edit.binding, settings, edit.c, keymap).Valid? && Within(edit.platform, edit.binding.platform)
  }

  ghost predicate AllValidated(settings: Settings, edits: seq<Edit>, keymap: Keymap) {
    edits != [] ==>
      && AllValidated(settings, edits[..|edits| - 1], keymap)
      && IsValidated(Run(settings, edits[..|edits| - 1], keymap), edits[|edits| - 1], keymap)
  }

  /** Any run of clears and validated sets keeps conflict-free settings conflict-free. */
  lemma {:induction false} RunsStayConflictFree(settings: Settings, edits: seq<Edit>, keymap: Keymap)
    requires Proper(keymap) && ConflictFree(settings, keymap) && AllValidated(settings, edits, keymap)
    ensures ConflictFree(Run(settings, edits, keymap), keymap)
  {
    if edits == [] {
    } else {
      var before, edit := Run(settings, edits[..|edits| - 1], keymap), edits[|edits| - 1];
      RunsStayConflictFree(settings, edits[..|edits| - 1], keymap);
      match edit {
        case ClearEdit(c, platform) => ClearConflictFree(before, c, platform, keymap);
        case SetEdit(c, binding, platform) =>
          ValidatedIsFree(before, c, binding, keymap);
          ValidatedSetConflictFree(before, c, binding, platform, keymap);
      }
    }
  }

  /** No command has a binding that validation would refuse for its keys. */
  ghost predicate AllAllowed(settings: Settings, keymap: Keymap, allowed: seq<string> -> bool) {
    forall c: Command :: BindingsAllowed(BindingsOf(settings, c, keymap), allowed)
  }

  ghost predicate BindingsAllowed(bindings: seq<Binding>, allowed: seq<string> -> bool) {
    forall i :: 0 <= i < |bindings| ==> allowed(bindings[i].keys)
  }

  lemma ValidatedIsAllowed(settings: Settings, c: Command, binding: Binding, keymap: Keymap)
    requires Validate(binding, settings, c, keymap).Valid?
    ensures keymap.normal(binding).Some? && IsAllowed(keymap.normal(binding).value.keys)
  {
  }

  lemma ReplacedAllowed(settings: Settings, c: Command, bindings: seq<Binding>, keymap: Keymap,
                        allowed: seq<string> -> bool)
    requires Proper(keymap) && AllNormal(bindings, keymap.normal)
    requires AllAllowed(settings, keymap, allowed) && BindingsAllowed(bindings, allowed)
    ensures AllAllowed(Replaced(settings, c, bindings, keymap), keymap, allowed)
  {
    forall d: Command
      ensures BindingsAllowed(BindingsOf(Replaced(settings, c, bindings, keymap), d, keymap), allowed)
    {
      ReplacedBindings(settings, c, bindings, keymap, d);
    }
  }

  lemma WithoutAllowed(bindings: seq<Binding>, platform: Platform, allowed: seq<string> -> bool)
    requires BindingsAllowed(bindings, allowed)
    ensures BindingsAllowed(Without(bindings, platform), allowed)
  {
    WithoutKeeps(bindings, platform);
  }

  lemma SetAllowed(settings: Settings, c: Command, binding: Binding, platform: Platform, keymap: Keymap,
                   allowed: seq<string> -> bool)
    requires Proper(keymap) && AllAllowed(settings, keymap, allowed)
    requires keymap.normal(binding).Some? && allowed(keymap.normal(binding).value.keys)
    ensures AllAllowed(Set(settings, c, binding, platform, keymap), keymap, allowed)
  {
    var own, normal := BindingsOf(settings, c, keymap), keymap.normal(binding.(platform := platform));
    assert normal == Some(keymap.normal(binding).value.(platform := platform));
    StoredNormal(settings, c, binding, platform, keymap);
    WithoutAllowed(own, platform, allowed);
    ReplacedAllowed(settings, c, Stored(own, normal, platform), keymap, allowed);
  }

  lemma ClearAllowed(settings: Settings, c: Command, platform: Platform, keymap: Keymap, allowed: seq<string> -> bool)
    requires Proper(keymap) && AllAllowed(settings, keymap, allowed)
    ensures AllAllowed(Clear(settings, c, platform, keymap), keymap, allowed)
  {
    var own := BindingsOf(settings, c, keymap);
    WithoutIsNormal(settings, c, platform, keymap);
    WithoutAllowed(own, platform, allowed);
    ReplacedAllowed(settings, c, Without(own, platform), keymap, allowed);
  }

  /** Any run of clears and validated sets keeps every binding one that validation allows. */
  lemma {:induction false} RunsStayAllowed(settings: Settings, edits: seq<Edit>, keymap: Keymap)
    requires Proper(keymap) && AllAllowed(settings, keymap, IsAllowed) && AllValidated(settings, edits, keymap)
    ensures AllAllowed(Run(settings, edits, keymap), keymap, IsAllowed)
  {
    if edits == [] {
    } else {
      var before, edit := Run(settings, edits[..|edits| - 1], keymap), edits[|edits| - 1];
      RunsStayAllowed(settings, edits[..|edits| - 1], keymap);
      match edit {
        case ClearEdit(c, platform) => ClearAllowed(before, c, platform, keymap, IsAllowed);
        case SetEdit(c, binding, platform) =>
          ValidatedIsAllowed(before, c, binding, keymap);
          SetAllowed(before, c, binding, platform, keymap, IsAllowed);
      }
    }
  }

  lemma {:induction false} FirstOnFinds(bindings: seq<Binding>, platform: Platform)
    ensures
      var found := FirstOn(bindings, platform);
      if found.Some? then found.value in bindings && found.value.platform == platform
      else forall b :: b in bindings ==> b.platform != platform
  {
    if bindings == [] {
    } else {
      FirstOnFinds(bindings[1..], platform);
    }
  }

  lemma {:induction false} FirstForFinds(bindings: seq<Binding>, platform: Platform)
    ensures
      var found := FirstFor(bindings, platform);
      if found.Some? then found.value in bindings && Overlap(found.value.platform, platform)
      else forall b :: b in bindings ==> !Overlap(b.platform, platform)
  {
    if bindings == [] {
    } else {
      FirstForFinds(bindings[1..], platform);
    }
  }

  /** A binding is found exactly when there is one for the platform, and it is one of them. */
  lemma ResolveFinds(settings: Settings, c: Command, platform: Platform, keymap: Keymap)
    ensures
      var found, bindings := Resolve(settings, c, platform, keymap), BindingsOf(settings, c, keymap);
      if found.Some? then found.value in bindings && Overlap(found.value.platform, platform)
      else forall b :: b in bindings ==> !Overlap(b.platform, platform)
  {
    FirstOnFinds(BindingsOf(settings, c, keymap), platform);
    FirstForFinds(BindingsOf(settings, c, keymap), platform);
  }

  lemma ResolvedAllowed(settings: Settings, c: Command, platform: Platform, keymap: Keymap,
                        allowed: seq<string> -> bool)
    requires AllAllowed(settings, keymap, allowed)
    ensures Resolve(settings, c, platform, keymap).Some? ==> allowed(Resolve(settings, c, platform, keymap).value.keys)
  {
    ResolveFinds(settings, c, platform, keymap);
    assert BindingsAllowed(BindingsOf(settings, c, keymap), allowed);
  }

  /** On a concrete platform, two commands never resolve to the same keys. */
  lemma ResolvedKeysDiffer(settings: Settings, c: Command, d: Command, platform: Platform, keymap: Keymap)
    requires ConflictFree(settings, keymap) && !platform.All? && c != d
    requires Resolve(settings, c, platform, keymap).Some? && Resolve(settings, d, platform, keymap).Some?
    ensures Resolve(settings, c, platform, keymap).value.keys != Resolve(settings, d, platform, keymap).value.keys
  {
    var left, right := Resolve(settings, c, platform, keymap).value, Resolve(settings, d, platform, keymap).value;
    ResolveFinds(settings, c, platform, keymap);
    ResolveFinds(settings, d, platform, keymap);
    var lefts, rights := BindingsOf(settings, c, keymap), BindingsOf(settings, d, keymap);
    assert Apart(lefts, rights);
    var i :| 0 <= i < |lefts| && lefts[i] == left;
    var j :| 0 <= j < |rights| && rights[j] == right;
    assert !Clash(lefts[i], rights[j]);
  }

  lemma {:induction false} FirstOnConcat(left: seq<Binding>, right: seq<Binding>, platform: Platform)
    ensures FirstOn(left + right, platform)
         == if FirstOn(left, platform).Some? then FirstOn(left, platform) else FirstOn(right, platform)
  {
    if left == [] {
      assert left + right == right;
    } else {
      assert (left + right)[1..] == left[1..] + right;
      FirstOnConcat(left[1..], right, platform);
    }
  }

  lemma {:induction false} FirstOnWithout(bindings: seq<Binding>, removed: Platform, platform: Platform)
    requires !Overlap(platform, removed)
    ensures FirstOn(Without(bindings, removed), platform) == FirstOn(bindings, platform)
  {
    if bindings == [] {
    } else {
      var shorter, last := bindings[..|bindings| - 1], bindings[|bindings| - 1];
      FirstOnWithout(shorter, removed, platform);
      FirstOnConcat(shorter, [last], platform);
      FirstOnConcat(Without(shorter, removed), [last], platform);
      assert bindings == shorter + [last];
      assert Without(shorter, removed) + [] == Without(shorter, removed);
    }
  }

  lemma SingleIsFound(normal: Binding, platform: Platform)
    requires Within(platform, normal.platform)
    ensures ResolveIn([normal], platform) == Some(normal)
  {
    assert [normal][1..] == [];
    assert FirstFor([normal], platform) == Some(normal);
    assert FirstOn([], platform) == None;
  }

  lemma StoredIsFound(own: seq<Binding>, normal: Binding, platform: Platform)
    requires Within(platform, normal.platform)
    ensures ResolveIn(Without(own, normal.platform) + [normal], platform) == Some(normal)
  {
    var kept := Without(own, normal.platform);
    WithoutKeeps(own, normal.platform);
    if normal.platform.All? {
      assert |kept| > 0 ==> !Overlap(kept[0].platform, normal.platform);
      assert kept == [];
      assert kept + [normal] == [normal];
      SingleIsFound(normal, platform);
    } else {
      FirstOnFinds(kept, platform);
      assert FirstOn(kept, platform).None?;
      FirstOnConcat(kept, [normal], platform);
      assert FirstOn([normal], platform) == Some(normal);
    }
  }

  /** A binding that was set is found on the platform it was stored for. */
  lemma SetThenResolve(settings: Settings, c: Command, binding: Binding, stored: Platform, keymap: Keymap,
                       platform: Platform)
    requires Proper(keymap) && keymap.normal(binding.(platform := stored)).Some? && Within(platform, stored)
    ensures Resolve(Set(settings, c, binding, stored, keymap), c, platform, keymap)
         == keymap.normal(binding.(platform := stored))
  {
    StoredNormal(settings, c, binding, stored, keymap);
    SetBindings(settings, c, binding, stored, keymap, c);
    StoredIsFound(BindingsOf(settings, c, keymap), keymap.normal(binding.(platform := stored)).value, platform);
  }

  lemma StoredElsewhere(own: seq<Binding>, normal: Binding, platform: Platform)
    requires !Overlap(platform, normal.platform)
    ensures
      var before, after := ResolveIn(own, platform), ResolveIn(Without(own, normal.platform) + [normal], platform);
      if before.Some? && before.value.platform == platform then after == before else after.None?
  {
    var kept := Without(own, normal.platform);
    FirstOnFinds(own, platform);
    FirstForFinds(own, platform);
    FirstOnWithout(own, normal.platform, platform);
    FirstOnConcat(kept, [normal], platform);
    WithoutKeeps(own, normal.platform);
    if FirstOn(own, platform).None? {
      FirstOnFinds(kept, platform);
      FirstForFinds(kept + [normal], platform);
      forall b | b in kept + [normal]
        ensures !Overlap(b.platform, platform)
      {
        if b in kept { assert !Overlap(b.platform, normal.platform) && b.platform != platform; }
      }
    }
  }

  /**
   Setting a binding for one concrete platform drops a binding that was shared by all: the other platform
   keeps its binding exactly when it had one of its own.
   */
  lemma SetOnOnePlatform(settings: Settings, c: Command, binding: Binding, stored: Platform, keymap: Keymap,
                         platform: Platform)
    requires Proper(keymap) && keymap.normal(binding.(platform := stored)).Some?
    requires !Overlap(platform, stored)
    ensures
      var before, after := Resolve(settings, c, platform, keymap),
                           Resolve(Set(settings, c, binding, stored, keymap), c, platform, keymap);
      if before.Some? && before.value.platform == platform then after == before else after.None?
  {
    StoredNormal(settings, c, binding, stored, keymap);
    SetBindings(settings, c, binding, stored, keymap, c);
    StoredElsewhere(BindingsOf(settings, c, keymap), keymap.normal(binding.(platform := stored)).value, platform);
  }

  /** After clearing, the command has no binding on the cleared platform. */
  lemma ClearThenResolve(settings: Settings, c: Command, cleared: Platform, keymap: Keymap, platform: Platform)
    requires Proper(keymap) && Within(platform, cleared)
    ensures Resolve(Clear(settings, c, cleared, keymap), c, platform, keymap).None?
  {
    var own := BindingsOf(settings, c, keymap);
    WithoutIsNormal(settings, c, cleared, keymap);
    ReplacedBindings(settings, c, Without(own, cleared), keymap, c);
    WithoutKeeps(own, cleared);
    ResolveFinds(Clear(settings, c, cleared, keymap), c, platform, keymap);
  }

  /** Resetting a command whose default another command resolves to makes a conflict. */
  lemma TakenDefaultConflicts(settings: Settings, c: Command, d: Command, binding: Binding, platform: Platform,
                              keymap: Keymap)
    requires Proper(keymap) && ConflictFree(settings, keymap) && d != c
    requires Resolve(settings, d, platform, keymap) == Some(binding) && binding in keymap.defaults(c)
    ensures !ConflictFree(Reset(settings, c, platform, keymap), keymap)
  {
    var bindings := BindingsOf(settings, d, keymap);
    ResolveFinds(settings, d, platform, keymap);
    var i :| 0 <= i < |bindings| && bindings[i] == binding;
    assert Clash(bindings[i], binding);
    assert ClashIn(bindings, binding);
    assert Conflicts(settings, c, binding, keymap);
    assert keymap.normal(binding) == Some(binding);
    FindConflictFinds(settings, c, binding, keymap);
    MatchingKeeps(keymap.defaults(c), platform);
    ResetConflictFree(settings, c, platform, keymap);
  }
}
