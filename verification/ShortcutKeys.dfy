/** Keyboard shortcut bindings in canonical form (`normalizeShortcutBinding` and what it uses). */
module ShortcutKeys {
  import opened Basics

  datatype Platform = All | Mac | Other

  datatype Binding = Binding(keys: seq<string>, platform: Platform)

  const MODIFIERS: seq<string> := ["Meta", "Ctrl", "Alt", "Shift"]
  const DOUBLE_SHIFT: seq<string> := ["Shift", "Shift"]

  /** The modifiers among the keys, in the order of `modifiers`. */
  function Present(modifiers: seq<string>, keys: seq<string>): seq<string> {
    if modifiers == [] then []
    else
      var last := modifiers[|modifiers| - 1];
      Present(modifiers[..|modifiers| - 1], keys) + if last in keys then [last] else []
  }

  /** The other keys, each where it occurs first. */
  function Others(modifiers: seq<string>, keys: seq<string>): seq<string> {
    if keys == [] then []
    else
      var before, last := Others(modifiers, keys[..|keys| - 1]), keys[|keys| - 1];
      before + if last !in modifiers && last !in before then [last] else []
  }

  function Ordered(modifiers: seq<string>, keys: seq<string>): seq<string> {
    Present(modifiers, keys) + Others(modifiers, keys)
  }

  lemma {:induction false} PresentKeys(modifiers: seq<string>, keys: seq<string>)
    requires Distinct(modifiers)
    ensures forall key :: key in Present(modifiers, keys) <==> key in modifiers && key in keys
    ensures Distinct(Present(modifiers, keys))
  {
    if modifiers == [] {
    } else {
      var shorter, last := modifiers[..|modifiers| - 1], modifiers[|modifiers| - 1];
      PresentKeys(shorter, keys);
      assert modifiers == shorter + [last];
      assert last !in shorter;
    }
  }

  lemma {:induction false} OtherKeys(modifiers: seq<string>, keys: seq<string>)
    ensures forall key :: key in Others(modifiers, keys) <==> key in keys && key !in modifiers
    ensures Distinct(Others(modifiers, keys))
  {
    if keys == [] {
    } else {
      OtherKeys(modifiers, keys[..|keys| - 1]);
      assert keys == keys[..|keys| - 1] + [keys[|keys| - 1]];
    }
  }

  lemma {:induction false} PresentSame(modifiers: seq<string>, keys: seq<string>, same: seq<string>)
    requires forall key :: key in modifiers ==> (key in keys <==> key in same)
    ensures Present(modifiers, keys) == Present(modifiers, same)
  {
    if modifiers == [] {
    } else {
      PresentSame(modifiers[..|modifiers| - 1], keys, same);
    }
  }

  lemma {:induction false} OthersOfOrdered(modifiers: seq<string>, front: seq<string>, keys: seq<string>)
    requires forall i :: 0 <= i < |front| ==> front[i] in modifiers
    requires forall i :: 0 <= i < |keys| ==> keys[i] !in modifiers
    requires Distinct(keys)
    ensures Others(modifiers, front + keys) == keys
  {
    if keys == [] {
      assert front + keys == front;
      OthersOfModifiers(modifiers, front);
    } else {
      var shorter, last := keys[..|keys| - 1], keys[|keys| - 1];
      OthersOfOrdered(modifiers, front, shorter);
      assert keys == shorter + [last] && front + keys == front + shorter + [last];
      OthersNext(modifiers, front + shorter, last);
      assert last !in shorter;
    }
  }

  lemma OthersNext(modifiers: seq<string>, keys: seq<string>, last: string)
    ensures Others(modifiers, keys + [last])
         == Others(modifiers, keys) + if last in modifiers || last in Others(modifiers, keys) then [] else [last]
  {
    assert (keys + [last])[..|keys|] == keys;
  }

  lemma {:induction false} OthersOfModifiers(modifiers: seq<string>, front: seq<string>)
    requires forall i :: 0 <= i < |front| ==> front[i] in modifiers
    ensures Others(modifiers, front) == []
  {
    if front == [] {
    } else {
      OthersOfModifiers(modifiers, front[..|front| - 1]);
    }
  }

  /** Ordering keeps the keys, drops repetitions, and does nothing the second time. */
  lemma OrderedKeysProperties(modifiers: seq<string>, keys: seq<string>)
    requires Distinct(modifiers)
    ensures Distinct(Ordered(modifiers, keys))
    ensures forall key :: key in Ordered(modifiers, keys) <==> key in keys
    ensures Ordered(modifiers, Ordered(modifiers, keys)) == Ordered(modifiers, keys)
  {
    PresentKeys(modifiers, keys);
    OtherKeys(modifiers, keys);
    PresentSame(modifiers, keys, Ordered(modifiers, keys));
    OthersOfOrdered(modifiers, Present(modifiers, keys), Others(modifiers, keys));
  }

  /** `orderedKeys`. */
  method OrderKeys(modifiers: seq<string>, keys: seq<string>) returns (out: seq<string>)
    requires Distinct(modifiers)
    ensures out == Ordered(modifiers, keys)
  {
    out := [];
    for i := 0 to |modifiers|
      invariant out == Present(modifiers[..i], keys)
    {
      assert modifiers[..i + 1][..i] == modifiers[..i];
      if modifiers[i] in keys {
        out := out + [modifiers[i]];
      }
    }
    assert modifiers[..|modifiers|] == modifiers;
    PresentKeys(modifiers, keys);
    ghost var front := out;
    for i := 0 to |keys|
      invariant out == front + Others(modifiers, keys[..i])
    {
      assert keys[..i + 1][..i] == keys[..i];
      if keys[i] !in modifiers && keys[i] !in out {
        out := out + [keys[i]];
      }
    }
    assert keys[..|keys|] == keys;
  }

  /** Canonical names of the keys that have one. */
  function Named(keys: seq<string>, name: string -> string): seq<string> {
    if keys == [] then []
    else
      var last := name(keys[|keys| - 1]);
      Named(keys[..|keys| - 1], name) + if last == "" then [] else [last]
  }

  /** `normalizeShortcutBinding` for a given naming of keys. `Others([], keys)` are the keys without repetitions. */
  function Normalize(binding: Binding, name: string -> string): Option<Binding> {
    var keys := Named(binding.keys, name);
    if keys == [] then None
    else if keys == DOUBLE_SHIFT then Some(Binding(keys, binding.platform))
    else Some(Binding(Ordered(MODIFIERS, Others([], keys)), binding.platform))
  }

  /** A binding that normalisation leaves as it is. */
  ghost predicate IsNormal(binding: Binding, name: string -> string) {
    Normalize(binding, name) == Some(binding)
  }

  /** Naming a key twice is naming it once. */
  ghost predicate NamesOnce(name: string -> string) {
    forall key: string :: name(name(key)) == name(key)
  }

  lemma {:induction false} NamedKeys(keys: seq<string>, name: string -> string)
    requires NamesOnce(name)
    ensures forall i :: 0 <= i < |Named(keys, name)| ==>
              Named(keys, name)[i] != "" && name(Named(keys, name)[i]) == Named(keys, name)[i]
  {
    if keys == [] {
    } else {
      NamedKeys(keys[..|keys| - 1], name);
    }
  }

  lemma {:induction false} NamedAgain(keys: seq<string>, name: string -> string)
    requires forall i :: 0 <= i < |keys| ==> keys[i] != "" && name(keys[i]) == keys[i]
    ensures Named(keys, name) == keys
  {
    if keys == [] {
    } else {
      var shorter, last := keys[..|keys| - 1], keys[|keys| - 1];
      NamedAgain(shorter, name);
      assert name(last) == last && keys == shorter + [last];
    }
  }

  lemma ModifiersAreDistinct()
    ensures Distinct(MODIFIERS)
  {
    assert MODIFIERS[0][0] == 'M' && MODIFIERS[1][0] == 'C' && MODIFIERS[2][0] == 'A' && MODIFIERS[3][0] == 'S';
  }

  lemma OrderedAgain(keys: seq<string>)
    ensures
      var out := Ordered(MODIFIERS, Others([], keys));
      && Distinct(out) && (forall key :: key in out <==> key in keys)
      && Others([], out) == out && Ordered(MODIFIERS, out) == out
  {
    var out := Ordered(MODIFIERS, Others([], keys));
    ModifiersAreDistinct();
    OtherKeys([], keys);
    OrderedKeysProperties(MODIFIERS, Others([], keys));
    OthersOfOrdered([], [], out);
    assert [] + out == out;
  }

  /** Keys without repetitions are not those of a double shift, which names one key twice. */
  lemma DistinctIsNotDouble(keys: seq<string>)
    requires Distinct(keys)
    ensures keys != DOUBLE_SHIFT
  {
    assert DOUBLE_SHIFT[0] == DOUBLE_SHIFT[1];
  }

  lemma OrderedIsNamed(keys: seq<string>, out: seq<string>, name: string -> string)
    requires keys != [] && forall i :: 0 <= i < |keys| ==> keys[i] != "" && name(keys[i]) == keys[i]
    requires forall key :: key in out <==> key in keys
    ensures out != [] && Named(out, name) == out
  {
    forall i | 0 <= i < |out|
      ensures out[i] != "" && name(out[i]) == out[i]
    {
      assert out[i] in keys;
    }
    NamedAgain(out, name);
    assert keys[0] in out;
  }

  /** Normalising is idempotent. */
  lemma NormalizeOnce(binding: Binding, name: string -> string)
    requires NamesOnce(name)
    ensures
      var normal := Normalize(binding, name);
      normal.Some? ==>
        normal.value.platform == binding.platform && normal.value.keys != [] && IsNormal(normal.value, name)
  {
    var keys := Named(binding.keys, name);
    NamedKeys(binding.keys, name);
    if keys == DOUBLE_SHIFT {
      NamedAgain(keys, name);
    } else if keys != [] {
      var out := Ordered(MODIFIERS, Others([], keys));
      OrderedAgain(keys);
      OrderedIsNamed(keys, out, name);
      DistinctIsNotDouble(out);
    }
  }
}
