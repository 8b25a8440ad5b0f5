/** Canonical names of keys (`normalizeKeyName`). */
module ShortcutNames {
  import opened Text
  import opened ShortcutKeys

  /** `f([1-9]|1[0-9]|2[0-4])`, given the part after the letter. */
  predicate IsFunctionNumber(s: string) {
    || (|s| == 1 && '1' <= s[0] <= '9')
    || (|s| == 2 && s[0] == '1' && '0' <= s[1] <= '9')
    || (|s| == 2 && s[0] == '2' && '0' <= s[1] <= '4')
  }

  /** Keys with a name of their own, by their lower-case spelling; the empty string for any other key. */
  function Spelled(lower: string): string {
    if lower == "cmd" || lower == "command" || lower == "meta" || lower == "os" then "Meta"
    else if lower == "control" || lower == "ctrl" then "Ctrl"
    else if lower == "option" || lower == "alt" then "Alt"
    else if lower == "shift" then "Shift"
    else if lower == "esc" || lower == "escape" then "Escape"
    else if lower == "space" || lower == "spacebar" then "Space"
    else if lower == "left" || lower == "arrowleft" then "ArrowLeft"
    else if lower == "right" || lower == "arrowright" then "ArrowRight"
    else if lower == "up" || lower == "arrowup" then "ArrowUp"
    else if lower == "down" || lower == "arrowdown" then "ArrowDown"
    else ""
  }

  /** The name of any other key. */
  function Shortened(raw: string, lower: string): string
    requires |lower| == |raw| > 0
  {
    if |raw| == 4 && lower[..3] == "key" && IsLetter(raw[3]) then [UpperOf(raw[3])]
    else if |raw| == 6 && lower[..5] == "digit" && '0' <= raw[5] <= '9' then [raw[5]]
    else if lower[0] == 'f' && IsFunctionNumber(raw[1..]) then ['F'] + raw[1..]
    else if |raw| == 1 && IsLetter(raw[0]) then [UpperOf(raw[0])]
    else raw
  }

  /** The name of a trimmed, non-empty key. */
  function NameOf(raw: string, lower: string): string
    requires |lower| == |raw| > 0
  {
    if Spelled(lower) != "" then Spelled(lower) else Shortened(raw, lower)
  }

  /** `normalizeKeyName`. */
  function KeyName(key: string): string {
    var raw := Trim(key, ScriptSpace);
    if raw == "" then "" else NameOf(raw, Lower(raw))
  }

  predicate IsName(name: string) {
    || name == "Meta" || name == "Ctrl" || name == "Alt" || name == "Shift" || name == "Escape" || name == "Space"
    || name == "ArrowLeft" || name == "ArrowRight" || name == "ArrowUp" || name == "ArrowDown"
  }

  lemma SpelledIsName(lower: string)
    ensures Spelled(lower) != "" ==> IsName(Spelled(lower))
    ensures |lower| == 1 || (lower != "" && lower[0] == 'f') ==> Spelled(lower) == ""
  {
  }

  function LowerName(name: string): string {
    if name == "Meta" then "meta" else if name == "Ctrl" then "ctrl" else if name == "Alt" then "alt"
    else if name == "Shift" then "shift" else if name == "Escape" then "escape" else if name == "Space" then "space"
    else if name == "ArrowLeft" then "arrowleft" else if name == "ArrowRight" then "arrowright"
    else if name == "ArrowUp" then "arrowup" else "arrowdown"
  }

  lemma NameIsLowered(name: string)
    requires IsName(name)
    ensures Lower(name) == LowerName(name)
  {
  }

  lemma LoweredNameIsSpelled(name: string)
    requires IsName(name)
    ensures Spelled(LowerName(name)) == name
  {
  }

  lemma NameEnds(name: string)
    requires IsName(name)
    ensures name != "" && IsLetter(name[0]) && IsLetter(name[|name| - 1])
  {
  }

  lemma IsTrimmed(name: string)
    requires name != "" && !ScriptSpace(name[0]) && !ScriptSpace(name[|name| - 1])
    ensures Trim(name, ScriptSpace) == name
  {
  }

  /** What a second naming needs to leave a shortened name alone. */
  predicate Settled(name: string) {
    && name != "" && Trim(name, ScriptSpace) == name
    && Spelled(Lower(name)) == "" && Shortened(name, Lower(name)) == name
  }

  lemma CharacterIsSettled(name: string)
    requires |name| == 1 && (IsLetter(name[0]) ==> 'A' <= name[0] <= 'Z') && !ScriptSpace(name[0])
    ensures Settled(name)
  {
    SpelledIsName(Lower(name));
  }

  lemma FunctionKeyAgain(name: string, lower: string)
    requires |lower| == |name| > 1 && lower[0] == 'f' && name[0] == 'F' && IsFunctionNumber(name[1..])
    ensures Shortened(name, lower) == name
  {
    assert name == ['F'] + name[1..];
  }

  lemma FunctionKeyIsSettled(name: string)
    requires |name| > 1 && name[0] == 'F' && IsFunctionNumber(name[1..])
    ensures Settled(name)
  {
    SpelledIsName(Lower(name));
    IsTrimmed(name);
    FunctionKeyAgain(name, Lower(name));
  }

  lemma ShortenedAgain(raw: string)
    requires raw != "" && Trim(raw, ScriptSpace) == raw && Spelled(Lower(raw)) == ""
    ensures Settled(Shortened(raw, Lower(raw)))
  {
    var name := Shortened(raw, Lower(raw));
    if name != raw {
      if |name| == 1 {
        CharacterIsSettled(name);
      } else {
        FunctionKeyIsSettled(name);
      }
    }
  }

  lemma NameIsFixed(name: string)
    requires IsName(name)
    ensures KeyName(name) == name
  {
    NameEnds(name);
    IsTrimmed(name);
    NameIsLowered(name);
    LoweredNameIsSpelled(name);
  }

  lemma SettledIsFixed(name: string)
    requires Settled(name)
    ensures KeyName(name) == name
  {
  }

  lemma NameOfIs(raw: string)
    requires raw != "" && Trim(raw, ScriptSpace) == raw
    ensures IsName(NameOf(raw, Lower(raw))) || Settled(NameOf(raw, Lower(raw)))
  {
    SpelledIsName(Lower(raw));
    if Spelled(Lower(raw)) == "" {
      ShortenedAgain(raw);
    }
  }

  lemma KeyNameIs(key: string)
    ensures KeyName(key) == "" || IsName(KeyName(key)) || Settled(KeyName(key))
  {
    var raw := Trim(key, ScriptSpace);
    if raw != "" {
      IsTrimmed(raw);
      NameOfIs(raw);
    }
  }

  lemma NoNameIsFixed()
    ensures KeyName("") == ""
  {
  }

  /** Naming a key twice is naming it once. */
  lemma KeyNamesOnce()
    ensures NamesOnce(KeyName)
  {
    forall key: string
      ensures KeyName(KeyName(key)) == KeyName(key)
    {
      KeyNameAgain(key, KeyName(key));
    }
  }

  lemma KeyNameAgain(key: string, name: string)
    ensures name == KeyName(key) ==> KeyName(name) == name
  {
    KeyNameIs(key);
    if name == "" {
      NoNameIsFixed();
    } else if IsName(name) {
      NameIsFixed(name);
    } else if Settled(name) {
      SettledIsFixed(name);
    }
  }
}
