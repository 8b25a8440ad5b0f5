/** Installing agent hooks into a JSON configuration: prune what is obsolete, then ensure one entry per event. */
module HookInstall {
  import opened Basics
  import opened Text

  /** What a hook says besides its command: only a timeout, as the installed ones, or anything else. */
  datatype Rest = Timeout(seconds: nat) | Anything(value: string)

  /** A hook with its command; one that is not an object has the empty command. */
  datatype Hook = Hook(command: string, rest: Rest)

  /** An entry with a list of hooks, or any other value. */
  datatype Entry = Entry(meta: string, hooks: seq<Hook>) | Opaque(value: string)

  type Config = map<string, seq<Entry>>

  datatype Required = Required(event: string, command: string, timeout: nat)

  /** What makes a command ours, and which commands and events belong to the instance that is being installed. */
  datatype Instance = Instance(ours: string -> bool, same: string -> bool, noncanonical: set<string>)

  const SOCKET := "OPENFOCUS_HOOK_SOCK="
  const SPOOL := "OPENFOCUS_HOOK_SPOOL_DIR="

  /** The hooks that pruning leaves in an event. */
  predicate Kept(event: string, command: string, instance: Instance) {
    !instance.ours(command)
    || !(!Contains(command, SOCKET)
         || (instance.same(command) && !Contains(command, SPOOL))
         || (event in instance.noncanonical && instance.same(command)))
  }

  function KeptHooks(hooks: seq<Hook>, keep: string -> bool): seq<Hook> {
    if hooks == [] then []
    else KeptHooks(hooks[..|hooks| - 1], keep) + if keep(hooks[|hooks| - 1].command) then [hooks[|hooks| - 1]] else []
  }

  function PrunedEntry(entry: Entry, keep: string -> bool): seq<Entry> {
    match entry
    case Opaque(_) => [entry]
    case Entry(meta, hooks) => if KeptHooks(hooks, keep) == [] then [] else [Entry(meta, KeptHooks(hooks, keep))]
  }

  function PrunedEntries(entries: seq<Entry>, keep: string -> bool): seq<Entry> {
    if entries == [] then []
    else PrunedEntries(entries[..|entries| - 1], keep) + PrunedEntry(entries[|entries| - 1], keep)
  }

  function KeepIn(instance: Instance): string -> string -> bool {
    event => command => Kept(event, command, instance)
  }

  /** `_prune_legacy_json_openfocus_hooks`. */
  function Pruned(config: Config, keeps: string -> string -> bool): Config {
    map event | event in config :: PrunedEntries(config[event], keeps(event))
  }

  predicate HasCommand(entries: seq<Entry>, command: string) {
    exists i :: 0 <= i < |entries| && Names(entries[i], command)
  }

  predicate Names(entry: Entry, command: string) {
    entry.Entry? && exists j :: 0 <= j < |entry.hooks| && entry.hooks[j].command == command
  }

  predicate HasOurs(entry: Entry, ours: string -> bool) {
    entry.Entry? && exists j :: 0 <= j < |entry.hooks| && ours(entry.hooks[j].command)
  }

  /** Where the new entry goes: before the first entry with one of our hooks, or at the end. */
  function InsertAt(entries: seq<Entry>, ours: string -> bool): (k: nat)
    ensures k <= |entries|
  {
    if entries == [] || HasOurs(entries[0], ours) then 0 else 1 + InsertAt(entries[1..], ours)
  }

  function NewEntry(required: Required): Entry {
    Entry("*", [Hook(required.command, Timeout(required.timeout))])
  }

  function EntriesOf(config: Config, event: string): seq<Entry> {
    if event in config then config[event] else []
  }

  /** `_ensure_json_hook_entry`. */
  function Ensured(config: Config, required: Required, ours: string -> bool): Config {
    var entries := EntriesOf(config, required.event);
    if HasCommand(entries, required.command) then config
    else
      var k := InsertAt(entries, ours);
      config[required.event := entries[..k] + [NewEntry(required)] + entries[k..]]
  }

  function EnsuredAll(config: Config, required: seq<Required>, ours: string -> bool): Config {
    if required == [] then config
    else Ensured(EnsuredAll(config, required[..|required| - 1], ours), required[|required| - 1], ours)
  }

  /** Prune, then ensure every required event. */
  function Install(config: Config, required: seq<Required>, keeps: string -> string -> bool,
                   ours: string -> bool): Config
  {
    EnsuredAll(Pruned(config, keeps), required, ours)
  }

  /** Nothing in the entries is left to prune. */
  ghost predicate Clean(entries: seq<Entry>, keep: string -> bool) {
    forall i :: 0 <= i < |entries| ==> CleanEntry(entries[i], keep)
  }

  ghost predicate CleanEntry(entry: Entry, keep: string -> bool) {
    entry.Entry? ==> entry.hooks != [] && forall j :: 0 <= j < |entry.hooks| ==> keep(entry.hooks[j].command)
  }

  lemma {:induction false} KeptHooksKeep(hooks: seq<Hook>, keep: string -> bool)
    ensures forall j :: 0 <= j < |KeptHooks(hooks, keep)| ==> keep(KeptHooks(hooks, keep)[j].command)
    ensures KeptHooks(hooks, keep) == hooks <==> forall j :: 0 <= j < |hooks| ==> keep(hooks[j].command)
    ensures |KeptHooks(hooks, keep)| <= |hooks|
  {
    if hooks == [] {
    } else {
      var shorter, last := hooks[..|hooks| - 1], hooks[|hooks| - 1];
      KeptHooksKeep(shorter, keep);
      assert hooks == shorter + [last];
      if KeptHooks(hooks, keep) == hooks {
        assert keep(last.command);
        assert KeptHooks(shorter, keep) == shorter;
      }
    }
  }

  lemma PrunedEntryIsClean(entry: Entry, keep: string -> bool)
    ensures Clean(PrunedEntry(entry, keep), keep) && |PrunedEntry(entry, keep)| <= 1
    ensures PrunedEntry(entry, keep) == [entry] <==> CleanEntry(entry, keep)
  {
    if entry.Entry? {
      KeptHooksKeep(entry.hooks, keep);
    }
  }

  lemma CleanConcat(left: seq<Entry>, right: seq<Entry>, keep: string -> bool)
    ensures Clean(left + right, keep) <==> Clean(left, keep) && Clean(right, keep)
  {
    assert forall i :: 0 <= i < |left| ==> (left + right)[i] == left[i];
    assert forall i :: 0 <= i < |right| ==> (left + right)[|left| + i] == right[i];
  }

  lemma {:induction false} PrunedIsClean(entries: seq<Entry>, keep: string -> bool)
    ensures Clean(PrunedEntries(entries, keep), keep) && |PrunedEntries(entries, keep)| <= |entries|
    ensures PrunedEntries(entries, keep) == entries <==> Clean(entries, keep)
  {
    if entries == [] {
    } else {
      var shorter, last := entries[..|entries| - 1], entries[|entries| - 1];
      var before, part := PrunedEntries(shorter, keep), PrunedEntry(last, keep);
      PrunedIsClean(shorter, keep);
      PrunedEntryIsClean(last, keep);
      CleanConcat(before, part, keep);
      assert entries == shorter + [last];
      CleanConcat(shorter, [last], keep);
      if before + part == shorter + [last] {
        assert |before| == |shorter| && before == (before + part)[..|shorter|];
        assert part == (before + part)[|shorter|..];
      }
    }
  }

  ghost predicate AllClean(config: Config, keeps: string -> string -> bool) {
    forall event :: event in config ==> Clean(config[event], keeps(event))
  }

  ghost predicate HasAll(config: Config, required: seq<Required>) {
    forall i :: 0 <= i < |required| ==> HasCommand(EntriesOf(config, required[i].event), required[i].command)
  }

  /** The commands that are installed are not themselves pruned. */
  ghost predicate Survive(required: seq<Required>, keeps: string -> string -> bool) {
    forall i :: 0 <= i < |required| ==> keeps(required[i].event)(required[i].command)
  }

  lemma PrunedConfigIsClean(config: Config, keeps: string -> string -> bool)
    ensures AllClean(Pruned(config, keeps), keeps)
    ensures Pruned(config, keeps) == config <==> AllClean(config, keeps)
  {
    forall event | event in config
      ensures Clean(Pruned(config, keeps)[event], keeps(event))
      ensures Pruned(config, keeps)[event] == config[event] <==> Clean(config[event], keeps(event))
    {
      PrunedIsClean(config[event], keeps(event));
    }
  }

  lemma EnsuredKeeps(config: Config, required: Required, keeps: string -> string -> bool, ours: string -> bool)
    requires AllClean(config, keeps) && keeps(required.event)(required.command)
    ensures AllClean(Ensured(config, required, ours), keeps)
  {
    var entries := EntriesOf(config, required.event);
    var k := InsertAt(entries, ours);
    assert Clean(entries, keeps(required.event));
    assert CleanEntry(NewEntry(required), keeps(required.event));
    assert Clean(entries[..k] + [NewEntry(required)] + entries[k..], keeps(required.event));
  }

  lemma EnsuredHas(config: Config, required: Required, ours: string -> bool)
    ensures HasCommand(EntriesOf(Ensured(config, required, ours), required.event), required.command)
    ensures Ensured(config, required, ours) == config
       <==> HasCommand(EntriesOf(config, required.event), required.command)
  {
    var entries, after := EntriesOf(config, required.event), EntriesOf(Ensured(config, required, ours), required.event);
    if !HasCommand(entries, required.command) {
      var k := InsertAt(entries, ours);
      assert after[k] == NewEntry(required) && after[k].hooks[0].command == required.command;
      assert Names(after[k], required.command);
      assert |after| == |entries| + 1;
    }
  }

  lemma EnsuredLosesNone(config: Config, required: Required, ours: string -> bool, event: string, command: string)
    requires HasCommand(EntriesOf(config, event), command)
    ensures HasCommand(EntriesOf(Ensured(config, required, ours), event), command)
  {
    var entries, after := EntriesOf(config, event), EntriesOf(Ensured(config, required, ours), event);
    if event == required.event && !HasCommand(entries, required.command) {
      var i :| 0 <= i < |entries| && Names(entries[i], command);
      var k := InsertAt(entries, ours);
      assert after[if i < k then i else i + 1] == entries[i];
    }
  }

  lemma EnsuredStillHas(config: Config, required: Required, ours: string -> bool, earlier: seq<Required>)
    requires HasAll(config, earlier)
    ensures HasAll(Ensured(config, required, ours), earlier)
  {
    forall i | 0 <= i < |earlier|
      ensures HasCommand(EntriesOf(Ensured(config, required, ours), earlier[i].event), earlier[i].command)
    {
      EnsuredLosesNone(config, required, ours, earlier[i].event, earlier[i].command);
    }
  }

  lemma {:induction false} EnsuredAllHas(config: Config, required: seq<Required>, keeps: string -> string -> bool,
                                         ours: string -> bool)
    requires AllClean(config, keeps) && Survive(required, keeps)
    ensures AllClean(EnsuredAll(config, required, ours), keeps) && HasAll(EnsuredAll(config, required, ours), required)
  {
    if required == [] {
    } else {
      var shorter, last := required[..|required| - 1], required[|required| - 1];
      EnsuredAllHas(config, shorter, keeps, ours);
      var before := EnsuredAll(config, shorter, ours);
      EnsuredKeeps(before, last, keeps, ours);
      EnsuredHas(before, last, ours);
      EnsuredStillHas(before, last, ours, shorter);
      assert required == shorter + [last];
    }
  }

  lemma {:induction false} EnsuredAllStays(config: Config, required: seq<Required>, ours: string -> bool)
    requires HasAll(config, required)
    ensures EnsuredAll(config, required, ours) == config
  {
    if required == [] {
    } else {
      EnsuredAllStays(config, required[..|required| - 1], ours);
    }
  }

  /** Installing leaves nothing to prune, has every required command, and changes nothing exactly when that was so. */
  lemma InstallFixpoint(config: Config, required: seq<Required>, keeps: string -> string -> bool, ours: string -> bool)
    requires Survive(required, keeps)
    ensures
      var after := Install(config, required, keeps, ours);
      && AllClean(after, keeps) && HasAll(after, required)
      && (after == config <==> AllClean(config, keeps) && HasAll(config, required))
  {
    PrunedConfigIsClean(config, keeps);
    EnsuredAllHas(Pruned(config, keeps), required, keeps, ours);
    if AllClean(config, keeps) && HasAll(config, required) {
      EnsuredAllStays(config, required, ours);
    }
  }

  /** A second install changes nothing. */
  lemma InstallOnce(config: Config, required: seq<Required>, keeps: string -> string -> bool, ours: string -> bool)
    requires Survive(required, keeps)
    ensures
      var after := Install(config, required, keeps, ours);
      Install(after, required, keeps, ours) == after
  {
    InstallFixpoint(config, required, keeps, ours);
    InstallFixpoint(Install(config, required, keeps, ours), required, keeps, ours);
  }

  /** What belongs to others: a value that is no entry, or a hook with what its entry says besides the hooks. */
  datatype Foreign = Value(value: string) | HookOf(meta: string, hook: Hook)

  function ForeignHooks(meta: string, hooks: seq<Hook>, ours: string -> bool): seq<Foreign> {
    if hooks == [] then []
    else
      var last := hooks[|hooks| - 1];
      ForeignHooks(meta, hooks[..|hooks| - 1], ours) + if ours(last.command) then [] else [HookOf(meta, last)]
  }

  function ForeignIn(entry: Entry, ours: string -> bool): seq<Foreign> {
    match entry
    case Opaque(value) => [Value(value)]
    case Entry(meta, hooks) => ForeignHooks(meta, hooks, ours)
  }

  function Part(ours: string -> bool): Entry -> seq<Foreign> {
    entry => ForeignIn(entry, ours)
  }

  function Parts(entries: seq<Entry>, part: Entry -> seq<Foreign>): seq<Foreign> {
    if entries == [] then [] else Parts(entries[..|entries| - 1], part) + part(entries[|entries| - 1])
  }

  /** Everything in the entries that is not ours, in order. */
  function ForeignOf(entries: seq<Entry>, ours: string -> bool): seq<Foreign> {
    Parts(entries, Part(ours))
  }

  lemma {:induction false} KeptHooksForeign(meta: string, hooks: seq<Hook>, keep: string -> bool, ours: string -> bool)
    requires forall j :: 0 <= j < |hooks| && !ours(hooks[j].command) ==> keep(hooks[j].command)
    ensures ForeignHooks(meta, KeptHooks(hooks, keep), ours) == ForeignHooks(meta, hooks, ours)
  {
    if hooks == [] {
    } else {
      var shorter, last := hooks[..|hooks| - 1], hooks[|hooks| - 1];
      KeptHooksForeign(meta, shorter, keep, ours);
      var kept := KeptHooks(shorter, keep);
      assert (kept + [last])[..|kept|] == kept;
      assert kept + [] == kept;
    }
  }

  lemma PrunedEntryForeign(entry: Entry, keep: string -> bool, ours: string -> bool)
    requires forall command :: !ours(command) ==> keep(command)
    ensures Parts(PrunedEntry(entry, keep), Part(ours)) == Part(ours)(entry)
  {
    if entry.Entry? {
      KeptHooksForeign(entry.meta, entry.hooks, keep, ours);
    }
    OnePart(entry, Part(ours));
    if PrunedEntry(entry, keep) != [] {
      OnePart(PrunedEntry(entry, keep)[0], Part(ours));
    }
  }

  lemma OnePart(entry: Entry, part: Entry -> seq<Foreign>)
    ensures Parts([entry], part) == part(entry)
  {
    assert [entry][..0] == [];
  }

  lemma PartsStep(entries: seq<Entry>, last: Entry, part: Entry -> seq<Foreign>)
    ensures Parts(entries + [last], part) == Parts(entries, part) + part(last)
  {
    assert (entries + [last])[..|entries|] == entries;
  }

  lemma {:induction false} PartsConcat(left: seq<Entry>, right: seq<Entry>, part: Entry -> seq<Foreign>)
    ensures Parts(left + right, part) == Parts(left, part) + Parts(right, part)
  {
    if right == [] {
      assert left + right == left;
    } else {
      var shorter, last := right[..|right| - 1], right[|right| - 1];
      PartsConcat(left, shorter, part);
      ConcatAssociates(left, shorter, [last]);
      assert shorter + [last] == right;
      PartsStep(left + shorter, last, part);
      ConcatAssociates(Parts(left, part), Parts(shorter, part), part(last));
    }
  }

  lemma {:induction false} PrunedKeepsForeign(entries: seq<Entry>, keep: string -> bool, ours: string -> bool)
    requires forall command :: !ours(command) ==> keep(command)
    ensures ForeignOf(PrunedEntries(entries, keep), ours) == ForeignOf(entries, ours)
  {
    if entries == [] {
    } else {
      var shorter, last := entries[..|entries| - 1], entries[|entries| - 1];
      PrunedKeepsForeign(shorter, keep, ours);
      PrunedEntryForeign(last, keep, ours);
      PartsConcat(PrunedEntries(shorter, keep), PrunedEntry(last, keep), Part(ours));
    }
  }

  lemma InsertKeepsParts(left: seq<Entry>, entry: Entry, right: seq<Entry>, part: Entry -> seq<Foreign>)
    requires part(entry) == []
    ensures Parts(left + [entry] + right, part) == Parts(left + right, part)
  {
    PartsConcat(left + [entry], right, part);
    PartsConcat(left, right, part);
    assert (left + [entry])[..|left|] == left;
    assert Parts(left + [entry], part) == Parts(left, part) + [];
  }

  lemma EnsuredKeepsForeign(config: Config, required: Required, ours: string -> bool, mine: string -> bool,
                            event: string)
    requires mine(required.command)
    ensures ForeignOf(EntriesOf(Ensured(config, required, ours), event), mine)
         == ForeignOf(EntriesOf(config, event), mine)
  {
    var entries, hooks := EntriesOf(config, event), NewEntry(required).hooks;
    assert hooks[..0] == [] && ForeignHooks("*", hooks, mine) == [];
    var k := InsertAt(entries, ours);
    InsertKeepsParts(entries[..k], NewEntry(required), entries[k..], Part(mine));
    assert entries[..k] + entries[k..] == entries;
  }

  lemma {:induction false} EnsuredAllKeepsForeign(config: Config, required: seq<Required>, ours: string -> bool,
                                                  mine: string -> bool, event: string)
    requires forall i :: 0 <= i < |required| ==> mine(required[i].command)
    ensures ForeignOf(EntriesOf(EnsuredAll(config, required, ours), event), mine)
         == ForeignOf(EntriesOf(config, event), mine)
  {
    if required == [] {
    } else {
      EnsuredAllKeepsForeign(config, required[..|required| - 1], ours, mine, event);
      EnsuredKeepsForeign(EnsuredAll(config, required[..|required| - 1], ours), required[|required| - 1], ours, mine,
                          event);
    }
  }

  /**
   For every event, what is not mine stays, in its order and with its entry's other settings. The commands
   that count as mine must include those installed and those pruned; where new entries go does not matter.
   */
  lemma InstallKeepsForeign(config: Config, required: seq<Required>, keeps: string -> string -> bool,
                            ours: string -> bool, mine: string -> bool, event: string)
    requires forall i :: 0 <= i < |required| ==> mine(required[i].command)
    requires forall command :: !mine(command) ==> keeps(event)(command)
    ensures ForeignOf(EntriesOf(Install(config, required, keeps, ours), event), mine)
         == ForeignOf(EntriesOf(config, event), mine)
  {
    if event in config {
      PrunedKeepsForeign(config[event], keeps(event), mine);
    }
    EnsuredAllKeepsForeign(Pruned(config, keeps), required, ours, mine, event);
  }

  lemma {:induction false} InsertAtFirst(entries: seq<Entry>, ours: string -> bool, k: nat)
    requires k <= |entries| && (k < |entries| ==> HasOurs(entries[k], ours))
    requires forall i :: 0 <= i < k ==> !HasOurs(entries[i], ours)
    ensures InsertAt(entries, ours) == k
  {
    if k == 0 {
    } else {
      InsertAtFirst(entries[1..], ours, k - 1);
    }
  }

  /** The inner loop of pruning: one entry's hooks. */
  method PruneHooks(hooks: seq<Hook>, keep: string -> bool) returns (kept: seq<Hook>, dropped: bool)
    ensures kept == KeptHooks(hooks, keep) && (dropped <==> kept != hooks)
  {
    kept, dropped := [], false;
    for i := 0 to |hooks|
      invariant kept == KeptHooks(hooks[..i], keep)
      invariant dropped <==> !(forall j :: 0 <= j < i ==> keep(hooks[j].command))
    {
      assert hooks[..i + 1][..i] == hooks[..i];
      if keep(hooks[i].command) {
        kept := kept + [hooks[i]];
      } else {
        dropped := true;
      }
    }
    assert hooks[..|hooks|] == hooks;
    KeptHooksKeep(hooks, keep);
  }

  /** What one entry becomes: itself without the dropped hooks, or nothing. */
  method PruneEntry(entry: Entry, keep: string -> bool) returns (part: seq<Entry>, changed: bool)
    ensures part == PrunedEntry(entry, keep) && (changed <==> !CleanEntry(entry, keep))
  {
    PrunedEntryIsClean(entry, keep);
    match entry {
      case Opaque(_) =>
        part, changed := [entry], false;
      case Entry(meta, hooks) =>
        var kept, dropped := PruneHooks(hooks, keep);
        part, changed := if kept == [] then [] else [Entry(meta, kept)], dropped || kept == [];
    }
  }

  /** The middle loop of pruning: one event's entries. */
  method PruneEntries(entries: seq<Entry>, keep: string -> bool) returns (next: seq<Entry>, changed: bool)
    ensures next == PrunedEntries(entries, keep) && (changed <==> !Clean(entries, keep))
  {
    next, changed := [], false;
    for i := 0 to |entries|
      invariant next == PrunedEntries(entries[..i], keep)
      invariant changed <==> exists j :: 0 <= j < i && !CleanEntry(entries[j], keep)
    {
      assert entries[..i + 1][..i] == entries[..i];
      var part, differs := PruneEntry(entries[i], keep);
      next := next + part;
      changed := changed || differs;
    }
    assert entries[..|entries|] == entries;
  }

  /** Nothing is left to prune in the events that have been dealt with. */
  ghost predicate CleanOutside(config: Config, keeps: string -> string -> bool, events: set<string>) {
    forall event :: event in config && event !in events ==> Clean(config[event], keeps(event))
  }

  ghost predicate PrunedOutside(start: Config, config: Config, keeps: string -> string -> bool, events: set<string>) {
    && events <= start.Keys == config.Keys
    && forall event :: event in start ==>
         config[event] == if event in events then start[event] else PrunedEntries(start[event], keeps(event))
  }

  lemma OneEventLess(start: Config, config: Config, keeps: string -> string -> bool, events: set<string>, event: string)
    requires PrunedOutside(start, config, keeps, events) && event in events
    ensures config[event] == start[event]
    ensures PrunedOutside(start, config[event := PrunedEntries(config[event], keeps(event))], keeps, events - {event})
    ensures CleanOutside(start, keeps, events - {event})
       <==> CleanOutside(start, keeps, events) && Clean(start[event], keeps(event))
  {
  }

  lemma PrunedOutsideNone(start: Config, config: Config, keeps: string -> string -> bool)
    requires PrunedOutside(start, config, keeps, {})
    ensures config == Pruned(start, keeps) && (CleanOutside(start, keeps, {}) <==> AllClean(start, keeps))
  {
  }

  lemma HasAllMore(config: Config, done: seq<Required>, last: Required)
    ensures HasAll(config, done + [last])
       <==> HasAll(config, done) && HasCommand(EntriesOf(config, last.event), last.command)
  {
    var more := done + [last];
    assert more[|done|] == last && forall j :: 0 <= j < |done| ==> more[j] == done[j];
  }

  lemma EnsuredAllMore(config: Config, done: seq<Required>, last: Required, ours: string -> bool)
    ensures EnsuredAll(config, done + [last], ours) == Ensured(EnsuredAll(config, done, ours), last, ours)
  {
    assert (done + [last])[..|done|] == done;
  }

  lemma EnsureNext(pruned: Config, required: seq<Required>, i: nat, ours: string -> bool)
    requires i < |required|
    ensures EnsuredAll(pruned, required[..i + 1], ours)
         == Ensured(EnsuredAll(pruned, required[..i], ours), required[i], ours)
    ensures HasAll(pruned, required[..i + 1])
       <==> HasAll(pruned, required[..i]) && HasCommand(EntriesOf(pruned, required[i].event), required[i].command)
    ensures HasAll(pruned, required[..i]) ==> EnsuredAll(pruned, required[..i], ours) == pruned
  {
    var done := required[..i];
    assert required[..i + 1] == done + [required[i]];
    EnsuredAllMore(pruned, done, required[i], ours);
    HasAllMore(pruned, done, required[i]);
    if HasAll(pruned, done) {
      EnsuredAllStays(pruned, done, ours);
    }
  }

  class ConfigFile {
    var hooks: Config

    constructor (hooks: Config)
      ensures this.hooks == hooks
    {
      this.hooks := hooks;
    }

    method PruneEvent(event: string, keep: string -> bool) returns (changed: bool)
      requires event in hooks
      modifies this
      ensures hooks == old(hooks)[event := PrunedEntries(old(hooks)[event], keep)]
      ensures changed <==> !Clean(old(hooks)[event], keep)
    {
      var next, differs := PruneEntries(hooks[event], keep);
      hooks := hooks[event := next];
      changed := differs;
    }

    /** `_prune_legacy_json_openfocus_hooks`; the result says whether anything changed. */
    method Prune(keeps: string -> string -> bool) returns (changed: bool)
      modifies this
      ensures hooks == Pruned(old(hooks), keeps) && (changed <==> hooks != old(hooks))
    {
      changed := false;
      ghost var start := hooks;
      var events := hooks.Keys;
      while events != {}
        invariant PrunedOutside(start, hooks, keeps, events)
        invariant changed <==> !CleanOutside(start, keeps, events)
        decreases |events|
      {
        var event :| event in events;
        ghost var before, was := events, hooks;
        events := events - {event};
        var differs := PruneEvent(event, keeps(event));
        OneEventLess(start, was, keeps, before, event);
        changed := changed || differs;
      }
      PrunedConfigIsClean(start, keeps);
      PrunedOutsideNone(start, hooks, keeps);
    }

    /** `_ensure_json_hook_entry`; the result says whether an entry was inserted. */
    method Ensure(required: Required, ours: string -> bool) returns (changed: bool)
      modifies this
      ensures hooks == Ensured(old(hooks), required, ours) && (changed <==> hooks != old(hooks))
    {
      var entries := EntriesOf(hooks, required.event);
      EnsuredHas(hooks, required, ours);
      for i := 0 to |entries|
        invariant forall j :: 0 <= j < i ==> !Names(entries[j], required.command)
      {
        if Names(entries[i], required.command) {
          return false;
        }
      }
      var at := |entries|;
      for i := 0 to |entries|
        invariant forall j :: 0 <= j < i ==> !HasOurs(entries[j], ours)
        invariant at == |entries|
      {
        if HasOurs(entries[i], ours) {
          at := i;
          break;
        }
      }
      InsertAtFirst(entries, ours, at);
      hooks := hooks[required.event := entries[..at] + [NewEntry(required)] + entries[at..]];
      changed := true;
    }

    /** `install_codex` and `install_claude` without the files: prune, then ensure every required event. */
    method InstallAll(required: seq<Required>, keeps: string -> string -> bool, ours: string -> bool)
      returns (changed: bool)
      requires Survive(required, keeps)
      modifies this
      ensures hooks == Install(old(hooks), required, keeps, ours) && (changed <==> hooks != old(hooks))
    {
      ghost var start := hooks;
      changed := Prune(keeps);
      PrunedConfigIsClean(start, keeps);
      var added := EnsureAll(required, ours);
      changed := changed || added;
      InstallFixpoint(start, required, keeps, ours);
    }

    method EnsureAll(required: seq<Required>, ours: string -> bool) returns (changed: bool)
      modifies this
      ensures hooks == EnsuredAll(old(hooks), required, ours) && (changed <==> !HasAll(old(hooks), required))
    {
      changed := false;
      ghost var start := hooks;
      for i := 0 to |required|
        invariant hooks == EnsuredAll(start, required[..i], ours)
        invariant changed <==> !HasAll(start, required[..i])
      {
        EnsureNext(start, required, i, ours);
        EnsuredHas(hooks, required[i], ours);
        var inserted := Ensure(required[i], ours);
        changed := changed || inserted;
      }
      assert required[..|required|] == required;
    }
  }
}
