/** The hooks that are installed for Codex and Claude. */
module AgentHooks {
  import opened HookInstall
  import opened Text

  /** An event with the kind of hook it runs and the hook's timeout. */
  datatype Event = Event(name: string, kind: string, timeout: nat)

  const CODEX_EVENTS: seq<Event> := [
    Event("SessionStart", "session-start", 5), Event("UserPromptSubmit", "user-prompt-submit", 5),
    Event("PermissionRequest", "permission-request", 600), Event("PreToolUse", "pre-tool-use", 5),
    Event("PostToolUse", "post-tool-use", 5), Event("Stop", "stop", 5)]

  const CLAUDE_EVENTS: seq<Event> := [
    Event("SessionStart", "session-start", 5), Event("UserPromptSubmit", "user-prompt-submit", 5),
    Event("PermissionRequest", "permission-request", 600), Event("PreToolUse", "pre-tool-use", 5),
    Event("PostToolUse", "post-tool-use", 5), Event("PostToolUseFailure", "post-tool-use-failure", 5),
    Event("Stop", "stop", 5), Event("Notification", "notification", 5), Event("SessionEnd", "session-end", 5)]

  const NON_CANONICAL_CODEX_EVENTS: set<string> := {
    "sessionStart", "userPromptSubmit", "permissionRequest", "preToolUse", "postToolUse", "preCompact", "postCompact",
    "session_start", "user_prompt_submit", "permission_request", "pre_tool_use", "post_tool_use", "pre_compact",
    "post_compact"}

  /** What an installation is made for; `quote` is `shlex.quote`. */
  datatype Setup = Setup(hookPath: string, instanceId: string, sock: string, spoolDir: string, quote: string -> string)

  /** `_agent_hook_command`. */
  function AgentHookCommand(setup: Setup, kind: string): string {
    ("OPENFOCUS_REGISTERED_INSTANCE_ID=" + setup.quote(setup.instanceId) + " ") + SOCKET + AfterSocket(setup, kind)
  }

  function AfterSocket(setup: Setup, kind: string): string {
    (setup.quote(setup.sock) + " ") + SPOOL + AfterSpool(setup, kind)
  }

  function AfterSpool(setup: Setup, kind: string): string {
    (setup.quote(setup.spoolDir) + " sh ") + setup.quote(setup.hookPath) + (" " + setup.quote(kind))
  }

  function RequiredBy(setup: Setup, events: seq<Event>): (required: seq<Required>)
    ensures |required| == |events|
    ensures forall i :: 0 <= i < |events| ==>
      required[i] == Required(events[i].name, AgentHookCommand(setup, events[i].kind), events[i].timeout)
  {
    seq(|events|, i requires 0 <= i < |events| =>
      Required(events[i].name, AgentHookCommand(setup, events[i].kind), events[i].timeout))
  }

  function InstanceOf(setup: Setup, noncanonical: set<string>): Instance {
    Instance(Mentions(setup.hookPath), Mentions(SOCKET + setup.sock), noncanonical)
  }

  function Mentions(needle: string): string -> bool {
    command => Contains(command, needle)
  }

  lemma ContainsAtEnd(before: string, middle: string, after: string, needle: string)
    requires Contains(after, needle)
    ensures Contains(before + middle + after, needle)
  {
    ContainsInside(before + middle, after, "", needle);
    assert before + middle + after + "" == before + middle + after;
  }

  /** A command names the socket and the spool, and the hook's path if quoting leaves it readable. */
  lemma CommandHasSocketAndSpool(setup: Setup, kind: string)
    ensures Contains(AgentHookCommand(setup, kind), SOCKET) && Contains(AgentHookCommand(setup, kind), SPOOL)
    ensures Contains(setup.quote(setup.hookPath), setup.hookPath) ==>
              Contains(AgentHookCommand(setup, kind), setup.hookPath)
  {
    var start := "OPENFOCUS_REGISTERED_INSTANCE_ID=" + setup.quote(setup.instanceId) + " ";
    ContainsMiddle(start, SOCKET, AfterSocket(setup, kind));
    ContainsMiddle(setup.quote(setup.sock) + " ", SPOOL, AfterSpool(setup, kind));
    ContainsAtEnd(start, SOCKET, AfterSocket(setup, kind), SPOOL);
    if Contains(setup.quote(setup.hookPath), setup.hookPath) {
      PathIsNamed(setup, kind);
      ContainsAtEnd(start, SOCKET, AfterSocket(setup, kind), setup.hookPath);
    }
  }

  lemma PathIsNamed(setup: Setup, kind: string)
    requires Contains(setup.quote(setup.hookPath), setup.hookPath)
    ensures Contains(AfterSocket(setup, kind), setup.hookPath)
  {
    ContainsInside(setup.quote(setup.spoolDir) + " sh ", setup.quote(setup.hookPath), " " + setup.quote(kind),
                   setup.hookPath);
    ContainsAtEnd(setup.quote(setup.sock) + " ", SPOOL, AfterSpool(setup, kind), setup.hookPath);
  }

  /** No event that is installed is one of the old spellings. */
  lemma InstalledEventsAreCanonical(event: Event)
    requires event in CODEX_EVENTS
    ensures event.name !in NON_CANONICAL_CODEX_EVENTS
  {
    assert 'A' <= event.name[0] <= 'Z';
    assert forall name :: name in NON_CANONICAL_CODEX_EVENTS ==> 'a' <= name[0] <= 'z';
  }

  lemma InstalledSurvive(setup: Setup, events: seq<Event>, noncanonical: set<string>)
    requires forall i :: 0 <= i < |events| ==> events[i].name !in noncanonical
    ensures Survive(RequiredBy(setup, events), KeepIn(InstanceOf(setup, noncanonical)))
  {
    var required := RequiredBy(setup, events);
    forall i | 0 <= i < |required|
      ensures KeepIn(InstanceOf(setup, noncanonical))(required[i].event)(required[i].command)
    {
      CommandHasSocketAndSpool(setup, events[i].kind);
    }
  }

  function InstallFor(config: Config, setup: Setup, events: seq<Event>, noncanonical: set<string>): Config {
    var instance := InstanceOf(setup, noncanonical);
    Install(config, RequiredBy(setup, events), KeepIn(instance), instance.ours)
  }

  /** Installing twice is installing once, and afterwards every event runs exactly the command it needs. */
  lemma InstallForOnce(config: Config, setup: Setup, events: seq<Event>, noncanonical: set<string>)
    requires forall i :: 0 <= i < |events| ==> events[i].name !in noncanonical
    ensures
      var after := InstallFor(config, setup, events, noncanonical);
      && InstallFor(after, setup, events, noncanonical) == after
      && forall i :: 0 <= i < |events| ==>
           HasCommand(EntriesOf(after, events[i].name), AgentHookCommand(setup, events[i].kind))
  {
    var instance := InstanceOf(setup, noncanonical);
    var required := RequiredBy(setup, events);
    InstalledSurvive(setup, events, noncanonical);
    InstallFixpoint(config, required, KeepIn(instance), instance.ours);
    InstallOnce(config, required, KeepIn(instance), instance.ours);
    forall i | 0 <= i < |events|
      ensures HasCommand(EntriesOf(InstallFor(config, setup, events, noncanonical), events[i].name),
                         AgentHookCommand(setup, events[i].kind))
    {
      assert required[i].event == events[i].name;
    }
  }

  lemma InstallCodexOnce(config: Config, setup: Setup)
    ensures
      var after := InstallFor(config, setup, CODEX_EVENTS, NON_CANONICAL_CODEX_EVENTS);
      InstallFor(after, setup, CODEX_EVENTS, NON_CANONICAL_CODEX_EVENTS) == after
  {
    forall i | 0 <= i < |CODEX_EVENTS|
      ensures CODEX_EVENTS[i].name !in NON_CANONICAL_CODEX_EVENTS
    {
      InstalledEventsAreCanonical(CODEX_EVENTS[i]);
    }
    InstallForOnce(config, setup, CODEX_EVENTS, NON_CANONICAL_CODEX_EVENTS);
  }

  lemma InstallClaudeOnce(config: Config, setup: Setup)
    ensures
      var after := InstallFor(config, setup, CLAUDE_EVENTS, {});
      InstallFor(after, setup, CLAUDE_EVENTS, {}) == after
  {
    InstallForOnce(config, setup, CLAUDE_EVENTS, {});
  }

  predicate IsInstalled(setup: Setup, events: seq<Event>, command: string) {
    exists i :: 0 <= i < |events| && command == AgentHookCommand(setup, events[i].kind)
  }

  /** The commands that name the hook's path, and those an installation puts in itself. */
  function Mine(setup: Setup, events: seq<Event>): string -> bool {
    command => Contains(command, setup.hookPath) || IsInstalled(setup, events, command)
  }

  /** The hooks of others survive an installation, in their order and with their entries' other settings. */
  lemma InstallForKeepsForeign(config: Config, setup: Setup, events: seq<Event>, noncanonical: set<string>,
                               event: string)
    ensures
      var mine := Mine(setup, events);
      ForeignOf(EntriesOf(InstallFor(config, setup, events, noncanonical), event), mine)
      == ForeignOf(EntriesOf(config, event), mine)
  {
    var instance := InstanceOf(setup, noncanonical);
    InstallKeepsForeign(config, RequiredBy(setup, events), KeepIn(instance), instance.ours, Mine(setup, events), event);
  }

  /** If quoting leaves the hook's path readable, what is installed names that path, so it alone decides. */
  lemma MineNamesThePath(setup: Setup, events: seq<Event>, command: string)
    requires Contains(setup.quote(setup.hookPath), setup.hookPath)
    ensures Mine(setup, events)(command) <==> Contains(command, setup.hookPath)
  {
    if IsInstalled(setup, events, command) {
      var i :| 0 <= i < |events| && command == AgentHookCommand(setup, events[i].kind);
      CommandHasSocketAndSpool(setup, events[i].kind);
    }
  }
}
