/**
 Line-based symbol extraction of the code-navigation service. The per-line regular
 expressions are a parameter: `classify(line)` is the first pattern that matches, if any.
 */
module SymbolScan {
  import opened Basics

  datatype SymbolKind = Class | Function | Method | Variable

  /** What the first matching pattern says about a line; `start` is the 0-based match offset. */
  datatype Hit = Hit(kind: SymbolKind, name: string, start: nat)

  datatype Symbol = Symbol(kind: SymbolKind, name: string, container: string, path: string, line: nat, column: nat)

  type Classifier = string -> Option<Hit>

  /** Number of leading spaces; tabs do not count and an empty line has none. */
  function Indent(line: string): nat {
    if line != "" && line[0] == ' ' then 1 + Indent(line[1..]) else 0
  }

  predicate OpensScope(line: string, classify: Classifier) {
    classify(line).Some? && !classify(line).value.kind.Variable?
  }

  predicate Inside(lines: seq<string>, j: nat, k: nat)
    requires j < |lines| && k < |lines|
  {
    Indent(lines[j]) < Indent(lines[k])
  }

  /** Line `j` opens a scope and every later line before `end` is indented deeper. */
  ghost predicate StillOpen(lines: seq<string>, classify: Classifier, j: int, end: nat)
    requires end <= |lines|
  {
    && 0 <= j < end
    && OpensScope(lines[j], classify)
    && forall k :: j < k < end ==> Inside(lines, j, k)
  }

  /** The latest scope opened before line `below` that is still open at `end`, if there is one. */
  ghost function NearestScope(lines: seq<string>, classify: Classifier, end: nat, below: nat): (scope: Option<nat>)
    requires below < end <= |lines|
    ensures scope.Some? ==> scope.value < below && StillOpen(lines, classify, scope.value, end)
    ensures scope.Some? ==> forall j :: scope.value < j < below ==> !StillOpen(lines, classify, j, end)
    ensures scope.None? ==> forall j :: 0 <= j < below ==> !StillOpen(lines, classify, j, end)
  {
    if below == 0 then None
    else if StillOpen(lines, classify, below - 1, end) then Some(below - 1)
    else NearestScope(lines, classify, end, below - 1)
  }

  /** The name of the scope whose body includes line `i`. */
  ghost function ContainerOf(lines: seq<string>, classify: Classifier, i: nat): string
    requires i < |lines|
  {
    match NearestScope(lines, classify, i + 1, i)
    case None => ""
    case Some(j) => classify(lines[j]).value.name
  }

  ghost function SymbolAt(path: string, lines: seq<string>, classify: Classifier, i: nat): seq<Symbol>
    requires i < |lines|
  {
    match classify(lines[i])
    case None => []
    case Some(hit) =>
      [Symbol(hit.kind, hit.name, ContainerOf(lines, classify, i), path, i + 1, hit.start + 1)]
  }

  /** The symbols of the first `n` lines, each with its nearest enclosing scope. */
  ghost function SymbolsUpTo(path: string, lines: seq<string>, classify: Classifier, n: nat): seq<Symbol>
    requires n <= |lines|
  {
    if n == 0 then [] else SymbolsUpTo(path, lines, classify, n - 1) + SymbolAt(path, lines, classify, n - 1)
  }

  ghost function SymbolsOf(path: string, lines: seq<string>, classify: Classifier): seq<Symbol> {
    SymbolsUpTo(path, lines, classify, |lines|)
  }

  /** Every symbol names its file and a real position in it, so the index keeps all of them. */
  lemma {:induction false} SymbolRows(path: string, lines: seq<string>, classify: Classifier, n: nat)
    requires n <= |lines|
    ensures forall row :: row in SymbolsUpTo(path, lines, classify, n) ==>
              row.path == path && 1 <= row.line <= n && 1 <= row.column
  {
    if n == 0 {
    } else {
      SymbolRows(path, lines, classify, n - 1);
    }
  }

  datatype Scope = Scope(indent: nat, name: string)

  /** The stack is the list of scopes still open at `end`, outermost first, with growing indents. */
  ghost predicate StackAt(lines: seq<string>, classify: Classifier, end: nat, stack: seq<Scope>, starts: seq<nat>)
    requires end <= |lines|
  {
    && |starts| == |stack|
    && (forall s :: 0 <= s < |starts| ==>
         StillOpen(lines, classify, starts[s], end) &&
         stack[s] == Scope(Indent(lines[starts[s]]), classify(lines[starts[s]]).value.name))
    && (forall s, t :: 0 <= s < t < |starts| ==> starts[s] < starts[t] && stack[s].indent < stack[t].indent)
    && (forall j :: StillOpen(lines, classify, j, end) ==> j in starts)
  }

  /** Dropping the scopes that line `i` closes leaves exactly those whose body includes it. */
  lemma PoppedStack(lines: seq<string>, classify: Classifier, i: nat, stack: seq<Scope>, starts: seq<nat>, kept: nat)
    requires i < |lines| && StackAt(lines, classify, i, stack, starts)
    requires kept <= |stack|
    requires forall s :: kept <= s < |stack| ==> Indent(lines[i]) <= stack[s].indent
    requires kept > 0 ==> stack[kept - 1].indent < Indent(lines[i])
    ensures forall j :: 0 <= j < i ==> (StillOpen(lines, classify, j, i + 1) <==> j in starts[..kept])
  {
    forall j | 0 <= j < i ensures StillOpen(lines, classify, j, i + 1) <==> j in starts[..kept] {
      if StillOpen(lines, classify, j, i + 1) {
        assert StillOpen(lines, classify, j, i) && Inside(lines, j, i);
      }
      if j in starts[..kept] {
        var s :| 0 <= s < kept && starts[s] == j;
        assert stack[s].indent <= stack[kept - 1].indent;
        assert Inside(lines, j, i);
      }
    }
  }

  lemma TopIsContainer(lines: seq<string>, classify: Classifier, i: nat, stack: seq<Scope>, starts: seq<nat>, kept: nat)
    requires i < |lines| && StackAt(lines, classify, i, stack, starts) && kept <= |stack|
    requires forall j :: 0 <= j < i ==> (StillOpen(lines, classify, j, i + 1) <==> j in starts[..kept])
    ensures ContainerOf(lines, classify, i) == if kept > 0 then stack[kept - 1].name else ""
  {
    var scope := NearestScope(lines, classify, i + 1, i);
    if kept > 0 {
      assert starts[kept - 1] in starts[..kept];
      assert StillOpen(lines, classify, starts[kept - 1], i + 1);
    }
    if scope.Some? {
      assert scope.value in starts[..kept];
      var s :| 0 <= s < kept && starts[s] == scope.value;
      assert starts[kept - 1] <= scope.value;
    }
  }

  /** The scopes left after closing are the stack for the next line. */
  lemma KeptStack(lines: seq<string>, classify: Classifier, i: nat, stack: seq<Scope>, starts: seq<nat>,
                  kept: seq<Scope>)
    requires i < |lines| && StackAt(lines, classify, i, stack, starts)
    requires kept <= stack
    requires forall j :: 0 <= j < i ==> (StillOpen(lines, classify, j, i + 1) <==> j in starts[..|kept|])
    requires !OpensScope(lines[i], classify)
    ensures StackAt(lines, classify, i + 1, kept, starts[..|kept|])
  {
    var next := starts[..|kept|];
    forall s | 0 <= s < |next| ensures StillOpen(lines, classify, next[s], i + 1) {
      assert next[s] in next;
    }
  }

  lemma PushedStack(lines: seq<string>, classify: Classifier, i: nat, stack: seq<Scope>, starts: seq<nat>,
                    kept: seq<Scope>)
    requires i < |lines| && StackAt(lines, classify, i, stack, starts)
    requires kept <= stack
    requires forall j :: 0 <= j < i ==> (StillOpen(lines, classify, j, i + 1) <==> j in starts[..|kept|])
    requires OpensScope(lines[i], classify)
    requires kept != [] ==> kept[|kept| - 1].indent < Indent(lines[i])
    ensures StackAt(lines, classify, i + 1,
                    kept + [Scope(Indent(lines[i]), classify(lines[i]).value.name)], starts[..|kept|] + [i])
  {
    var next := starts[..|kept|] + [i];
    forall s | 0 <= s < |kept| ensures StillOpen(lines, classify, next[s], i + 1) {
      assert next[s] in starts[..|kept|];
    }
    assert StillOpen(lines, classify, i, i + 1);
    assert i in next;
    forall j | StillOpen(lines, classify, j, i + 1) ensures j in next {
      assert j == i || j in starts[..|kept|];
    }
  }

  /** The scopes that stay open under a line with this indent. */
  function Leave(stack: seq<Scope>, indent: nat): seq<Scope> {
    if stack == [] || stack[|stack| - 1].indent < indent then stack
    else Leave(stack[..|stack| - 1], indent)
  }

  lemma {:induction false} LeaveDropsDeeper(stack: seq<Scope>, indent: nat)
    ensures
      var kept := Leave(stack, indent);
      && |kept| <= |stack| && kept == stack[..|kept|]
      && (kept != [] ==> kept[|kept| - 1].indent < indent)
      && forall s :: |kept| <= s < |stack| ==> indent <= stack[s].indent
  {
    if !(stack == [] || stack[|stack| - 1].indent < indent) {
      LeaveDropsDeeper(stack[..|stack| - 1], indent);
    }
  }

  /** The stack after a line: leave the scopes it closes, then enter the one it opens. */
  function NextStack(stack: seq<Scope>, line: string, classify: Classifier): seq<Scope> {
    var kept := Leave(stack, Indent(line));
    if OpensScope(line, classify) then kept + [Scope(Indent(line), classify(line).value.name)] else kept
  }

  ghost function StackFor(lines: seq<string>, classify: Classifier, end: nat): seq<Scope>
    requires end <= |lines|
  {
    if end == 0 then [] else NextStack(StackFor(lines, classify, end - 1), lines[end - 1], classify)
  }

  /** The running stack always holds exactly the open scopes, with strictly growing indents. */
  lemma {:induction false} StackHoldsOpenScopes(lines: seq<string>, classify: Classifier, end: nat)
    returns (starts: seq<nat>)
    requires end <= |lines|
    ensures StackAt(lines, classify, end, StackFor(lines, classify, end), starts)
  {
    if end == 0 {
      return [];
    }
    var stack := StackFor(lines, classify, end - 1);
    var before := StackHoldsOpenScopes(lines, classify, end - 1);
    starts := NextStackHolds(lines, classify, end - 1, stack, before, StackFor(lines, classify, end));
  }

  lemma NextStackHolds(lines: seq<string>, classify: Classifier, i: nat, stack: seq<Scope>, before: seq<nat>,
                       next: seq<Scope>)
    returns (starts: seq<nat>)
    requires i < |lines| && StackAt(lines, classify, i, stack, before) && next == NextStack(stack, lines[i], classify)
    ensures StackAt(lines, classify, i + 1, next, starts)
  {
    var kept := Leave(stack, Indent(lines[i]));
    LeaveDropsDeeper(stack, Indent(lines[i]));
    PoppedStack(lines, classify, i, stack, before, |kept|);
    if OpensScope(lines[i], classify) {
      PushedStack(lines, classify, i, stack, before, kept);
      starts := before[..|kept|] + [i];
    } else {
      KeptStack(lines, classify, i, stack, before, kept);
      starts := before[..|kept|];
    }
  }

  /** What the loop reads off its stack is the declarative nearest encloser. */
  lemma TopOfStackIsContainer(lines: seq<string>, classify: Classifier, i: nat)
    requires i < |lines|
    ensures
      var kept := Leave(StackFor(lines, classify, i), Indent(lines[i]));
      ContainerOf(lines, classify, i) == if kept != [] then kept[|kept| - 1].name else ""
  {
    var starts := StackHoldsOpenScopes(lines, classify, i);
    var stack := StackFor(lines, classify, i);
    var kept := Leave(stack, Indent(lines[i]));
    LeaveDropsDeeper(stack, Indent(lines[i]));
    PoppedStack(lines, classify, i, stack, starts, |kept|);
    TopIsContainer(lines, classify, i, stack, starts, |kept|);
  }

  /** The inner loop: leave every scope that the line is not indented deeper than. */
  method LeaveScopes(stack: seq<Scope>, indent: nat) returns (containers: seq<Scope>)
    ensures containers == Leave(stack, indent)
  {
    containers := stack;
    while containers != [] && indent <= containers[|containers| - 1].indent
      invariant Leave(containers, indent) == Leave(stack, indent)
    {
      containers := containers[..|containers| - 1];
    }
  }

  /** What one line adds to the symbols and to the stack, once deeper scopes are left. */
  lemma NextLine(path: string, lines: seq<string>, classify: Classifier, i: nat, kept: seq<Scope>)
    requires i < |lines| && kept == Leave(StackFor(lines, classify, i), Indent(lines[i]))
    ensures
      var found, container := classify(lines[i]), if kept != [] then kept[|kept| - 1].name else "";
      && SymbolsUpTo(path, lines, classify, i + 1) == SymbolsUpTo(path, lines, classify, i) +
           (match found
            case None => []
            case Some(hit) => [Symbol(hit.kind, hit.name, container, path, i + 1, hit.start + 1)])
      && StackFor(lines, classify, i + 1)
         == if found.Some? && !found.value.kind.Variable? then kept + [Scope(Indent(lines[i]), found.value.name)]
            else kept
  {
    TopOfStackIsContainer(lines, classify, i);
  }

  /** `_regex_symbols`. */
  method RegexSymbols(path: string, lines: seq<string>, classify: Classifier) returns (results: seq<Symbol>)
    ensures results == SymbolsOf(path, lines, classify)
  {
    results := [];
    var containers: seq<Scope> := [];
    for i := 0 to |lines|
      invariant containers == StackFor(lines, classify, i)
      invariant results == SymbolsUpTo(path, lines, classify, i)
    {
      var indent := Indent(lines[i]);
      containers := LeaveScopes(containers, indent);
      NextLine(path, lines, classify, i, containers);
      var found := classify(lines[i]);
      if found.Some? {
        var hit := found.value;
        var container := if containers != [] then containers[|containers| - 1].name else "";
        results := results + [Symbol(hit.kind, hit.name, container, path, i + 1, hit.start + 1)];
        if !hit.kind.Variable? {
          containers := containers + [Scope(indent, hit.name)];
        }
      }
    }
  }
}
