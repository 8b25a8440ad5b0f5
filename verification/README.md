# OpenFocus control plane: verified model

OpenFocus is a control plane for coding agents. This Dafny project models the parts of it that hold
algorithms or state machines and proves properties of them over all inputs, runs and interleavings.

- **Workspace code navigation** (`RelPath`, `Workspace`, `WalkProperties`, `ListedPaths`, `SpacedPaths`, `SymbolScan`,
  `FileScan`, `CombinedScan`, `SymbolIndex`, `HandedOut`, `IndexedSearch`, `RepeatedFiles`, `IndexedDefinition`, `TtlCache`,
  `CodeNavigation`). A budgeted walk lists a remote workspace; scans read it file by file under a result limit
  and a read budget; a symbol index is built once, cached by the listing's fingerprint, and then used instead of a
  scan. The main results say exactly when the index is invisible, that is, when a request returns
  `FileScan.Reference`, an unbounded scan cut to the limit, whether an index answers it or not: always for symbol
  queries, and for the others unless a file that is listed twice gives it away. A workspace is a listing function, a
  content function and a classifier of lines.
- **Bounded file scan** (`Reach`, `FileListing`, `FilePathLists`, `Sorting`): a graph search with three caps over
  listings that may be cyclic or fail, compared with reachability, behind the same kind of cache.
- **Runtime-signal projection** (`AgentActivity`, `AgentActivityRuns`): signals drive three linked tables.
- **Control channel** (`ControlChannel`, `ControlRuns`, `ControlProtocol`): the server's table of pending calls, against
  any messages in any order, and together with its serial companion, over every interleaving.
- **Streams** (`LinePump`, `TerminalHistory`): incremental loops that equal a one-shot definition.
- **Attention inbox** (`Attention`), **shortcut settings** (`ShortcutNames`, `ShortcutKeys`, `Shortcuts`,
  `ShortcutSafety`, `BuiltInShortcuts`, `KeyEvents`), **double-shift detector** (`DoubleShift`), **busy polling** (`BusyPolling`),
  **hook installer** (`HookInstall`, `AgentHooks`) and **file references** (`WorkspacePaths`, `FileReferences`,
  `Stripping`, `ReferenceSearch`, `ReferenceParts`, `ReferenceRoundTrip`, `MessageRoundTrip`, `MistakenReferences`).

`Basics` and `Text` hold shared building blocks. Objects whose methods update fields are classes; each method is
proved equal to a step function, and the run theorems are about that function.

`dafny verify dfyconfig.toml` checks the whole project.

## What the proofs found

- Sanitising a path is not idempotent on segments with edge white space (`RelPath.SafeRelPathNotIdempotent`); the
  index theorems need paths that are fixpoints, and `ListedPaths.WellListedWhen` says exactly when that is so. A file
  listed under another path gets no rows from the index, which files them under the sanitised path: a combined search
  then loses its symbols (`SpacedPaths.OneFileAgreesWhen`, `SpacedFileShows`).
- A symbolic link inside the workspace is listed under the path it leads to, so that path is listed twice
  (`openfocus/companion/runtime.py:1820`). The index shows then: a definition is found twice by a scan and once through
  the index, and the rows of a combined search come in another order. `IndexedDefinition.IndexedDefinitionAgrees` and
  `IndexedSearch.IndexedSearchAgrees` say exactly when; `ListedPaths.LinkedFileFoundOnce` and `LinkedFileTorn` give
  workspaces.
- The directory cap of the file scan is checked before each listing too, but that guard can never be what stops it:
  a directory is only pushed while the cap allows it.
- A signal that makes turns run or wait and names an ended turn reopens it (`AgentActivityRuns.EndedTurnReopens`). A
  session can get two active turns in three ways, all by a signal that names a turn: an ended turn is reopened in the
  session of the signal, or, if the signal names none, in its own (`ReopenedBesideAnother`), or a turn that is still
  active is moved into the session of the signal (`MovedBesideAnother`, `MovedRun`). `StepStaysSingle` and
  `RunsStaySingle` say that there are no others.
- A successful report can be shown as failed because of a word in its texts: an agent that completed with `0 failed`
  is (`Attention.SuccessShownAsFailure`, `NoFailureShownAsFailure`).
- `TERM_HISTORY_MAX_BYTES` is 1 GB, as its own comment says; a comment in the trimming code says 1 MB. The model
  follows the constant (`openfocus/infrastructure/streaming.py:30`, line 387).
- Resetting a shortcut is not validated and can create a conflict (`BuiltInShortcuts.ResetCanConflict`); setting a
  shortcut for one platform silently drops a binding shared by all (`ShortcutSafety.SetOnOnePlatform`).
- The guard for a blocked double-shift detector is dead code (`DoubleShift.BlockedMeansHeld`).
- Nothing is ever found below a workspace root `/`, and a file whose name ends in a full stop, comma or semicolon
  cannot be reached by its absolute path (`ReferenceRoundTrip.RelativeInvertsJoin`, `WorkspaceRelativeOfJoin`); a
  file without slash or extension, such as `Makefile`, cannot be read back from its reference
  (`ReferenceRoundTrip.ParseWritten`).
- The file `@types/node.ts` is written as `@@types/node.ts`, and reading strips two prefixes
  (`frontend/src/lib/fileReferences.ts:80` and line 110): the message opens `types/node.ts`
  (`ReferenceRoundTrip.AtSignIsLost`, `MessageRoundTrip.MessageOpensAnother`).
- A path with white space is never read back from its reference, since the direct attempt is skipped and no candidate
  contains white space (`MessageRoundTrip.MessageReadsExactly`): `my dir/a.ts` is written `@my dir/a.ts`, and the
  message opens `dir/a.ts` (`MistakenReferences.SpaceOpensAnother`). An extension of more than 16 characters is cut,
  and the line is lost with the rest (`MistakenReferences.LongExtensionOpensAnother`).

## Model

| member | source | states |
|---|---|---|
| `RelPath.SafeRelPathIsClean` | openfocus/domains/code_navigation/service.py:1231-1245 | whatever a companion lists, a kept path is made of real segments only: no parent step, nothing absolute |
| `RelPath.CleanPathFixpoint` | openfocus/domains/code_navigation/service.py:1231-1245 | sanitising a clean path changes nothing if and only if the path has no white space at either end |
| `RelPath.SafeRelPathNotIdempotent` | openfocus/domains/code_navigation/service.py:1231-1245 | a family of paths (`name + " /."`) that sanitising changes a second time |
| `RelPath.SafeListPathRefines` | openfocus/domains/companion/service.py:759-775 | the file list refuses everything the navigation service refuses, and spells what it keeps the same way |
| `Workspace.TraversalBudget.ConsumePath` | openfocus/domains/code_navigation/service.py:156-169 | a path is granted exactly while the path budget lasts; a refusal marks the budget truncated |
| `Workspace.TraversalBudget.ConsumeRead` | openfocus/domains/code_navigation/service.py:156-176 | the same for reads |
| `Workspace.PathSource.ListDirectory` | openfocus/domains/code_navigation/service.py:240-262 | listing the directory on top of the stack takes the walk one listing further |
| `Workspace.PathSource.ReadEntry` | openfocus/domains/code_navigation/service.py:262-283 | one entry is skipped, pushed, yielded or refused by the budget, and the rest of the walk is what the specification says |
| `Workspace.PathSource.Next` | openfocus/domains/code_navigation/service.py:240-283 | the lazy walk yields exactly the items of the walk it stands for, one by one, then ends, is cut or fails |
| `Workspace.ListPaths` | openfocus/domains/code_navigation/service.py:846-860 | the listing of a workspace is the specified walk; at most 1 + the path budget directories are requested, on every cyclic listing function |
| `WalkProperties.CompleteWalkYieldsReachableFiles` | openfocus/domains/code_navigation/service.py:240-283 | a walk that is not cut yields an item if and only if it is an included, non-excluded file of a directory reachable through non-excluded directories |
| `WalkProperties.TreeWalkYieldsOnce` | openfocus/domains/code_navigation/service.py:240-283 | on tree-shaped listings no path is yielded twice, cut or not |
| `ListedPaths.WalkStaysInside` | openfocus/domains/code_navigation/service.py:240-283 | no walk yields a path that leaves the workspace root |
| `ListedPaths.WellListedWhen` | openfocus/domains/code_navigation/service.py:240-283 | on a tree of files no request shows whether an index answered, and the paths are what the index needs if and only if none begins or ends with white space |
| `ListedPaths.LinkedFileFoundOnce` | openfocus/companion/runtime.py:1804-1833 | a link inside the workspace, which is reported under the path it leads to, is enough: for every clean path, a workspace whose complete index finds a definition once that the scan finds twice |
| `ListedPaths.LinkedFileTorn` | openfocus/companion/runtime.py:1804-1833 | the same link makes the order of a combined search's rows depend on whether an index was used |
| `SpacedPaths.IndexGivesNothing` | openfocus/domains/code_navigation/service.py:935-942 | in any listing whose paths sanitising settles at once, a file that is listed under a path that sanitising changes gets no row from the index |
| `SpacedPaths.OneFileAgreesWhen` | openfocus/domains/code_navigation/service.py:461-489 | a workspace with one such file: a combined search shows the same rows with an index as without if and only if the file has no wanted symbols or its other rows fill the limit |
| `SpacedPaths.SpacedFileShows` | openfocus/domains/code_navigation/service.py:461-489 | for every plain file name, a workspace whose companion reports it with a space and a trailing dot segment: every combined search that finds its symbol shows whether there is an index |
| `SymbolScan.RegexSymbols` | openfocus/domains/code_navigation/service.py:1120-1154 | the stack loop gives each symbol the container of a definition that knows no stack: the latest earlier scope line with everything since indented deeper |
| `SymbolScan.StackHoldsOpenScopes` | openfocus/domains/code_navigation/service.py:1130-1152 | the running stack is the list of scopes still open, outermost first, with strictly increasing indents |
| `SymbolScan.TopOfStackIsContainer` | openfocus/domains/code_navigation/service.py:1136-1142 | what the loop reads off its stack is the nearest encloser |
| `SymbolScan.SymbolRows` | openfocus/domains/code_navigation/service.py:1143-1152 | every symbol names its file and a real line and column |
| `FileScan.ResultCollector.Add` | openfocus/domains/code_navigation/service.py:139-153 | a row is added exactly below the limit, and reaching the limit sets the flag |
| `FileScan.AddTextRows` | openfocus/domains/code_navigation/service.py:748-762 | the text matches of a file are collected in order up to the limit |
| `FileScan.AddSymbolRows` | openfocus/domains/code_navigation/service.py:765-772 | the wanted symbols of a file are collected in order up to the limit |
| `FileScan.ReadText` | openfocus/domains/code_navigation/service.py:285-312 | a binary path costs no read; any other costs one, and yields its content unless the request fails or the content is binary |
| `FileScan.SymbolResultsForFile` | openfocus/domains/code_navigation/service.py:1058-1064 | the symbols of a file are those of the classifier for its language, or none |
| `FileScan.StoppedEarly` | openfocus/domains/code_navigation/service.py:540-571 | a scan that stops at the limit or the read budget already has the answer of the whole scan |
| `FileScan.ScanFile` | openfocus/domains/code_navigation/service.py:540-571 | one file of a symbol or definition scan keeps the collected rows in step with the unbounded scan |
| `FileScan.ScanFiles` | openfocus/domains/code_navigation/service.py:540-571 | the interleaved list-read-collect loop returns the reference answer: the unbounded scan cut to the limit, with the exact truncation flag and listing errors only where they are reached |
| `CombinedScan.AddInside` | openfocus/domains/code_navigation/service.py:458-512 | a file's text rows come first, then index rows or, without an index, its own symbols |
| `CombinedScan.SearchItem` | openfocus/domains/code_navigation/service.py:446-515 | one item of a combined search, with every early exit, keeps the collected rows in step with the specification |
| `CombinedScan.ScanSource` | openfocus/domains/code_navigation/service.py:422-515 | the loop over a listed or lazily listed workspace equals the unbounded scan cut to the limit |
| `CombinedScan.SearchScan` | openfocus/domains/code_navigation/service.py:422-515 | `_search_scan` with or without index rows returns the specified answer |
| `SymbolIndex.AppendSymbols` | openfocus/domains/code_navigation/service.py:879-893 | symbols are taken up to the 10,000 cap, and overflow is noticed exactly when one more comes |
| `SymbolIndex.IndexFile` | openfocus/domains/code_navigation/service.py:872-893 | one file of the build costs one read or is skipped, and extends the index by its own symbols |
| `SymbolIndex.BuildSymbolIndex` | openfocus/domains/code_navigation/service.py:863-896 | the build with its early exits is the first 10,000 symbols of all readable files, flagged exactly if the listing was cut, a read was refused or the cap was hit |
| `SymbolIndex.AnswerFromIndex` | openfocus/domains/code_navigation/service.py:899-932 | a query against an index is the filtered index cut to the limit, flagged if cut or the index is incomplete |
| `SymbolIndex.ScanIsFilteredGather` | openfocus/domains/code_navigation/service.py:540-571 | a scan for symbols is the filter of everything an index build gathers |
| `SymbolIndex.IndexAnswersLikeScan` | openfocus/domains/code_navigation/service.py:518-571 | unless the cap was hit an index answers a symbol query with the rows and flag of the scan; if it was, the rows are a prefix and the flag is set |
| `IndexedSearch.SymbolsByPath` | openfocus/domains/code_navigation/service.py:935-942 | index rows are grouped by sanitised path, in order, rows without a path dropped |
| `HandedOut.SameExactlyWhen` | openfocus/domains/code_navigation/service.py:461-489 | handing out the first `limit` symbol rows by path, all of them where the path comes first, shows the same first `limit` rows as listing each file's own where it stands, if and only if no file is torn from its last occurrence by other rows below the limit |
| `IndexedSearch.PiecesAreMixed` | openfocus/domains/code_navigation/service.py:422-515 | under every read budget, a combined search with an index adds for each file its text rows and what the table of index rows has left for its path |
| `IndexedSearch.OfferedIsHanded` | openfocus/domains/code_navigation/service.py:919-942 | the table built from the first `limit` index rows holds for each path its share of them |
| `IndexedSearch.IndexedSearchAgrees` | openfocus/domains/code_navigation/service.py:357-396 | below the symbol cap, for every listing of canonical paths, query, limit and budget: a combined search returns the same rows, order and flag with an index as without, if and only if no repeated file is torn |
| `IndexedSearch.FileListedTwiceIsTorn` | openfocus/domains/code_navigation/service.py:461-489 | a file that is listed twice and has matching text and wanted symbols below the limit is torn |
| `IndexedSearch.GroupedRowsSupply` | openfocus/domains/code_navigation/service.py:935-942 | the table built from the index rows holds, for every path, exactly that path's rows |
| `IndexedDefinition.DefinitionFromIndex` | openfocus/domains/code_navigation/service.py:625-666 | the lookup that reads only files defining the name equals its specification under the limit and the read budget |
| `RepeatedFiles.SameExactlyWhen` | openfocus/domains/code_navigation/service.py:642-658 | reading each file once gives the same first `limit` rows as reading it as often as it is listed, if and only if the limit is reached before a file with rows is repeated |
| `IndexedDefinition.LookupIsOnce` | openfocus/domains/code_navigation/service.py:634-666 | for every listing that can be read whole, the scan finds the rows of each file as often as it is listed and the lookup finds them once, within no more reads |
| `IndexedDefinition.LookupIsScan` | openfocus/domains/code_navigation/service.py:634-666 | reading only the files that define the name finds the rows that reading all of them finds, if and only if no file that defines it is listed again |
| `IndexedDefinition.IndexedDefinitionAgrees` | openfocus/domains/code_navigation/service.py:598-666 | with an untruncated index a definition request returns exactly the full scan's rows and flag, if and only if the result limit is reached before a file that defines the name is listed again |
| `IndexedDefinition.FileListedTwice` | openfocus/domains/code_navigation/service.py:634-666 | a file listed twice is found twice by the scan and once by the lookup, and the answers differ unless it has no rows or fills the limit |
| `TtlCache.Cache.Get` | openfocus/domains/code_navigation/service.py:980-988 | expired entries are dropped; what is found was stored under this key at most the lifetime ago |
| `TtlCache.Cache.Store` | openfocus/domains/code_navigation/service.py:991-1021 | an entry is stored after dropping expired ones and, if the cache is still full, one that is oldest |
| `CodeNavigation.Service.CachedIndex` | openfocus/domains/code_navigation/service.py:836-860 | an index is found exactly when the workspace can be listed and a fresh one is cached for it, and it is the one a fresh build would give now |
| `CodeNavigation.Service.Index` | openfocus/domains/code_navigation/service.py:822-833 | cached or built, the index is the current one; none only when the workspace cannot be listed |
| `CodeNavigation.Service.Symbols` | openfocus/domains/code_navigation/service.py:518-537 | over any history of requests and any listing of canonical paths, repeated or not, symbol requests return the reference answer, or with the cap hit a truncated prefix of it |
| `CodeNavigation.Service.SearchAll` | openfocus/domains/code_navigation/service.py:315-396 | over any history of requests, a combined search returns the reference answer when no fresh index is cached or the listing fails; with a cached index below the cap, if and only if no repeated file is torn; and with an incomplete index the flag is always set |
| `CodeNavigation.Service.SearchFilesOrText` | openfocus/domains/code_navigation/service.py:315-356 | file and text searches return the reference answer |
| `CodeNavigation.Service.DefinitionOf` | openfocus/domains/code_navigation/service.py:583-631 | definition requests return the full scan's answer whenever the listing fails or the index is truncated, and otherwise if and only if the limit is reached before a file that defines the name is listed again |
| `FileListing.ReadDirectory` | openfocus/domains/companion/service.py:683-736 | reading a directory records only what it lists, misses nothing unless a cap is hit, and stays within every cap |
| `FileListing.Search` | openfocus/domains/companion/service.py:660-745 | the stack search visits reachable directories only, each at most once, and terminates on cyclic listings |
| `FileListing.ScanFilePaths` | openfocus/domains/companion/service.py:660-756 | for any cyclic or failing listing function: untruncated, the paths are exactly those reachable through successful listings, strictly sorted; truncated, a subset within every cap with a cap reached; an error exactly when the root fails |
| `FileListing.ScanStaysInside` | openfocus/domains/companion/service.py:660-756 | whatever the companion replies, a scan lists no file outside the root and no path with a NUL, and asks for no such directory |
| `FilePathLists.Service.List` | openfocus/domains/companion/service.py:532-566 | hit or miss the answer is a correct scan; a refresh always scans; a failed root is never cached |
| `FilePathLists.ListsStayInside` | openfocus/domains/companion/service.py:532-566 | cached or not, no file list holds a path outside the root |
| `AgentActivity.LookupsAreNewest` | openfocus/domains/agent_activity/service.py:276-300 | the three lookups find the newest turn with the id, or active in the session, or active for the task |
| `AgentActivity.Service.HandleRuntimeSignal` | openfocus/domains/agent_activity/service.py:467-641 | the class method with its table updates equals the specified step |
| `AgentActivity.Service.UpsertSession` | openfocus/domains/agent_activity/service.py:228-273 | one session row is created or refreshed, keeping what the signal leaves empty |
| `AgentActivity.Service.UpdateActivity` | openfocus/domains/agent_activity/service.py:402-447 | one activity row shows the turn and is not dismissed |
| `AgentActivity.Service.EnsureTurn` | openfocus/domains/agent_activity/service.py:303-337 | the turn found, or a new running one at the end of the table |
| `AgentActivity.Service.StaleActiveTurns` | openfocus/domains/agent_activity/service.py:644-677 | every active turn of the session with an existing task goes stale, with its activity row |
| `AgentActivity.Service.Dismiss` | openfocus/domains/agent_activity/service.py:680-690 | only the dismissed mark of one row changes; an unknown item is reported |
| `AgentActivity.StepAgrees` | openfocus/domains/agent_activity/service.py:467-677 | every signal keeps each activity row the image of the turn it points to, as long as that turn is still the task's, also across moves and session-end sweeps |
| `AgentActivityRuns.RunsAgree` | openfocus/domains/agent_activity/service.py:402-677 | the agreement holds in every reachable state |
| `AgentActivityRuns.AnonymousRunsAreSingle` | openfocus/domains/agent_activity/service.py:276-337 | in runs without turn identifiers no non-empty session ever has two active turns |
| `AgentActivityRuns.AnonymousRunsNeverReopen` | openfocus/domains/agent_activity/service.py:276-337 | in such runs a turn that has ended stays exactly as it ended |
| `AgentActivityRuns.SteadyRunsAreSinglePerTask` | openfocus/domains/agent_activity/service.py:170-225 | if moreover each session keeps to one task, no task ever has two active turns |
| `AgentActivityRuns.EndedTurnReopens` | openfocus/domains/agent_activity/service.py:276-337 | an ended turn becomes active again if and only if a signal of a kind that makes turns run or wait names it by its identifier, for a task that exists |
| `AgentActivityRuns.StepStaysSingle` | openfocus/domains/agent_activity/service.py:276-337 | from tables in which no non-empty session has two active turns, a signal leads to such tables if and only if it does not make a turn that it names by its identifier run or wait, for a task that exists, in a session in which another turn is active |
| `AgentActivityRuns.RunsStaySingle` | openfocus/domains/agent_activity/service.py:467-641 | in a run no non-empty session ever has two active turns if and only if no signal of the run does that |
| `AgentActivityRuns.ReopenedBesideAnother` | openfocus/domains/agent_activity/service.py:276-337 | one way: an ended turn is reopened beside an active one, in the session that the signal names or in its own |
| `AgentActivityRuns.MovedBesideAnother` | openfocus/domains/agent_activity/service.py:276-337 | the other way: an active turn is moved into a session in which another turn is active |
| `AgentActivityRuns.MovedRun` | openfocus/domains/agent_activity/service.py:467-641 | two turns that start in two sessions and one signal of the second session that names the first turn: the session has both, and no turn has ended |
| `ControlChannel.CompanionConnection.StartRequest` | openfocus/companion/grpc.py:149-165 | a request registers its future under its id and is sent |
| `ControlChannel.CompanionConnection.FinishRequest` | openfocus/companion/grpc.py:149-165 | returning or raising removes the entry |
| `ControlChannel.CompanionConnection.HandleIncoming` | openfocus/companion/grpc.py:637-792 | a reply settles the future registered under its id if the kind fits and it is still open, and does nothing otherwise |
| `ControlChannel.CompanionConnection.Close` | openfocus/companion/grpc.py:104-113 | the loop over the table closes exactly the open futures and empties the table |
| `ControlChannel.CloseSettlesEverything` | openfocus/companion/grpc.py:104-113 | after close nothing waits and nothing settled before has changed |
| `ControlChannel.OnlyAnswersMatter` | openfocus/companion/grpc.py:637-792 | a message changes the state if and only if it answers a waiting call with that call's id and kind |
| `ControlChannel.ReusedIdOrphansCall` | openfocus/companion/grpc.py:149-165 | why the run theorems ask for distinct ids, which the source draws at random: under a reused id only the first call's own timeout would settle it |
| `ControlProtocol.RunsConserve` | openfocus/companion/runtime.py:2041-2500 | in every interleaving requests not yet handled and replies not yet delivered account for exactly the calls sent, in order |
| `ControlProtocol.QuietMeansSettled` | openfocus/companion/runtime.py:2041-2500 | once nothing is under way no call is left waiting |
| `ControlRuns.AnswersAreOwn` | openfocus/companion/grpc.py:637-792 | against any companion, whatever messages arrive in whatever order, an answer carries the id and kind of the call it settles |
| `ControlRuns.OutcomesAreFinal` | openfocus/companion/grpc.py:104-165 | in all such runs a future is settled at most once: its outcome never changes again |
| `ControlRuns.OnlyAnswersChangeRuns` | openfocus/companion/grpc.py:637-792 | in all such runs a message changes something if and only if it is an awaited answer: unsolicited, repeated, late and wrong-kind messages do nothing |
| `ControlRuns.ClosedMeansSettled` | openfocus/companion/grpc.py:104-113 | closing after any such run settles every waiting call and empties the table |
| `LinePump.LinesAreUnique` | openfocus/companion/runtime.py:849-854 | there is only one way to cut a text into newline-terminated lines and a tail |
| `LinePump.LinesAreTheText` | openfocus/companion/runtime.py:849-854 | cutting loses nothing: the lines are lines and concatenate to the text |
| `LinePump.TrimIgnoresTheNewline` | openfocus/companion/runtime.py:817-826 | what is tested for noise does not depend on whether the newline has arrived |
| `LinePump.SendLines` | openfocus/companion/runtime.py:848-874 | the inner loop sends the complete lines of the buffer and leaves what follows, whatever comes later |
| `LinePump.Pump` | openfocus/companion/runtime.py:828-877 | for every way of cutting the text into chunks, the sent lines are those of the whole text, tail included, without the noise, in order |
| `LinePump.PumpAgentOutput` | openfocus/companion/runtime.py:817-877 | the same for the noise the client filters |
| `TerminalHistory.FitIsLongest` | openfocus/infrastructure/streaming.py:388-411 | `Fit` drops n rows if and only if the rest fits under the cap and keeping one more would not |
| `TerminalHistory.FitOneMore` | openfocus/infrastructure/streaming.py:373-411 | trimming as the rows come equals trimming the whole history once |
| `TerminalHistory.Oldest` | openfocus/infrastructure/streaming.py:388-406 | the loop that frees enough collects the ids of exactly the rows in excess |
| `TerminalHistory.OthersStay` | openfocus/infrastructure/streaming.py:407-411 | deleting rows of one terminal leaves every other terminal's rows alone |
| `TerminalHistory.TrimmedFits` | openfocus/infrastructure/streaming.py:388-411 | one trimming makes a terminal's rows the longest suffix that fits |
| `TerminalHistory.History.HandleOutput` | openfocus/infrastructure/streaming.py:363-415 | after every output, for every terminal, the stored rows are the longest suffix of its whole output history that fits |
| `Attention.SuccessShownAsFailure` | openfocus/domains/attention/service.py:186-203 | a report with a success status is shown as failed if and only if its kind is not one of the two whose success counts, it brings no next move, and its texts contain a word for failure |
| `Attention.NoFailureShownAsFailure` | openfocus/domains/attention/service.py:186-203 | a completed agent with status `succeeded` and the message `0 failed` is shown as failed |
| `Attention.DuplicateIsNewest` | openfocus/domains/attention/service.py:207-216 | the duplicate is the newest active item of the task and type |
| `Attention.Inbox.CloseMatching` | openfocus/domains/attention/service.py:144-171 | the loop turns exactly the active items of the task with one of the types into acted ones and leaves every other item alone |
| `Attention.CloseKeepsCoherent` | openfocus/domains/attention/service.py:144-171 | closing items never makes two items clash and never makes a closed one active |
| `Attention.PlaceShows` | openfocus/domains/attention/service.py:174-263 | a new report leaves exactly one active item of its task and type, showing its event, none of a type it makes stale, and every other item as it was |
| `Attention.RunsStayCoherent` | openfocus/domains/attention/service.py:144-263 | in every run sources are distinct, each task has at most one active item per type, and never an active running item beside an active completed, failed or blocked one |
| `Attention.ClosedItemsStayClosed` | openfocus/domains/attention/service.py:421-463 | in every run a closed item never becomes active again |
| `Attention.EventsAreHandledOnce` | openfocus/domains/attention/service.py:174-184 | handling an event changes nothing if and only if its source is shown already or it has no type or task; handling it twice is handling it once |
| `Attention.Inbox.ApplyStateTransition` | openfocus/domains/attention/service.py:144-171 | the loop closes the stale items of the task |
| `Attention.Inbox.MaybeCreateFromEvent` | openfocus/domains/attention/service.py:174-263 | the method equals the specified step and returns the item that shows the event |
| `Attention.Inbox.SetItemStatus` | openfocus/domains/attention/service.py:421-437 | only an active item changes; an unknown item or status is an error without a change |
| `Attention.Inbox.MarkMatchingTaskItemsActed` | openfocus/domains/attention/service.py:440-463 | the active items of the task other than next moves become acted |
| `ShortcutNames.KeyNamesOnce` | frontend/src/lib/agentSpaceShortcuts.ts:181-200 | naming a key twice is naming it once |
| `ShortcutKeys.OrderedKeysProperties` | frontend/src/lib/agentSpaceShortcuts.ts:202-212 | ordering keeps the keys, drops repetitions and does nothing the second time |
| `ShortcutKeys.OrderKeys` | frontend/src/lib/agentSpaceShortcuts.ts:202-212 | the two loops compute the modifiers in fixed order, then the other keys as they first occur |
| `ShortcutKeys.NormalizeOnce` | frontend/src/lib/agentSpaceShortcuts.ts:214-224 | normalising a binding is idempotent and keeps its platform |
| `Shortcuts.FindConflictFinds` | frontend/src/lib/agentSpaceShortcuts.ts:294-316 | a conflict is found if and only if another command has a binding with the same signature on a common platform |
| `Shortcuts.SearchConflict` | frontend/src/lib/agentSpaceShortcuts.ts:294-316 | the nested loops return the first conflict |
| `ShortcutSafety.ReplacedConflictFree` | frontend/src/lib/agentSpaceShortcuts.ts:365-390 | replacing a command's bindings keeps settings conflict-free if and only if no new binding conflicts |
| `ShortcutSafety.SetConflictFree` | frontend/src/lib/agentSpaceShortcuts.ts:365-380 | storing a binding keeps settings conflict-free if and only if it has no conflict where it is stored |
| `ShortcutSafety.ClearConflictFree` | frontend/src/lib/agentSpaceShortcuts.ts:382-390 | clearing keeps settings conflict-free |
| `ShortcutSafety.ResetConflictFree` | frontend/src/lib/agentSpaceShortcuts.ts:392-404 | resetting is not validated: it keeps settings conflict-free if and only if no default it restores is taken |
| `ShortcutSafety.ValidatedSetConflictFree` | frontend/src/lib/agentSpaceShortcuts.ts:344-380 | a binding found free may be stored for the platform it was looked up for or a narrower one |
| `ShortcutSafety.RunsStayConflictFree` | frontend/src/lib/agentSpaceShortcuts.ts:344-390 | any run of clears and validated sets keeps conflict-free settings conflict-free |
| `ShortcutSafety.RunsStayAllowed` | frontend/src/lib/agentSpaceShortcuts.ts:334-363 | any run of clears and validated sets keeps every binding one that validation allows |
| `ShortcutSafety.ResolveFinds` | frontend/src/lib/agentSpaceShortcuts.ts:278-288 | a binding is resolved if and only if there is one for the platform |
| `ShortcutSafety.ResolvedKeysDiffer` | frontend/src/lib/agentSpaceShortcuts.ts:278-316 | on mac or other two commands never resolve to the same keys |
| `ShortcutSafety.SetThenResolve` | frontend/src/lib/agentSpaceShortcuts.ts:278-380 | a binding that was set is resolved on the platform it was stored for |
| `ShortcutSafety.SetOnOnePlatform` | frontend/src/lib/agentSpaceShortcuts.ts:365-380 | setting one platform drops a shared binding: the other platform keeps its binding if and only if it had one of its own |
| `ShortcutSafety.ClearThenResolve` | frontend/src/lib/agentSpaceShortcuts.ts:382-390 | a cleared command resolves to nothing on the cleared platform |
| `BuiltInShortcuts.BuiltInIsProper` | frontend/src/lib/agentSpaceShortcuts.ts:65-162 | the built-in keymap normalises once and for all and its defaults are canonical |
| `BuiltInShortcuts.DefaultsAreConflictFree` | frontend/src/lib/agentSpaceShortcuts.ts:65-162 | the defaults are conflict-free |
| `BuiltInShortcuts.SameSignature` | frontend/src/lib/agentSpaceShortcuts.ts:290-292 | two bindings share a signature if and only if cutting their keys at plus signs gives the same pieces, so signatures tell keys without a plus sign apart |
| `BuiltInShortcuts.ResetCanConflict` | frontend/src/lib/agentSpaceShortcuts.ts:392-404 | conflict-free settings that resetting one command makes conflict |
| `BuiltInShortcuts.AtMostOneResponds` | frontend/src/lib/ideaKeymap.ts:257-289 | on mac or other no key event and no double shift matches two commands |
| `BuiltInShortcuts.KeyPressesAreUnambiguous` | frontend/src/lib/ideaKeymap.ts:275-289 | after any run of clears and validated sets on the defaults, a key press runs a command if and only if that command responds, whatever order the commands are asked in |
| `BuiltInShortcuts.OnlyAllowedChordsRun` | frontend/src/lib/ideaKeymap.ts:257-289 | after such a run a chord runs a command only if it has a modifier or is a function key and is not one the browser keeps for itself |
| `DoubleShift.Detector.KeyDown` | frontend/src/lib/ideaKeymap.ts:214-241 | the key-down handler equals the specified step |
| `DoubleShift.Detector.KeyUp` | frontend/src/lib/ideaKeymap.ts:242-249 | the key-up handler equals the specified step |
| `DoubleShift.Detector.ResetAll` | frontend/src/lib/ideaKeymap.ts:250-254 | reset returns to the start state |
| `DoubleShift.StateTells` | frontend/src/lib/ideaKeymap.ts:208-255 | in every trace the fields say which press, if any, can still be the first of a double shift |
| `DoubleShift.FiresExactly` | frontend/src/lib/ideaKeymap.ts:214-241 | the detector triggers if and only if a plain Shift press with no Shift held follows an earlier such press within the timeout that did not trigger, with no other key, reset or two-Shift chord between |
| `DoubleShift.PressesServeOnce` | frontend/src/lib/ideaKeymap.ts:233-239 | no press serves two triggers |
| `DoubleShift.BlockedMeansHeld` | frontend/src/lib/ideaKeymap.ts:226-231 | a blocked detector has a Shift key down in every reachable state, so the guard at line 231 is never taken |
| `BusyPolling.Controller.ScheduleNext` | frontend/src/lib/inspirationBusyPolling.ts:57-62 | `schedule` clears the timer and, if there is something to poll, arms one for a new generation |
| `BusyPolling.Controller.CleanUp` | frontend/src/lib/inspirationBusyPolling.ts:82-86 | `cleanup` clears the timer and starts a new generation |
| `BusyPolling.Controller.TimerFires` | frontend/src/lib/inspirationBusyPolling.ts:62-66 | a timer that fires starts a poll of its generation |
| `BusyPolling.Controller.FetchResolves` | frontend/src/lib/inspirationBusyPolling.ts:66-74 | a result of an old generation is dropped; a busy one is passed on before going on, an idle one ends the polling |
| `BusyPolling.Controller.GoOn` | frontend/src/lib/inspirationBusyPolling.ts:72-79 | a poll goes on exactly if it is still current |
| `BusyPolling.OnePendingCounts` | frontend/src/lib/inspirationBusyPolling.ts:42-88 | the invariant bounds armed timers plus in-flight polls of the current generation by one |
| `BusyPolling.RunsKeepOnePending` | frontend/src/lib/inspirationBusyPolling.ts:42-88 | under every interleaving, re-entrant calls included, armed timers plus in-flight polls of the current generation never exceed one |
| `BusyPolling.CleanupSilences` | frontend/src/lib/inspirationBusyPolling.ts:66-86 | after cleanup, whatever happens next, an earlier poll that comes back makes no callback, arms no timer and changes nothing but its own phase |
| `BusyPolling.BusyGoesOn` | frontend/src/lib/inspirationBusyPolling.ts:66-74 | a current poll that finds the inspiration busy is followed by another one |
| `HookInstall.PruneHooks` | scripts/install_agent_hooks.py:233-251 | one entry keeps exactly the hooks that are not obsolete, and says whether any was dropped |
| `HookInstall.PruneEntries` | scripts/install_agent_hooks.py:221-257 | one event keeps its entries without obsolete hooks, drops entries left empty, and reports a change exactly if something was to be pruned |
| `HookInstall.ConfigFile.Prune` | scripts/install_agent_hooks.py:209-258 | the nested loops prune every event, and the result is true exactly if the data changed |
| `HookInstall.ConfigFile.Ensure` | scripts/install_agent_hooks.py:171-206 | an entry is inserted before the first one of ours exactly if the command is missing |
| `HookInstall.ConfigFile.InstallAll` | scripts/install_agent_hooks.py:273-283 | prune-then-ensure as one step, whose result is true exactly if the data changed |
| `HookInstall.InstallFixpoint` | scripts/install_agent_hooks.py:171-258 | after installing nothing is left to prune and every required event holds its exact command; installing changes nothing if and only if that was so before |
| `HookInstall.InstallOnce` | scripts/install_agent_hooks.py:171-258 | a second install leaves the data equal |
| `HookInstall.InstallKeepsForeign` | scripts/install_agent_hooks.py:171-258 | for every event the sequence of hooks of others, with their entries' other settings, is preserved, for any notion of ours that covers what is installed and what is pruned |
| `AgentHooks.CommandHasSocketAndSpool` | scripts/install_agent_hooks.py:107-120 | every installed command names the socket and the spool directory |
| `AgentHooks.InstalledEventsAreCanonical` | scripts/install_agent_hooks.py:29-63 | no installed Codex event is one of the spellings whose hooks are pruned |
| `AgentHooks.InstallForOnce` | scripts/install_agent_hooks.py:261-283 | an installation is idempotent and every event then runs its exact command |
| `AgentHooks.InstallCodexOnce` | scripts/install_agent_hooks.py:261-294 | idempotence for the Codex events |
| `AgentHooks.InstallClaudeOnce` | scripts/install_agent_hooks.py:338-370 | idempotence for the Claude events |
| `AgentHooks.InstallForKeepsForeign` | scripts/install_agent_hooks.py:209-283 | every hook that neither names the hook's path nor is one of the installed commands survives an installation, in order and with its entry's other settings |
| `AgentHooks.MineNamesThePath` | scripts/install_agent_hooks.py:107-120 | if shell quoting leaves the hook's path readable, a hook is ours if and only if its command names that path |
| `WorkspacePaths.ResolveParts` | frontend/src/lib/fileReferences.ts:127-159 | the push and pop loop computes the resolved parts |
| `WorkspacePaths.ResolvedFails` | frontend/src/lib/fileReferences.ts:127-159 | resolving fails if and only if a part holds a NUL or some prefix leads above the start |
| `WorkspacePaths.NormalizeRelativeCleans` | frontend/src/lib/fileReferences.ts:144-159 | a normalised relative path is clean, and the clean paths are exactly the fixpoints |
| `WorkspacePaths.NormalizeAbsoluteCleans` | frontend/src/lib/fileReferences.ts:127-142 | a normalised absolute path is clean and is a fixpoint |
| `WorkspacePaths.BelowInvertsJoin` | frontend/src/lib/fileReferences.ts:164-171 | below a root other than `/` exactly the clean paths are found that lead from the root to the given path; below `/` nothing is |
| `FileReferences.StripFileReference` | frontend/src/lib/fileReferences.ts:42-56 | the loops strip quotes, brackets and trailing punctuation as specified |
| `Stripping.StripFixpoints` | frontend/src/lib/fileReferences.ts:42-56 | stripping leaves alone exactly the texts without edge white space, quotes, brackets or trailing punctuation, and shortens any other |
| `FileReferences.ExtractCandidates` | frontend/src/lib/fileReferences.ts:67-77 | the loop over the matches of the candidate pattern collects, from left to right, the stripped text of each |
| `ReferenceSearch.MatchHasNoSpace` | frontend/src/lib/fileReferences.ts:67-77 | no candidate contains white space |
| `ReferenceSearch.MatchEndsWhole` | frontend/src/lib/fileReferences.ts:67-77 | no candidate ends inside a written line: it stops before the line or takes all of it |
| `ReferenceParts.ExtractsParts` | frontend/src/lib/fileReferences.ts:67-77 | in a piece of a written reference every candidate is a piece of the path, a piece of the line, or an end of the path with the whole line |
| `ReferenceRoundTrip.PartReads` | frontend/src/lib/fileReferences.ts:79-114 | no such part is read as a path as long as the written one, with the written line, unless the path is readable, and then only without white space if the part has none |
| `ReferenceRoundTrip.ParseWritten` | frontend/src/lib/fileReferences.ts:35-114 | for every clean path, a written reference parses back to the same path and line if and only if stripping leaves the path alone, it does not start with an at sign, it has a slash or an extension and, without a line, it does not itself end like one |
| `ReferenceRoundTrip.TerminalReadsWritten` | frontend/src/lib/fileReferences.ts:116-125 | for every clean path and line, the terminal parser, candidate search included, reads the written reference back if and only if the path is readable and contains no white space |
| `ReferenceRoundTrip.AtSignIsLost` | frontend/src/lib/fileReferences.ts:77-114 | a path that starts with an at sign is read back without it, for every such path that is readable otherwise |
| `MessageRoundTrip.MessageReadsWritten` | frontend/src/lib/fileReferences.ts:35-198 | writing a reference and reading it from a terminal message that carries it first returns the same path and line |
| `MessageRoundTrip.MessageReadsPart` | frontend/src/lib/fileReferences.ts:175-198 | what a message opens is one of the parts of the reference it carries |
| `MessageRoundTrip.MessageReadsExactly` | frontend/src/lib/fileReferences.ts:35-198 | for every clean path and line, without further conditions, a message that carries nothing but the written reference opens this path at this line if and only if the path is readable and without white space |
| `MessageRoundTrip.MessageOpensAnother` | frontend/src/lib/fileReferences.ts:35-198 | the message opens another file for a path that starts with an at sign and is a readable clean path without it |
| `MistakenReferences.SpaceOpensAnother` | frontend/src/lib/fileReferences.ts:67-125 | a path made of a word, a space and a readable path with a slash after a word, as `my dir/a.ts`: the message opens what follows the space, at the written line |
| `MistakenReferences.LongExtensionOpensAnother` | frontend/src/lib/fileReferences.ts:67-125 | for every word, full stop and word of more than 16 characters, the message opens the name with this extension cut to 16, and the line is lost |
| `ReferenceRoundTrip.RelativeStaysInside` | frontend/src/lib/fileReferences.ts:161-173 | what a reference reaches is a clean path: never the root itself nor anything outside it |
| `ReferenceRoundTrip.RelativeInvertsJoin` | frontend/src/lib/fileReferences.ts:161-173 | an absolute path is found at `path` if and only if the root is not `/` and the normalised path is root, slash and that clean path |
| `ReferenceRoundTrip.WorkspaceRelativeOfJoin` | frontend/src/lib/fileReferences.ts:161-173 | joining root and clean path and making it relative again gives the path back if and only if the path does not end in white space, a full stop, a comma or a semicolon |

## Left out

- The `references` endpoint, query and payload validation, the workspace lookup and the `status` endpoint of code navigation: easy members next to `search`.
- Previews of result rows: index rows carry none, so rows are compared without them.
- Regular expressions, `fnmatch` patterns, binary sniffing and file decoding: functions of the workspace, the matcher or the classifier.
- The index cache's fingerprint is taken as the listing itself, that is, as free of collisions.
- Directory replies enter the walk and the file scan in the order they are sorted by (`InReadingOrder`); that a companion replies the same way twice within a request is assumed by modelling the listing as a function.
- CodeNavigation.Service.SearchAll: requests are on files unchanged since the cached build; with an index cut at the 10,000-symbol cap only the flag is promised. Paths that sanitising would change, that is, with white space at an edge, are outside the theorems about indexes; `SpacedPaths` says what becomes of such a file.
- `normalize_kind` and its aliases, titles, summaries, severities and time stamps of runtime signals: signals arrive normalised, and the lookups by agent session, terminal and workspace are one field of the signal.
- New turn identifiers are random; `AgentActivityRuns.RunsAgree` assumes they do not collide with stored ones.
- SQL sessions, locks and transactions: every table update is one atomic step.
- gRPC streams, pings, pairing and the registry of connections: messages arrive in order, and every request kind has the same form. The companion's handlers are reduced to one reply each.
- Decoding of output chunks: the pump is modelled on decoded chunks. A character split between two reads is decoded in two halves by the source, which the model does not show.
- Terminal output: broadcasting, replay limits and the memory audit.
- Attention items: lower-casing, titles, summaries, payloads and the listing for the user; the item's position stands for its row id.
- Numeric conversion of event ids and times; the clock of the double-shift detector is positive.
- `normalizePlatform` of unknown values, recording of shortcuts and their display text; local storage.
- Timer delays of busy polling: when a timer fires is left open, so every delay is covered.
- JSON parsing, backups and writing of hook files, and the Coco YAML installer; configurations are well formed. `shlex.quote` is a function.
- Decoding of file addresses (`file://`) is a function; candidates of a terminal text are kept with repetitions, which the source drops and which do not matter for the first one that can be read; lines and columns are whole numbers.
- FastAPI routes, migrations, React components, LLM calls and memory audit.
