# LSP client session manager, modelled in Dafny

This project models the core of the NetBeans LSP client: the code that starts language servers, keeps track of them and reacts to what they send.

- **Capabilities.** What a server announces in its initialize result (`LSPServerCapabilities`, `LSPInitializeResult`). Each feature is announced as "boolean or options object", and these files decide from that encoding whether the feature is supported.
- **Handshake.** The `initialize` handshake (`initServer`). It polls every 100 ms and gives up with empty capabilities only when the server's process is seen dead.
- **Session registry** (`LSPBindingFactory`, and the older copy in `LSPBindings`):
  - a MIME table of weakly held sessions, keyed by folder URI and MIME type;
  - an extension table of sessions attached by socket, keyed by workspace root;
  - a keep-alive map of last-use timestamps, which the reaper sweeps every five minutes;
  - the restarter a provider is handed;
  - shutdown of every server on IDE exit;
  - the cleanup that `LSPReference` runs once a session has been garbage-collected.
- **Background-task tables** (`LSPWorkingPool`, and the copy in `LSPBindings`). These map each file to its tasks and to the requests that run them. Posting and cancelling a request are recorded as events.
- **Language client callbacks** (`LanguageClientImpl`): the code-action flag, diagnostics turned into editor errors, log-level routing, and the configuration, workspace-folder and apply-edit replies.
- **Diagnostics merger** (`HintsAndErrorsProvider`). A per-URI cache keyed by document version. Lists of diagnostics for the same version are merged, and a newer version (or version 0) starts afresh. It also holds the lazily computed fix list of a diagnostic.
- **Communication log** (`LogStorage`, `LogLine`). An append-only list. It can be switched off, and it suppresses a line whose message repeats the previous line's. Its table model shows the lines.
- **Document cache** (`DocumentStructureProvider`). Parsed document data, registered if absent and closed on unregistering.
- **Folding** (`FoldManagerImpl`). Folding ranges are turned into code-block folds. A missing start character defaults to 0; a missing end character ends the fold at the end of the end line.

Everything outside the process is a parameter or a recorded event:

| outside effect | how it is modelled |
|---|---|
| the clock | `now` |
| processes that are still alive | `alive` |
| sessions the garbage collector has cleared | `collected` |
| what each initialize poll observes | a sequence of `PollEvent` |
| what the language-server providers answer | a sequence of `ProviderReply` |
| offsets in the editor document (`Utils.getOffset`) | a function `Position -> int` |
| posting or cancelling a request, shutting a server down, destroying a process | events appended to a log |

Java's `null` is modelled as `Option`. A Java exception is modelled as a `Failure` of `Result`, where the source lets one escape. Four behaviours of the source are easy to miss:
- A null `ServerCapabilities` is not treated as "unsupported": every query on it faults (`Capabilities.NullCapabilitiesFault`).
- In the model's tag encoding of `Either`, `hasReferenceSupport` faults on a `Left(null)` (it unboxes null), and it answers false for a `Right(null)` where the other queries answer true (`Capabilities.ReferenceSupportVersusAnnounced`). lsp4j itself tests the payload, so these two cases are the model's (see "## Left out").
- `addBackgroundTask` replaces a task's earlier request without cancelling it (`WorkingPool.Pool.AddBackgroundTask`).
- A server that dies during the handshake yields a result with empty capabilities, not an error (`Handshake.DeadProcessYieldsEmptyCapabilities`).

## Model

| member | source | states |
|---|---|---|
| Capabilities.Query | src/org/netbeans/modules/lsp/client/model/LSPServerCapabilities.java:46-60 | every availability query faults exactly when the wrapped capabilities are null |
| Capabilities.HasReferenceSupport | src/org/netbeans/modules/lsp/client/model/LSPServerCapabilities.java:65-77 | null capabilities fault; otherwise the Left boolean itself, true for Right with options, false for Right(null) or absent |
| Capabilities.ReferenceSupportVersusAnnounced | src/org/netbeans/modules/lsp/client/model/LSPServerCapabilities.java:58-77 | reference support agrees with what was announced except that Left(null) faults and Right(null) is unsupported, unlike the generic rule |
| Capabilities.TranslateAvailabilityVersusAnnounced | src/org/netbeans/modules/lsp/client/model/LSPServerCapabilities.java:58-60 | the availability rule holds exactly for an announced feature or a Right(null) |
| Capabilities.HasRenameSupport | src/org/netbeans/modules/lsp/client/model/LSPServerCapabilities.java:83-86 | faults iff null capabilities, else the availability of the rename provider |
| Capabilities.HasDocumentSymbolSupport | src/org/netbeans/modules/lsp/client/model/LSPServerCapabilities.java:98-101 | faults iff null capabilities, else the availability of the document-symbol provider |
| Capabilities.HasDocumentFormattingSupport | src/org/netbeans/modules/lsp/client/model/LSPServerCapabilities.java:103-106 | faults iff null capabilities, else the availability of the formatting provider |
| Capabilities.HasDocumentRangeFormattingSupport | src/org/netbeans/modules/lsp/client/model/LSPServerCapabilities.java:108-111 | faults iff null capabilities, else the availability of the range-formatting provider |
| Capabilities.HasDocumentHighlightSupport | src/org/netbeans/modules/lsp/client/model/LSPServerCapabilities.java:116-119 | faults iff null capabilities, else the availability of the highlight provider |
| Capabilities.HasCodeActionSupport | src/org/netbeans/modules/lsp/client/model/LSPServerCapabilities.java:129-137 | faults iff null capabilities, else the availability of the code-action provider |
| Capabilities.HasFoldingRangeSupport | src/org/netbeans/modules/lsp/client/model/LSPServerCapabilities.java:139-142 | faults iff null capabilities, else the availability of the folding-range provider |
| Capabilities.HasHoverSupport | src/org/netbeans/modules/lsp/client/model/LSPServerCapabilities.java:152-155 | faults iff null capabilities, else the availability of the hover provider |
| Capabilities.GetHoverProviderOptions | src/org/netbeans/modules/lsp/client/model/LSPServerCapabilities.java:144-150 | options are present exactly for a Right hover provider with a value, and then hover is supported |
| Capabilities.GetCompletionProvider | src/org/netbeans/modules/lsp/client/model/LSPServerCapabilities.java:88-90 | the raw completion field, unchanged; faults on null capabilities |
| Capabilities.GetTextDocumentSync | src/org/netbeans/modules/lsp/client/model/LSPServerCapabilities.java:121-123 | the raw text-document-sync field, unchanged; faults on null capabilities |
| Capabilities.GetCodeActionProvider | src/org/netbeans/modules/lsp/client/model/LSPServerCapabilities.java:125-127 | the raw code-action field, unchanged; faults on null capabilities |
| Capabilities.GetSignatureHelpProviderOptions | src/org/netbeans/modules/lsp/client/model/LSPServerCapabilities.java:157-160 | the raw signature-help field, unchanged; faults on null capabilities |
| Capabilities.GetSemanticTokensProvider | src/org/netbeans/modules/lsp/client/model/LSPServerCapabilities.java:162-164 | the raw semantic-tokens field, unchanged; faults on null capabilities |
| Capabilities.EncodingsOfAvailability | src/org/netbeans/modules/lsp/client/model/LSPServerCapabilities.java:58-86 | true, an options object and an absent field give supported, supported and unsupported |
| Capabilities.EmptyCapabilitiesSupportNothing | src/org/netbeans/modules/lsp/client/model/LSPServerCapabilities.java:58-155 | an empty ServerCapabilities supports nothing and has no hover options, without a fault |
| Capabilities.NullCapabilitiesFault | src/org/netbeans/modules/lsp/client/model/LSPServerCapabilities.java:46-50 | over null capabilities every support query faults |
| Capabilities.NewLspInitializeResult | src/org/netbeans/modules/lsp/client/model/LSPInitializeResult.java:33-45 | keeps the original result; wraps its capabilities, or null for a null result, once and for all |
| Capabilities.GetServerInfo | src/org/netbeans/modules/lsp/client/model/LSPInitializeResult.java:47-49 | faults exactly for a null original result, otherwise its server info |
| Handshake.InitServer | src/org/netbeans/modules/lsp/client/LSPBindingFactory.java:373-390 | the poll loop ends as the handshake outcome says, having used only polls that keep it waiting; it is still waiting only when every poll does |
| Handshake.InitializedSentIffAnswered | src/org/netbeans/modules/lsp/client/LSPBindingFactory.java:374-381 | `initialized` is sent exactly when a non-null answer arrives before anything else ends the loop |
| Handshake.DeadProcessYieldsEmptyCapabilities | src/org/netbeans/modules/lsp/client/LSPBindingFactory.java:382-389 | a timeout that finds the given process dead ends the loop with an empty-capabilities result that supports nothing; later polls are irrelevant |
| Handshake.NoProcessOnlyEndsByAnswer | src/org/netbeans/modules/lsp/client/LSPBindings.java:357-371 | without a process the loop ends only on an answer, and it sends `initialized` iff that answer is non-null |
| Sessions.Session.constructor | src/org/netbeans/modules/lsp/client/LSPBindings.java:396-400 | a new session wraps its initialize result and starts with no opened files |
| Sessions.SlicesUsedBounds | src/org/netbeans/modules/lsp/client/LSPBindings.java:521-529 | a capped shutdown wait uses at most the cap, all of it only when every slice is pending, and otherwise stops right after a completed slice |
| Sessions.AwaitShutdownAsWritten | src/org/netbeans/modules/lsp/client/LSPBindings.java:521-529 | the loop as written waits up to the cap that `i--` and int wrap-around give |
| Sessions.AwaitShutdown | src/org/netbeans/modules/lsp/client/LSPBindings.java:521-529 | the intended wait: at most 300 slices of 100 ms |
| Sessions.NeverAnsweringServer | src/org/netbeans/modules/lsp/client/LSPBindings.java:521-529 | against a server that never answers, the loop as written polls 2^31+1 times and the intended one 300 times |
| Sessions.ReferenceCleanup | src/org/netbeans/modules/lsp/client/LSPBindings.java:516-538 | a null process faults; a dead one is left alone; a live one gets shutdown, the wait as the loop is written (up to 2^31+1 polls), exit, and destroy unless it exited in 30 s |
| Sessions.ReferenceCleanupCorrected | src/org/netbeans/modules/lsp/client/LSPBindings.java:516-538 | the same events with the intended shutdown wait of at most 300 polls |
| EditorHints.SeverityOf | src/org/netbeans/modules/lsp/client/bindings/hints/HintsAndErrorsProvider.java:62-69 | Error to ERROR, Warning to WARNING, Hint and Information to HINT, no severity to none, each both ways |
| EditorHints.Describe | src/org/netbeans/modules/lsp/client/bindings/hints/HintsAndErrorsProvider.java:94-97 | an error description carries the mapped severity, the message, the fix list and the document offsets of the range |
| EditorHints.DiagnosticFixList.constructor | src/org/netbeans/modules/lsp/client/bindings/hints/HintsAndErrorsProvider.java:152-155 | a new fix list is neither computing nor computed and has started nothing |
| EditorHints.DiagnosticFixList.GetFixes | src/org/netbeans/modules/lsp/client/bindings/hints/HintsAndErrorsProvider.java:173-198 | starts one computation only when neither computing nor computed, never more than one, and returns fixes iff computed |
| EditorHints.DiagnosticFixList.ComputationSucceeded | src/org/netbeans/modules/lsp/client/bindings/hints/HintsAndErrorsProvider.java:184-190 | a completed computation stores the fixes and marks the list computed and no longer computing |
| EditorHints.DiagnosticFixList.IsComputed | src/org/netbeans/modules/lsp/client/bindings/hints/HintsAndErrorsProvider.java:201-203 | computed exactly when fixes are stored |
| Log.ErrorLine | src/org/netbeans/modules/lsp/client/log/LogLine.java:11-13 | an ERROR line with the message, stamped now |
| Log.WarningLine | src/org/netbeans/modules/lsp/client/log/LogLine.java:15-17 | a WARNING line with the message, stamped now |
| Log.InfoLine | src/org/netbeans/modules/lsp/client/log/LogLine.java:19-21 | a HINT line with the message, stamped now |
| Log.IntToString | src/org/netbeans/modules/lsp/client/log/LogLine.java:51-53 | the decimal timestamp text is non-empty and has no blank |
| Log.NatToStringRoundTrip | src/org/netbeans/modules/lsp/client/log/LogLine.java:51-53 | decimal digits of a natural number parse back to it |
| Log.IntToStringRoundTrip | src/org/netbeans/modules/lsp/client/log/LogLine.java:51-53 | the printed timestamp, negative ones included, parses back to it |
| Log.ToStringRoundTrip | src/org/netbeans/modules/lsp/client/log/LogLine.java:51-53 | `level timestamp {message}` parses back to the line's level, timestamp and message text |
| Log.AddedKeepsLines | src/org/netbeans/modules/lsp/client/log/LogStorage.java:68-84 | add keeps every earlier line, grows by one exactly when enabled and the message differs from the last, and keeps adjacent messages distinct |
| Log.AddTwiceOnce | src/org/netbeans/modules/lsp/client/log/LogStorage.java:76-82 | adding a line whose message repeats the one just added changes nothing |
| Log.LogStorage.constructor | src/org/netbeans/modules/lsp/client/log/LogStorage.java:18-21 | capacity 5000, logging and console logging off, no lines |
| Log.LogStorage.Clear | src/org/netbeans/modules/lsp/client/log/LogStorage.java:24-27 | empties the lines and keeps the flags |
| Log.LogStorage.EnableLogging | src/org/netbeans/modules/lsp/client/log/LogStorage.java:29-31 | logging on, nothing else changed |
| Log.LogStorage.DisableLogging | src/org/netbeans/modules/lsp/client/log/LogStorage.java:33-35 | logging off, nothing else changed |
| Log.LogStorage.ToggleLogging | src/org/netbeans/modules/lsp/client/log/LogStorage.java:37-39 | flips logging, nothing else changed |
| Log.LogStorage.SetLoggingEnabled | src/org/netbeans/modules/lsp/client/log/LogStorage.java:41-47 | logging set to the value, nothing else changed |
| Log.LogStorage.SetConsoleLogging | src/org/netbeans/modules/lsp/client/log/LogStorage.java:61-63 | console logging set to the value, nothing else changed |
| Log.LogStorage.Add | src/org/netbeans/modules/lsp/client/log/LogStorage.java:68-96 | the lines become the added list, which keeps adjacent messages distinct; an appended line is echoed to the console when console logging is on |
| Log.LogStorage.Error | src/org/netbeans/modules/lsp/client/log/LogStorage.java:98-100 | adds an ERROR line with the message as `add` does, and echoes it to the console exactly when it was added and console logging is on |
| Log.LogStorage.Warning | src/org/netbeans/modules/lsp/client/log/LogStorage.java:101-103 | adds a WARNING line with the message as `add` does, and echoes it to the console exactly when it was added and console logging is on |
| Log.LogStorage.Info | src/org/netbeans/modules/lsp/client/log/LogStorage.java:104-106 | adds a HINT line with the message as `add` does, and echoes it to the console exactly when it was added and console logging is on |
| Log.LogStorage.GetRowCount | src/org/netbeans/modules/lsp/client/log/LogStorage.java:120-122 | one row per line |
| Log.LogStorage.GetColumnName | src/org/netbeans/modules/lsp/client/log/LogStorage.java:125-132 | columns 0, 1, 2 are severity, timestamp, message, and every other column is "raw", each both ways |
| Log.LogStorage.GetColumnCount | src/org/netbeans/modules/lsp/client/log/LogStorage.java:148-150 | three columns |
| Log.LogStorage.GetValueAt | src/org/netbeans/modules/lsp/client/log/LogStorage.java:153-167 | level, timestamp or message of an in-range row; "row i" past the end; "column c" for other columns; a negative row faults |
| LanguageClient.RouteLevel | src/org/netbeans/modules/lsp/client/bindings/LanguageClientImpl.java:169-179 | Error routes to ERROR, Warning to WARNING, every other type to HINT, each both ways |
| LanguageClient.Configuration | src/org/netbeans/modules/lsp/client/bindings/LanguageClientImpl.java:191-201 | one null per requested item |
| LanguageClient.WorkspaceFolders | src/org/netbeans/modules/lsp/client/bindings/LanguageClientImpl.java:213-222 | no workspace folders |
| LanguageClient.ApplyEdit | src/org/netbeans/modules/lsp/client/bindings/LanguageClientImpl.java:138-141 | the edit is always reported applied |
| LanguageClient.LanguageClientImpl.constructor | src/org/netbeans/modules/lsp/client/bindings/LanguageClientImpl.java:97-98 | no session, code actions off |
| LanguageClient.LanguageClientImpl.SetBindings | src/org/netbeans/modules/lsp/client/bindings/LanguageClientImpl.java:100-103 | stores the session; code actions follow its code-action support; a null session faults after the store |
| LanguageClient.LanguageClientImpl.FixesFor | src/org/netbeans/modules/lsp/client/bindings/LanguageClientImpl.java:122-124 | a lazy fix list for the diagnostic iff code actions are allowed |
| LanguageClient.LanguageClientImpl.PublishDiagnostics | src/org/netbeans/modules/lsp/client/bindings/LanguageClientImpl.java:115-130 | a missing file faults on null, a relative URI faults in `toURL`, a malformed URI or unopened document sets nothing, an open document gets one description per diagnostic, in order |
| LanguageClient.LanguageClientImpl.PublishedErrorsFollowDiagnostics | src/org/netbeans/modules/lsp/client/bindings/LanguageClientImpl.java:122-126 | the i-th published error has the i-th diagnostic's mapped severity, message and offsets, and a lazy fix list exactly when code actions are allowed |
| LanguageClient.LogMessage | src/org/netbeans/modules/lsp/client/bindings/LanguageClientImpl.java:169-179 | a null type faults and changes neither the log nor the console; otherwise a line of the routed level is added to the log and echoed to the console as `add` does; the logging switches are kept |
| Hints.VersionOf | src/org/netbeans/modules/lsp/client/bindings/hints/HintsAndErrorsProvider.java:104 | a missing version counts as -1 |
| Hints.DiagnosticSet | src/org/netbeans/modules/lsp/client/bindings/hints/HintsAndErrorsProvider.java:136-139 | the diagnostics of a list, as a set |
| Hints.DiagnosticsDifferingInDetailsBothKept | src/org/netbeans/modules/lsp/client/bindings/hints/HintsAndErrorsProvider.java:136-139 | two diagnostics equal in range, severity and message but not in their other fields (such as their source) stay two elements of the set |
| Hints.NextMergerRules | src/org/netbeans/modules/lsp/client/bindings/hints/HintsAndErrorsProvider.java:103-120 | nothing cached or version 0 gives a fresh merger; a newer version a fresh one; an equal or older version keeps the cached one |
| Hints.VersionZeroResets | src/org/netbeans/modules/lsp/client/bindings/hints/HintsAndErrorsProvider.java:106-110 | version 0 keeps only the diagnostics just received |
| Hints.StaleDiagnosticsAreMergedIn | src/org/netbeans/modules/lsp/client/bindings/hints/HintsAndErrorsProvider.java:117-119 | diagnostics for an older version are merged into the newer cached set |
| Hints.SameVersionAccumulates | src/org/netbeans/modules/lsp/client/bindings/hints/HintsAndErrorsProvider.java:103-139 | publishes of one version accumulate the union of all their diagnostics |
| Hints.NewVersionCollectsOnlyItsOwn | src/org/netbeans/modules/lsp/client/bindings/hints/HintsAndErrorsProvider.java:111-139 | after a newer version arrives, only diagnostics of that version are kept |
| Hints.ErrorFor | src/org/netbeans/modules/lsp/client/bindings/hints/HintsAndErrorsProvider.java:94-97 | mapped severity and message, with a lazy fix list for the diagnostic |
| Hints.HintsAndErrorsProvider.constructor | src/org/netbeans/modules/lsp/client/bindings/hints/HintsAndErrorsProvider.java:72-76 | an empty cache |
| Hints.HintsAndErrorsProvider.Get | src/org/netbeans/modules/lsp/client/bindings/hints/HintsAndErrorsProvider.java:103-120 | the merger the version rules choose, stored for the URI only |
| Hints.HintsAndErrorsProvider.Transform | src/org/netbeans/modules/lsp/client/bindings/hints/HintsAndErrorsProvider.java:86-92 | the cache is updated with the merged set and one error is returned per diagnostic in it |
| WorkingPool.Find | src/org/netbeans/modules/lsp/client/LSPWorkingPool.java:60-82 | a request is found iff the task is in the table, and it is that task's entry |
| WorkingPool.PutSpec | src/org/netbeans/modules/lsp/client/LSPWorkingPool.java:55 | put keeps tasks distinct, maps the task to the new request and leaves other tasks alone |
| WorkingPool.RemoveSpec | src/org/netbeans/modules/lsp/client/LSPWorkingPool.java:61 | remove keeps tasks distinct, drops the task and leaves other tasks alone |
| WorkingPool.PostsOf | src/org/netbeans/modules/lsp/client/LSPWorkingPool.java:84-86 | one post with delay 500 per registered request, in table order |
| WorkingPool.RunRequest | src/org/netbeans/modules/lsp/client/LSPWorkingPool.java:46-53 | a request runs its task exactly when the file has a session, with that session |
| WorkingPool.Pool.constructor | src/org/netbeans/modules/lsp/client/LSPWorkingPool.java:42 | no tables and no events |
| WorkingPool.Pool.TableFor | src/org/netbeans/modules/lsp/client/LSPWorkingPool.java:88-90 | the file's table, empty when absent |
| WorkingPool.Pool.AddBackgroundTask | src/org/netbeans/modules/lsp/client/LSPWorkingPool.java:45-57 | a fresh request is stored for the task, replacing any earlier one without a cancel, and posted with delay 500 |
| WorkingPool.Pool.RemoveBackgroundTask | src/org/netbeans/modules/lsp/client/LSPWorkingPool.java:60-66 | the task is removed and its request cancelled; an absent task cancels nothing; only this file's table changes |
| WorkingPool.Pool.RescheduleBackgroundTask | src/org/netbeans/modules/lsp/client/LSPWorkingPool.java:76-82 | the stored request is posted again iff the task is registered; the table does not change |
| WorkingPool.Pool.ScheduleBackgroundTasks | src/org/netbeans/modules/lsp/client/LSPWorkingPool.java:84-86 | every request of the file is posted, in table order, and nothing for other files |
| WorkingPool.PutEntriesOlder | src/org/netbeans/modules/lsp/client/LSPWorkingPool.java:55 | put keeps every stored request older than the next request to be made |
| WorkingPool.RemoveEntriesOlder | src/org/netbeans/modules/lsp/client/LSPWorkingPool.java:61 | remove keeps every stored request older than the next request to be made |
| WorkingPool.AddThenRemove | src/org/netbeans/modules/lsp/client/LSPWorkingPool.java:55-61 | after add the task finds its new request; after a remove it finds none |
| WorkingPool.RegisteredRequestsArePosted | src/org/netbeans/modules/lsp/client/LSPWorkingPool.java:84-86 | scheduling a file posts every registered task's request |
| Registry.FirstProviderDecides | src/org/netbeans/modules/lsp/client/LSPBindingFactory.java:287-317 | there is no server iff every provider is passed over; otherwise the first provider not passed over decides |
| Registry.ReuseComesFromBoundDescription | src/org/netbeans/modules/lsp/client/LSPBindingFactory.java:291-295 | a reused session is the one its description was already bound to |
| Registry.KeyDir | src/org/netbeans/modules/lsp/client/LSPBindingFactory.java:177-185 | a given project directory is the key as is; without one, the key is the file's immediate parent, absent only for the root |
| Registry.Cached | src/org/netbeans/modules/lsp/client/LSPBindingFactory.java:187-193 | a session is cached for (uri, mime) iff the table has an entry whose session has not been collected |
| Registry.AllBindingsMembers | src/org/netbeans/modules/lsp/client/LSPBindingFactory.java:254-269 | a session is in getAllBindings iff the MIME table still refers to it or the extension table binds it |
| Registry.FirstContainingRoot | src/org/netbeans/modules/lsp/client/LSPBindingFactory.java:143-153 | the first root, in iteration order, that contains the file, or none when none does |
| Registry.ExtensionMap | src/org/netbeans/modules/lsp/client/LSPBindingFactory.java:244-245 | every given extension, and only those, maps to the one new session |
| Registry.ExtensionSessionsAfterBinding | src/org/netbeans/modules/lsp/client/LSPBindingFactory.java:244-245 | binding a root adds no session but the new one |
| Registry.ReaperPartitions | src/org/netbeans/modules/lsp/client/LSPBindingFactory.java:113-128 | the reaper splits the keep-alive map into recent entries, kept with their stamps, and stale ones |
| Registry.BindingFactory.constructor | src/org/netbeans/modules/lsp/client/LSPBindingFactory.java:96-98 | empty tables, keep-alive map and event log |
| Registry.BindingFactory.Collect | src/org/netbeans/modules/lsp/client/LSPBindingFactory.java:190-192 | the collector clears only a session nobody holds strongly, and it leaves getAllBindings |
| Registry.BindingFactory.BuildBindings | src/org/netbeans/modules/lsp/client/LSPBindingFactory.java:273-318 | the outcome follows the first deciding provider; a started session is new and wraps its handshake result; opened files are re-announced only after a start |
| Registry.BindingFactory.BuildAndStore | src/org/netbeans/modules/lsp/client/LSPBindingFactory.java:199-212 | a built session is stored under (uri, mime), stamped now and announced; a failed build stores nothing |
| Registry.BindingFactory.GetBindingsImpl | src/org/netbeans/modules/lsp/client/LSPBindingFactory.java:176-213 | a live cached session is returned as is; otherwise one is built and stored; every returned session is stamped now and is in getAllBindings |
| Registry.BindingFactory.GetBindingForFile | src/org/netbeans/modules/lsp/client/LSPBindingFactory.java:142-162 | the first containing root's binding for the extension wins; without one, an unknown MIME type gives none, else the MIME lookup decides |
| Registry.BindingFactory.EnsureServerRunning | src/org/netbeans/modules/lsp/client/LSPBindingFactory.java:216-218 | a lookup keyed by the project directory itself |
| Registry.BindingFactory.AddBindings | src/org/netbeans/modules/lsp/client/LSPBindingFactory.java:222-251 | a handshake answer binds every extension of the root to one new session and announces it; a failed connect, a null answer, null capabilities or a repeated extension bind nothing |
| Registry.BindingFactory.Reap | src/org/netbeans/modules/lsp/client/LSPBindingFactory.java:107-133 | exactly the entries older than ten minutes are removed and each is shut down once; recent entries and the tables are untouched |
| Registry.BindingFactory.LegacyReap | src/org/netbeans/modules/lsp/client/LSPBindings.java:112-133 | the same sweep, destroying the process of each swept session that has one |
| Registry.BindingFactory.Restart | src/org/netbeans/modules/lsp/client/LSPBindingFactory.java:275-285 | the (uri, mime) entry is removed; a still-referenced session leaves the keep-alive map and is shut down and killed |
| Registry.BindingFactory.LegacyRestart | src/org/netbeans/modules/lsp/client/LSPBindings.java:216-234 | the same removal, then an awaited shutdown and a destroy of a non-null process |
| Registry.BindingFactory.Cleanup | src/org/netbeans/modules/lsp/client/LSPBindingFactory.java:394-416 | every session of getAllBindings, and no other, is killed once |
| Registry.BindingFactory.LegacyCleanup | src/org/netbeans/modules/lsp/client/LSPBindings.java:474-496 | every referenced session with a process, and no other, has its process destroyed once |
| Registry.LookupTwice | src/org/netbeans/modules/lsp/client/LSPBindingFactory.java:188-197 | a second lookup while the first session's process lives returns that session without building, restamped |
| Registry.Enumerate | src/org/netbeans/modules/lsp/client/LSPBindingFactory.java:400-412 | iterating the sessions visits each exactly once |
| Registry.SweepStale | src/org/netbeans/modules/lsp/client/LSPBindingFactory.java:116-128 | the iterator sweep keeps exactly the entries stamped no earlier than the cut-off and sweeps each of the others once |
| Registry.WithProcess | src/org/netbeans/modules/lsp/client/LSPBindings.java:480-494 | exactly the sessions that have a process, as a subsequence of the input (same relative order) |
| Registry.DestroyEach | src/org/netbeans/modules/lsp/client/LSPBindings.java:128-129 | one destroy per session, in order |
| Registry.FindDuplicate | src/org/netbeans/modules/lsp/client/LSPBindingFactory.java:244-245 | a repeated extension is found iff there is one |
| DocumentStructure.Registered | src/org/netbeans/modules/lsp/client/bindings/symbols/DocumentStructureProvider.java:45-49 | registering adds the URI; a present entry keeps its data whatever document is offered; other entries are kept |
| DocumentStructure.Unregistered | src/org/netbeans/modules/lsp/client/bindings/symbols/DocumentStructureProvider.java:56-58 | only the URI's entry is removed |
| DocumentStructure.RegisteredKeyedByUri | src/org/netbeans/modules/lsp/client/bindings/symbols/DocumentStructureProvider.java:40-63 | registering and unregistering keep every entry under its own URI |
| DocumentStructure.RegisterIsIdempotent | src/org/netbeans/modules/lsp/client/bindings/symbols/DocumentStructureProvider.java:45-49 | a second registration of a URI changes nothing and the first document's data stays |
| DocumentStructure.UnregisterUndoesRegister | src/org/netbeans/modules/lsp/client/bindings/symbols/DocumentStructureProvider.java:45-63 | unregistering a first-time registration restores the cache |
| DocumentStructure.DocumentStructureProvider.constructor | src/org/netbeans/modules/lsp/client/bindings/symbols/DocumentStructureProvider.java:36-38 | an empty cache |
| DocumentStructure.DocumentStructureProvider.Register | src/org/netbeans/modules/lsp/client/bindings/symbols/DocumentStructureProvider.java:40-50 | a null document or file gives null and changes nothing; otherwise the URI's data, created with one refresh posted only when absent |
| DocumentStructure.DocumentStructureProvider.Unregister | src/org/netbeans/modules/lsp/client/bindings/symbols/DocumentStructureProvider.java:52-63 | a null file changes nothing; otherwise the entry is removed and closed once if present |
| Folds.ComputeRanges | src/org/netbeans/modules/lsp/client/bindings/FoldManagerImpl.java:142-153 | null capabilities fault; no folding support or a failed request gives the empty list; otherwise the server's list |
| Folds.RangeToFold | src/org/netbeans/modules/lsp/client/bindings/FoldManagerImpl.java:119-126 | a code-block fold starting at the start line and start character, 0 when absent |
| Folds.FoldsOf | src/org/netbeans/modules/lsp/client/bindings/FoldManagerImpl.java:116-128 | one fold per range, in range order |
| Folds.FoldBounds | src/org/netbeans/modules/lsp/client/bindings/FoldManagerImpl.java:119-125 | with monotone offsets a range not ending before its start gives start <= end; without an end character the fold ends just before the next line |
| Folds.MissingStartCharacterIsZero | src/org/netbeans/modules/lsp/client/bindings/FoldManagerImpl.java:119 | a missing start character is the same as 0, and the end rule does not move the start |
| Folds.Run | src/org/netbeans/modules/lsp/client/bindings/FoldManagerImpl.java:109-128 | no document gives no update; otherwise one fold per computed range in order, none for a null list; null capabilities fault |
| Folds.FoldManager.constructor | src/org/netbeans/modules/lsp/client/bindings/FoldManagerImpl.java:161-163 | no file yet |
| Folds.FoldManager.InitFolds | src/org/netbeans/modules/lsp/client/bindings/FoldManagerImpl.java:65-74 | remembers the file and registers the manager as a background task only for a non-null file |
| Folds.FoldManager.Release | src/org/netbeans/modules/lsp/client/bindings/FoldManagerImpl.java:101-106 | a registered manager deregisters and forgets its file; without a file nothing changes |
| Folds.ReleaseTwice | src/org/netbeans/modules/lsp/client/bindings/FoldManagerImpl.java:101-106 | a second release leaves the task tables and the event log as the first left them |

## Left out

- Transport and remote calls: the JSON-RPC launcher and the remote proxy are not modelled. Requests such as `initialize`, `shutdown`, `exit`, `codeAction` and `foldingRange` become inputs (their answers) or logged events.
- Operating-system processes and sockets: a process is the flag `hasProcess`, and liveness is the `alive` parameter. `shutdown`, `shutdownAndKill` and `killRunningServerProcess` of the session are not part of this model, so they appear only as events.
- Sessions.IsProcessAlive: the body of `LSPBindings.isProcessAlive` is not part of this model, only its call at src/org/netbeans/modules/lsp/client/LSPBindingFactory.java:195. The model assumes that a session without a process is never dead and that one with a process is alive exactly when it is in `alive`.
- Weak references and the reference queue: a cleared reference is a session in `collected`, and `LSPReference.run` is modelled for a single collected session.
- RequestProcessor timing, debounce and the effect of `cancel`, and the five-minute reaper schedule: posts and cancels are events, and `now` is a parameter.
- Locks and threads: every operation is atomic. The reaper and restarter lock `LSPBindings.class` while the registry methods synchronize on `LSPBindingFactory.class`, so in the source they do not exclude each other.
- Swing and editor UI: fold-hierarchy rendering, `HintsController`, the log top component and `fireTable*` notifications. `HoverImpl`, `SignatureHelpImpl`, both `CodeLensImpl` classes, `CodeActions`, `MarkOccurrences` and `LSPClientInfo` are editor glue and are not modelled.
- `Utils` is not part of this model. `toURI` is the file's path, `getOffset` a function parameter, and `applyWorkspaceEdit` and `applyCodeAction` are omitted.
- The other `LanguageClientImpl` callbacks only print or return constants, and are not modelled: `telemetryEvent`, `showMessage`, `showMessageRequest`, `registerCapability`, `unregisterCapability`, `showDocument`, progress, trace and the refresh requests.
- `LogStorage` getters: `isLoggingEnabled`, `isConsoleLogging` and `getLines` return fields, and `getColumnClass` returns Java classes.
- `LogStorage.maxCapacity`: it is stored and never consulted, so the list is not bounded.
- Registry.BindingFactory.Cleanup: the source kills a session once per table entry that holds it. The model kills it once per session, so the number of repeated kill calls is not captured.
- Registry.BindingFactory.LegacyCleanup: the source destroys a session's process once per table entry that holds it. The model destroys it once per session, so the number of repeated destroy calls is not captured.
- WorkingPool.Pool.ScheduleBackgroundTasks: "table order" is insertion order only for a file whose table was created by `addBackgroundTask` (a `LinkedHashMap`). A table created first by `removeBackgroundTask`, `rescheduleBackgroundTask` or `scheduleBackgroundTasks` is an `IdentityHashMap`, whose iteration order is unspecified; the model keeps insertion order for every table, and so does WorkingPool.PostsOf.
- Registry.BindingFactory.BuildBindings: a provider's handshake that throws is modelled as that provider being passed over, which is what the catch does. Stream contents and the restarter lookup are not modelled.
- EditorHints.DiagnosticFixList.GetFixes: the background code-action request is not modelled. A failed computation is simply one that never calls `ComputationSucceeded`, so `computing` stays true and the list is never retried.
- Hints.HintsAndErrorsProvider.Transform: the result is the set of error descriptions. The order of the Java list, which follows hash iteration, is not modelled.
- lsp4j is not part of this model. Its `Either` is modelled as a tag (Left or Right) whose payload may be null, and a null field as an absent one. In lsp4j, `isLeft()` and `isRight()` test the payload against null, so an `Either` with a null payload is neither: `translateAvailibility` and `hasReferenceSupport` would answer false for it. The model's `Left(null)` and `Right(null)` cases, with the fault and the answers they give, are therefore not what lsp4j does.
- Java integer overflow is not modelled anywhere except in the shutdown wait, where it decides how many times the loop polls. Timestamps are unbounded integers.
- `DocumentStructureProvider.refresh` is an empty placeholder. It is modelled as `Refresh`, which changes nothing and has no contract to state.

## Findings

| source | as written | input that shows it | evidently intended | confidence | as-written member | corrected member |
|---|---|---|---|---|---|---|
| src/org/netbeans/modules/lsp/client/LSPBindings.java:521-529 | `for (int i = 0; i < 300; i--)`: the counter decrements, so the 300 cap is reached only after it wraps past Integer.MIN_VALUE | a server whose `shutdown` future never completes: the loop polls 2^31+1 times, over six years of 100 ms waits | `i++`, a wait of at most 300 polls (30 s) before `exit` | not executed | Sessions.AwaitShutdownAsWritten | Sessions.AwaitShutdown |
