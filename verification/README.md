# Models of the agent shell's stateful cores, with proofs

A Dafny project (`dafny verify dfyconfig.toml`) with models of the parts of the repository that hold state
across calls, awaits or files, and proofs of what they promise over all inputs, all runs and all interleavings.

How things are modelled:

- **Interleaved asynchronous code** (the ACP session, the MCP seam, promise-tail queues) is a state machine. One step is
  one stretch of code between two awaits, or one listener call. A run is any sequence of enabled steps.
- **Objects that the source updates in place** are classes. Each method is proved to end in the state that the transition
  function of the model gives for the old state; the theorems are about that function and its runs.
- **Files** are maps keyed by home, scope or key, with distinct identities. Clocks, hashes, redaction, git, manifests and
  clone results are parameters of the operations.
- **Text** that is printed and parsed (journal, cursor) is a sequence of UTF-16 code units; bytes are bytes.

The modules, by area:

- **ACP prompts.** `AcpLifecycle` has the steps of a session: admission, cancellation, events, statuses, the update chain
  and the settlement coroutine. `AcpTheorems` and `AcpRuns` prove at most one outcome, held with the slot, and the
  precedence of aborts; `AcpProgress` that no interleaving wedges a prompt and every quiet schedule ends in its outcome;
  `AcpOutcomes` the instant and ranking of every outcome; `AcpWindows` the two windows of the protocol; `AcpQuiescence`
  the stable idle instant behind every uncancelled answer; `AcpTurnEnd` the reported end as a fold over the log.
  `AcpRecords` says which step writes which field of a record; on it `AcpCauses` makes every outcome a statement about the
  log, the failed updates and the agent's failures, and `AcpCancellation` says when a prompt counts as cancelled and what
  ends its wait. `AcpSession.dfy` has the objects.
- **Plugin homes.** `PluginState` and `PluginOps` have the stored state (a read-only claude home under a writable dsh
  home) and the mutations. `PluginResolution`, `PluginViews`, `PluginSettings`, `PluginMarketplaces` and `PluginRemoval`
  say when each succeeds and all that it changes. `PluginRefinement`, `PluginAgreement`, `PluginNeutral` and
  `PluginHistories` prove that the layered store behaves like a flat one, with the exact condition, call by call, under
  which the layering does not show. `PluginKnownFile` has an invariant of the known-marketplaces file. `PluginDiscovery`
  compares the loader's separate reader with the manager. `PluginManager.dfy` has the object.
- **Journal and cursors.** `Json`, `JsonRoundTrip`, `JsonGrammar` and `JsonFraming` model printing and parsing, with round
  trip, the grammar of RFC 8259, newline-freeness and prefix-freeness. `Journal` proves tolerance of any cut. `Encodings`
  (UTF-8, base64url) with the tables of their standards in `EncodingTables`, `SessionCursor` and `SessionList` prove the
  paging laws over changing session sets, `SessionOrder` says the order in plain terms (newest first), and `SessionTokens`
  carries the laws over to the opaque tokens that a client is handed.
- **Queues and ledgers.** `TailQueue` (promise tails are serial), `McpSeam` (deferred attach and release),
  `WorkflowCommands` (reference-counted command mounts).
- **Context reduction.** `Microcompact`, `MicrocompactText`, `MicrocompactPasses` and `Microcompactor.dfy`; `Progress`, and
  `ProgressLog` on
  what the log must say for a receipt; `Brief`, `BriefLines`, `BriefBytes`, `BriefAscii` and `BriefOverflow`;
  `CrusherRouter`, and `CrusherRouting` on which text goes where; `CrusherStore`, `CrusherCap` and `CrusherStoreObject`;
  `CostGate`, `CostGateRuns`, and `CostGateLog` on when a compaction starts.
- **Model aliases.** `Aliases`: the resolver against the guard of the chat path; `AliasRules`: what every reference
  resolves to.

Where code and documentation disagree, or a promise holds only under a condition, the model follows the code:

- A settlement can resume for a prompt that no longer holds the slot, although `session.ts:499` calls this impossible: an
  agent error during routing starts it, and a throwing `followup` then refuses the prompt. It is proved inert.
- An abort between `session.ts:298` and `session.ts:305` does not stop the message from being handed to the agent. The
  caller still gets `cancelled`.
- An id whose list was emptied by shadowing still takes part in the bare-name resolution of an uninstall, and in the
  project guard of a marketplace removal, though not in the listing. Adding a marketplace beside a claude-only entry of
  its name shadows or reuses that entry instead of conflicting, and updating a claude-only git entry moves it to a clone
  of its own. `PluginNeutral` has the exact conditions and an input for each.
- A non-boolean flag hides a lower `true` from the manager's listing but not from the loader
  (`PluginDiscovery.JunkCanHide`).
- A marketplace removal leaves entries behind when a list has two entries of one scope. No operation makes such a list,
  but a claude home that records two projects has one (`PluginRemoval.RepeatedScopeIsLeftBehind`).
- A journal line `null` behind good lines, and nothing else, makes the parser throw instead of reporting corruption; a
  line with an unreplayable field, such as an undefined result, makes the whole journal corrupt.
- Session ids that differ only in lone surrogates are tied in the paging order, and one can be lost. Proper Unicode ids
  are never tied.
- `session/list` issues a token for any last key of a page, but accepts only those with an id and a non-negative safe
  creation time. A page that ends in another key cannot be followed (`SessionTokens.RefusedToken`).
- Two live MCP fibers of one name are possible, exactly when two attached registrations of it are undisposed: both can
  have waited for the same release.
- The pause of automatic microcompaction is permanent: a paused session makes no attempt, so no later success can lift the
  pause. With `placeholderChars` too small for the marker, placeholders are not recognised later.
- The crusher's sweep forgets expired entries but leaves their files. The cap of 200 holds in every state of a process
  that starts with an empty directory; over files that an earlier process left, each get that brings one back adds an
  entry, and only the next put or sweep brings the map back to 200.
- The brief's byte ceiling can be exceeded by one or two bytes when the cut falls into a character, as it does for ten
  runs of a command with a long non-ASCII head (`BriefOverflow.BriefCanOverflow`); for ASCII texts it never is, nor is the
  brief ever clipped. The line budget counts a todo with line breaks in it as one line, and a second pass counts the note
  of the first one as a todo.
- The bare part of a model reference may still contain a `$`, if the reference has more of them than its suffix. A literal
  model id with a level is reported as an alias, although `resolver.ts:166-170` keeps that for configured aliases
  (`AliasRules.LevelHidesLiteral`).
- Every System One route is rejected by the chat guard while every marked alias target names a model, as the declared type
  demands (`Aliases.EveryMarkedRouteIsRejected`). The settings layer refuses an object without a model when it is written
  (`service.ts:73-84`). The deployment config is checked by a schema only (`schema.ts:37-42`) that declares the field a
  string of at least one character without marking it as required; this is the one layer through which a target without a
  model could come. Such a target passes the guard and is refused by the two chat projections only
  (`Aliases.GuardCanMiss`).
- After a remount, the commands of saved workflows go away with the last fiber of the newest mount, although fibers of
  older mounts live on.

## Model

| member | source | states |
|---|---|---|
| AcpTheorems.StepKeepsInv | packages/acp/cc-acp/src/session.ts:244-336 | Every interleaved step keeps the record and slot invariants: a record has no outcome exactly while it holds the slot, its settlement starts at most once, it has at most one outcome, and that is explained by the record. |
| AcpRuns.RunKeepsInv | packages/acp/cc-acp/src/session.ts:244-530 | The invariant holds after any number of steps of any run from a fresh session. |
| AcpRuns.StepIsForward | packages/acp/cc-acp/src/session.ts:244-530 | No step takes back an abort, an outcome, a delivery, the first output error or a started settlement of any record. |
| AcpRuns.NewRecordComesFromCall | packages/acp/cc-acp/src/session.ts:249-271 | Records only come from a `prompt` call that finds the slot free in an open session, one at a time. |
| AcpRuns.RunIsForward | packages/acp/cc-acp/src/session.ts:244-530 | Forwardness over whole runs, between any two points. |
| AcpRuns.AtMostOneOutcome | packages/acp/cc-acp/src/session.ts:311-333 | A prompt has no outcome exactly while it holds the slot, gets at most one and keeps it, and at most one settlement is ever started for it. |
| AcpRuns.WaitingPromptIsBeingSettled | packages/acp/cc-acp/src/session.ts:311-333 | A prompt that waits for its completion and has no outcome yet has an unfinished settlement under way. |
| AcpRuns.AbortWins | packages/acp/cc-acp/src/session.ts:514-530 | An abort recorded before the slot is cleared gives `cancelled`, over any output error, agent error or turn end, unless the quiescence wait itself rejected. |
| AcpRuns.UnabortedOutcomeIsExplained | packages/acp/cc-acp/src/session.ts:514-530 | What the outcome of a prompt that was never aborted says about its record at any later time. |
| AcpOutcomes.OthersOnlyRefuse | packages/acp/cc-acp/src/session.ts:244-336 | No step but those of its own settlement answers a prompt, other than by refusing it. |
| AcpOutcomes.OutcomeIsDecidedOnce | packages/acp/cc-acp/src/session.ts:497-530 | Every outcome but a refusal is decided in one instant while the prompt holds the slot: a failed wait, or else abort before output error before agent error before turn end, as they stand at that instant. |
| AcpProgress.StepLosesNothing | packages/acp/cc-acp/src/cancellation-status.ts:53-124 | No step loses a wake-up: an awaited update is queued, a resolved cancellation follows queued updates only, and an unresolved one has its idle fallback armed. |
| AcpProgress.NeverStuck | packages/acp/cc-acp/src/session.ts:244-336 | At every point of every run a prompt without an outcome has a step of its own, or of the update chain, that can happen next. |
| AcpProgress.OwnStepComesNearer | packages/acp/cc-acp/src/cancellation-status.ts:104-124 | With an idle agent every such step brings the prompt strictly nearer to its outcome, however reads, routing, updates and waits turn out. |
| AcpProgress.EveryQuietScheduleSettles | packages/acp/cc-acp/src/session.ts:490-530 | Once the agent is idle and nothing new comes in, every schedule of such steps ends, within the distance left, with exactly one outcome. |
| AcpProgress.DistanceIsBounded | packages/acp/cc-acp/src/session.ts:490-530 | That distance is at most thirteen steps and the updates that have not settled. |
| AcpProgress.EveryPromptCanSettle | packages/acp/cc-acp/src/session.ts:244-530 | Every run goes on, with the agent going idle if it is busy and then such steps only, to a state in which the prompt has exactly one outcome. |
| AcpWindows.CancelledPromptIsNotDelivered | packages/acp/cc-acp/src/session.ts:282-299 | A prompt aborted before its message is marked queued is never handed to the agent. |
| AcpWindows.CancelledPromptIsDelivered | packages/acp/cc-acp/src/session.ts:298-305 | A prompt whose routing is awaited is handed to the agent if routing and `followup` succeed, aborted meanwhile or not. |
| AcpWindows.AbortThenDelivery | packages/acp/cc-acp/src/session.ts:298-305 | A concrete run with an abort first and the delivery of the aborted prompt after it. |
| AcpWindows.SettlementTouchesOnlyItsOwn | packages/acp/cc-acp/src/session.ts:490-530 | A settlement step rewrites nothing but its own record and moves the slot only off itself. |
| AcpWindows.StaleSettlementIsInert | packages/acp/cc-acp/src/session.ts:497-502 | A settlement whose prompt no longer holds the slot changes its own suspension point and nothing else. |
| AcpWindows.StaleSettlementHappens | packages/acp/cc-acp/src/session.ts:497-502 | A concrete run in which a stale settlement resumes while a newer prompt holds the slot. |
| AcpQuiescence.SettlementMoves | packages/acp/cc-acp/src/cancellation-status.ts:104-124 | How one step can move a settlement from one suspension point to the next. |
| AcpQuiescence.LastMove | packages/acp/cc-acp/src/cancellation-status.ts:104-124 | The point at which a settlement is suspended was reached by an identifiable earlier step of its own. |
| AcpQuiescence.LogGrows | packages/acp/cc-acp/src/session.ts:350-399 | Log position, queued updates (as a prefix) and drained updates only grow along a run; the log grows by committed events only. |
| AcpQuiescence.UncancelledSettlementWasQuiescent | packages/acp/cc-acp/src/cancellation-status.ts:104-124 | A non-cancelled wait ended at an instant when the agent was idle, the log position was the one read before a negative descendant check, and the update chain read then had drained. |
| AcpQuiescence.UnqueuedSettlementIsCancelled | packages/acp/cc-acp/src/session.ts:491-513 | A settlement that finds its message unqueued at the end of admission belongs to an aborted prompt. |
| AcpTurnEnd.EndReasonIsTheLogs | packages/acp/cc-acp/src/session.ts:350-412 | The recorded end reason is a fold over the committed events: the last end of the latest turn since the message was claimed. |
| AcpTurnEnd.ReportedStopIsTheLogs | packages/acp/cc-acp/src/session.ts:514-521 | The stop reason that a prompt reports is that of this fold. |
| AcpRecords.StepWrites | packages/acp/cc-acp/src/session.ts:244-530 | Which step writes which cause and which part of the cancellation of a record, field by field; no other step does. |
| AcpRecords.NewRecord | packages/acp/cc-acp/src/session.ts:249-275 | A new record starts without causes, and is cancelled at once if its request's signal is already aborted. |
| AcpRecords.StepLinks | packages/acp/cc-acp/src/session.ts:342-399 | Which step adds which link to the update chain, for which prompt; links settle one at a time. |
| AcpCauses.ChainIsTheLogs | packages/acp/cc-acp/src/session.ts:357-370 | In every run a link of the update chain belongs to a prompt exactly if it brings an assistant message of that prompt's turn while the prompt holds the slot. |
| AcpCauses.OutputErrorIsTheFirst | packages/acp/cc-acp/src/session.ts:357-370 | In every run a record's output error is that of the first link of its own that settled with a failure, and absent exactly if none did. |
| AcpCauses.AgentErrorStands | packages/acp/cc-acp/src/cancellation-status.ts:38-44 | In every run a record's agent error is that of the last failure that it heard of with its message queued, and absent exactly if an end of its turn came after every such failure. |
| AcpCauses.OutcomeIsTheLogs | packages/acp/cc-acp/src/session.ts:499-522 | Every outcome but a refusal is what the log says at one instant: the first failed update, else the agent failure that stands, else the end of the turn, by the table of stop reasons; cancelled if it was cancelled by then. |
| AcpCauses.FailedUpdateIsReported | packages/acp/cc-acp/src/session.ts:506-509 | A prompt that was not cancelled, one of whose own updates failed while it held the slot, is rejected with the first such failure. |
| AcpCancellation.AbortedMeansCancelled | packages/acp/cc-acp/src/cancellation-status.ts:73-82 | A prompt counts as aborted exactly if a cancellation found it in flight, or its request came with an aborted signal; and as cancelled while idle exactly if the first of these found the agent idle. |
| AcpCancellation.CancellationIsTheFirstRelease | packages/acp/cc-acp/src/cancellation-status.ts:53-94 | The promise that a cancelled prompt waits for is what its first release makes of it: at once without a queued message, behind the queued updates at an idle status (any status, if cancelled while idle) or at the fallback, or rejected by the fallback. |
| AcpCancellation.CancelledWaitWasReleased | packages/acp/cc-acp/src/cancellation-status.ts:104-124 | The wait of a cancelled prompt ends only after such a release, with every update that was queued by then settled, or with the failure of the fallback. |
| AcpSessionObjects.InflightPrompt.NoteAgentError | packages/acp/cc-acp/src/cancellation-status.ts:38-45 | Changes the record in place exactly as the transition function says. |
| AcpSessionObjects.InflightPrompt.SettleCancelledOnStatus | packages/acp/cc-acp/src/cancellation-status.ts:53-66 | The same for a status emission on a cancelled prompt. |
| AcpSessionObjects.InflightPrompt.RequestCancellation | packages/acp/cc-acp/src/cancellation-status.ts:73-94 | The same for the first and every later cancellation. |
| AcpSessionObjects.InflightPrompt.NextSuspension | packages/acp/cc-acp/src/cancellation-status.ts:104-124 | In every session state that holds the record and shows what the loop reads, the wait goes on to the suspension point of the transition functions. |
| AcpSessionObjects.InflightPrompt.Decide | packages/acp/cc-acp/src/session.ts:514-530 | The outcome is chosen in the documented order. |
| AcpSessionObjects.AcpSession.BeginPrompt | packages/acp/cc-acp/src/session.ts:249-280 | Entry of `prompt`: claims the slot and runs to the first await; the object state becomes the model state. |
| AcpSessionObjects.AcpSession.ResumeAfterContent | packages/acp/cc-acp/src/session.ts:282-303 | `prompt` after admission of its content. |
| AcpSessionObjects.AcpSession.ResumeAfterRouting | packages/acp/cc-acp/src/session.ts:303-333 | `prompt` after routing, up to its next await or throw. |
| AcpSessionObjects.AcpSession.FinishAdmission | packages/acp/cc-acp/src/session.ts:311-333 | The common end of admission. |
| AcpSessionObjects.AcpSession.CancelPrompt | packages/acp/cc-acp/src/session.ts:484-488 | `cancelPrompt` on the slot holder, if there is one. |
| AcpSessionObjects.AcpSession.Close | packages/acp/cc-acp/src/session.ts:439-447 | The first stretch of `close`. |
| AcpSessionObjects.AcpSession.OnInboxClaimed | packages/acp/cc-acp/src/session.ts:405-412 | Correlates a claimed message with its turn. |
| AcpSessionObjects.AcpSession.OnAgentError | packages/acp/cc-acp/src/session.ts:413-421 | Notes an agent error on the slot holder. |
| AcpSessionObjects.AcpSession.OnAgentStatus | packages/acp/cc-acp/src/session.ts:423-427 | Notes an agent status on the slot holder. |
| AcpSessionObjects.AcpSession.OnSessionEvent | packages/acp/cc-acp/src/session.ts:350-399 | Correlates turns and queues updates. |
| AcpSessionObjects.AcpSession.DeliverUpdate | packages/acp/cc-acp/src/session.ts:355-390 | One link of the update chain settles; the first failure of an assistant link stays on its record. |
| AcpSessionObjects.AcpSession.ResumeAfterAdmission | packages/acp/cc-acp/src/session.ts:491-513 | The settlement after the admission promise. |
| AcpSessionObjects.AcpSession.ResumeQuiescence | packages/acp/cc-acp/src/cancellation-status.ts:104-124 | One resumption of the quiescence loop. |
| AcpSessionObjects.AcpSession.Settle | packages/acp/cc-acp/src/session.ts:497-530 | Releases the slot and reports, unless the slot is no longer its own. |
| PluginState.ParseInvertsPrint | packages/compat/cc-plugin-manager/src/resolve-id.ts:34-38 | Splitting an id gives its name and marketplace back if and only if the name is not empty and the marketplace has no `@`. |
| PluginViews.UninstallRemovesOne | packages/compat/cc-plugin-manager/src/uninstall.ts:41-91 | Uninstall removes exactly one entry, the first of its scope, from exactly one merged list, or changes nothing; known marketplaces and the claude home stay. |
| PluginViews.InstallAppendsOne | packages/compat/cc-plugin-manager/src/install.ts:197-215 | Install appends one entry at a scope the id did not have, to exactly one merged list, with the copied directory, version and commit, the time in both stamps and, outside the user scope, the project; or changes nothing. |
| PluginViews.UpdateReplacesOne | packages/compat/cc-plugin-manager/src/update.ts:33-78 | Update rewrites one entry in place with the copied directory, version and commit and the time in both stamps, keeping its scope and project; or changes nothing. Equal versions are a no-op. |
| PluginViews.ToggleKeepsViews | packages/compat/cc-plugin-manager/src/toggles.ts:56-70 | Toggle leaves both merged views alone. |
| PluginViews.UserUninstallTurnsOff | packages/compat/cc-plugin-manager/src/uninstall.ts:63-70 | After a user-scope uninstall the merged user flag is not true, whatever the claude file says. |
| PluginResolution.ResolutionFindsTheNamed | packages/compat/cc-plugin-manager/src/resolve-id.ts:45-54 | An argument resolves to an installed id exactly if it is that key, or the bare name that no other key carries. |
| PluginResolution.ResolutionErrors | packages/compat/cc-plugin-manager/src/resolve-id.ts:45-54 | Which of the three resolution errors comes when. |
| PluginResolution.DeclaredResolutionFindsTheNamed | packages/compat/cc-plugin-manager/src/install.ts:156-186 | An argument names a declared plugin exactly if its own marketplace's manifest declares it, or if its bare name is declared at one single place in all readable manifests. |
| PluginResolution.InstallSucceeds | packages/compat/cc-plugin-manager/src/install.ts:150-217 | Install succeeds exactly for a named declared plugin without an entry at the scope, whose copy works. |
| PluginResolution.UninstallSucceeds | packages/compat/cc-plugin-manager/src/uninstall.ts:41-62 | Uninstall succeeds exactly for a named key with an entry at the scope that the project does not enable. |
| PluginResolution.UpdateSucceeds | packages/compat/cc-plugin-manager/src/update.ts:33-78 | Update succeeds exactly for a named installed id with an entry at the scope, in a known readable marketplace, when nothing is newer or the copy works. |
| PluginResolution.ToggleSucceeds | packages/compat/cc-plugin-manager/src/toggles.ts:34-70 | Toggle succeeds exactly for a named installed id with a scope given or a single entry. |
| PluginResolution.QualifiedErrors | packages/compat/cc-plugin-manager/src/install.ts:167-183 | Which error a qualified declared id that cannot be resolved gives. |
| PluginResolution.BareErrors | packages/compat/cc-plugin-manager/src/install.ts:175-183 | And which one a bare name that is not declared at one single place gives: an unreadable manifest is blamed first. |
| PluginResolution.InstallFails | packages/compat/cc-plugin-manager/src/install.ts:185-200 | Once its argument names a declared plugin, install fails for an entry at the scope, and else for its copy. |
| PluginResolution.UninstallFails | packages/compat/cc-plugin-manager/src/uninstall.ts:46-62 | Once its argument names a key, uninstall fails for want of an entry at the scope, and else for the project's own `true`. |
| PluginResolution.UpdateFails | packages/compat/cc-plugin-manager/src/update.ts:38-62 | Once its argument names an installed id, update fails for the first of its four conditions that holds. |
| PluginSettings.InstallEnables | packages/compat/cc-plugin-manager/src/install.ts:202-204 | Install sets the flag at its scope and writes nothing else into a settings file. |
| PluginSettings.UninstallDropsFlag | packages/compat/cc-plugin-manager/src/uninstall.ts:59-91 | Uninstall drops the flag at its scope only, and marks the directory exactly if it is in the dsh cache and no remaining entry refers to it. |
| PluginSettings.UpdateMarksOldDirectory | packages/compat/cc-plugin-manager/src/update.ts:64-77 | Update leaves the settings alone and marks the replaced directory under the same condition. |
| PluginSettings.ToggleWritesFlag | packages/compat/cc-plugin-manager/src/toggles.ts:34-70 | Toggle writes the flag at the given scope, or at the only one the plugin is installed at. |
| PluginSettings.AddDeclares | packages/compat/cc-plugin-manager/src/marketplace.ts:209-213 | A committed add declares name and source in the chosen scope's file only. |
| PluginSettings.RemovalStripsDeclarations | packages/compat/cc-plugin-manager/src/marketplace.ts:471-479 | A removal takes the name, and only the name, out of the declarations of all three settings files. |
| PluginMarketplaces.CommitActsOnOneName | packages/compat/cc-plugin-manager/src/marketplace.ts:173-226 | A commit writes one name of the merged known view with the requested source, or conflicts with a live dsh entry and changes nothing. |
| PluginMarketplaces.AddActsOnOneName | packages/compat/cc-plugin-manager/src/marketplace.ts:235-322 | An add changes at most the one name it commits under, the guessed one on the reference fast path, and on success the source is known. |
| PluginMarketplaces.BatchCommitsPrefix | packages/compat/cc-plugin-manager/src/marketplace.ts:345-383 | An update batch commits exactly the targets before the first failing one, each from the entry it had at the start: source and auto-update choice stay, the time is now, and only a git entry of the claude home alone moves to its clone. |
| PluginMarketplaces.BatchKeepsSources | packages/compat/cc-plugin-manager/src/marketplace.ts:345-383 | After a batch the same names are known, with their sources and auto-update choices. |
| PluginMarketplaces.CommitIs | packages/compat/cc-plugin-manager/src/marketplace.ts:173-226 | All that committing a name can come to, with the entry field by field: a conflict, the claude entry of the very source taken over, or a fresh entry. |
| PluginMarketplaces.AddComesTo | packages/compat/cc-plugin-manager/src/marketplace.ts:235-322 | All that an add can come to: a source known under some name is left as it is, a source that the claude home has under the guessed name is committed without a clone, unless it is a directory, and any other under the name of its manifest. |
| PluginKnownFile.CallKeepsMeaning | packages/compat/cc-plugin-manager/src/marketplace.ts:170-226 | Every call keeps one meaning for each name of the dsh known file, an entry or a tombstone, and writes no tombstone in a single-root home. |
| PluginKnownFile.RunKeepsMeaning | packages/compat/cc-plugin-manager/src/marketplace.ts:170-226 | The same over whole runs. |
| PluginRemoval.FirstScopesFacts | packages/compat/cc-plugin-manager/src/marketplace.ts:457-459 | The cascade's scopes are distinct, are those of the list, and are as many as its entries iff no scope repeats. |
| PluginRemoval.ScopesAppearInOrder | packages/compat/cc-plugin-manager/src/marketplace.ts:457-459 | They stand in the order in which they first appear in the list. |
| PluginRemoval.CascadeEmpties | packages/compat/cc-plugin-manager/src/marketplace.ts:456-463 | The cascade's uninstalls all succeed, whatever the lists look like, and each id loses the first entry of each scope. |
| PluginRemoval.RemovalIsAllOrNothing | packages/compat/cc-plugin-manager/src/marketplace.ts:437-455 | A removal is refused exactly for an unknown name, or a plugin for which the project's own file has `true`, with the error for it, and then changes nothing. |
| PluginRemoval.RemovalForgetsEverything | packages/compat/cc-plugin-manager/src/marketplace.ts:437-488 | A successful removal takes the name out of the known view, touches no other marketplace, and leaves none of its ids resolvable if and only if no list repeated a scope. |
| PluginRemoval.RepeatedScopeIsLeftBehind | packages/compat/cc-plugin-manager/src/marketplace.ts:456-463 | A list that repeats a scope, such as two projects recorded by the claude home: the removal succeeds and the id still resolves. |
| PluginRefinement.FlattenHasTheView | packages/compat/cc-plugin-manager/src/merged-state.ts:43-114 | Every store, layered or not, has a flat single-root twin with the same view. |
| PluginRefinement.ShadowedRivalBlocks | packages/compat/cc-plugin-manager/src/uninstall.ts:46-54 | A merged id with an empty list that carries the bare name makes the uninstall of that name fail. |
| PluginRefinement.UninstallIsFlat | packages/compat/cc-plugin-manager/src/uninstall.ts:41-91 | Apart from such a rival, uninstall is what it would be over the installed ids alone; failing changes nothing. |
| PluginRefinement.RemoveEntryView | packages/compat/cc-plugin-manager/src/uninstall.ts:63-91 | The writes of an uninstall have the same visible effect on stores with the same view. |
| PluginRefinement.MarkOrphanView | packages/compat/cc-plugin-manager/src/install.ts:113-137 | Orphan marking depends on the view only. |
| PluginAgreement.InstallView | packages/compat/cc-plugin-manager/src/install.ts:150-217 | Install has the same result and visible effect on stores with the same view. |
| PluginAgreement.UpdateView | packages/compat/cc-plugin-manager/src/update.ts:33-78 | Update likewise. |
| PluginAgreement.ToggleView | packages/compat/cc-plugin-manager/src/toggles.ts:56-70 | Toggle likewise. |
| PluginAgreement.UninstallView | packages/compat/cc-plugin-manager/src/uninstall.ts:41-91 | Uninstall likewise, exactly when a shadowed rival does not stop it in only one of the two stores. |
| PluginAgreement.AddView | packages/compat/cc-plugin-manager/src/marketplace.ts:235-322 | Add fails in both or has the same visible effect in both, if and only if the two stores give it the same effect: a refusal, a no-op, or one entry under one name. Against flat stores `PluginNeutral.AddAgainstFlat` puts this as a condition on the claude-only entries. |
| PluginAgreement.BatchView | packages/compat/cc-plugin-manager/src/marketplace.ts:345-383 | Marketplace updates process the same targets in both, and have the same visible effect if and only if they write the same entry for each of them. |
| PluginAgreement.RemovalView | packages/compat/cc-plugin-manager/src/marketplace.ts:437-488 | Removal likewise, if and only if the name is unknown or the project guard says the same in both. |
| PluginNeutral.UninstallAgainstFlat | packages/compat/cc-plugin-manager/src/uninstall.ts:41-91 | An uninstall looks as on a flat store with the same view if and only if no shadowed rival stops one that the installed ids let through. |
| PluginNeutral.AddAgainstFlat | packages/compat/cc-plugin-manager/src/marketplace.ts:235-322 | An add does so if and only if the source is known, or no claude-only entry makes a difference: not by conflicting less, not by the fast path, not by being reused in another form. |
| PluginNeutral.BatchAgainstFlat | packages/compat/cc-plugin-manager/src/marketplace.ts:345-383 | A marketplace update does so if and only if none of the targets it gets to is a claude-only git entry that moves to another directory. |
| PluginNeutral.RemovalAgainstFlat | packages/compat/cc-plugin-manager/src/marketplace.ts:437-455 | A removal does so if and only if a project guard that stops it also stands on an installed id. |
| PluginNeutral.AddBesideClaude | packages/compat/cc-plugin-manager/src/marketplace.ts:186-207 | Beside a claude-only entry a commit shadows or reuses it, where the flat twin has a conflict or writes an entry of its own. |
| PluginNeutral.AddCanShow | packages/compat/cc-plugin-manager/src/marketplace.ts:186-207 | A concrete store on which an add succeeds that conflicts on its flat twin. |
| PluginNeutral.BatchCanShow | packages/compat/cc-plugin-manager/src/marketplace.ts:345-383 | A concrete store on which a marketplace update differs from that on its flat twin. |
| PluginNeutral.RemovalCanShow | packages/compat/cc-plugin-manager/src/marketplace.ts:437-455 | A concrete store on which a merely shadowed plugin keeps its marketplace from being removed, though not on the flat twin. |
| PluginHistories.NeutralIsExact | packages/compat/cc-plugin-manager/src/merged-state.ts:1-12 | Any manager call looks as on a flat store with the same view if and only if it is neutral, by the condition for its kind. |
| PluginHistories.CallAgrees | packages/compat/cc-plugin-manager/src/merged-state.ts:43-114 | Any neutral call has the same outcome and visible effect on stores with the same view. |
| PluginHistories.RunsAgree | packages/compat/cc-plugin-manager/src/merged-state.ts:43-114 | Two runs of the same neutral calls from the same view agree at every point. |
| PluginHistories.FlatRunIsNeutral | packages/compat/cc-plugin-manager/src/uninstall.ts:75-84 | Every call of a run over a flat store is neutral, because emptied lists drop their keys. |
| PluginHistories.LayeredRefinesFlat | packages/compat/cc-plugin-manager/src/merged-state.ts:1-12 | The two homes refine one flat home: a run agrees, call by call, with the run over its flat twin if and only if all its calls are neutral, and up to the first one that is not in any case. |
| PluginHistories.LayeringCanShow | packages/compat/cc-plugin-manager/src/uninstall.ts:46-54 | A concrete layered store where a bare-name uninstall fails although it succeeds on its flat twin. |
| PluginHistories.CallKeepsTidy | packages/compat/cc-plugin-manager/src/install.ts:199-215 | Every call keeps at most one entry per id and scope, and never writes to the claude home. |
| PluginHistories.RunKeepsTidy | packages/compat/cc-plugin-manager/src/install.ts:199-215 | The same over whole runs. |
| PluginHistories.RemovalInAnyRun | packages/compat/cc-plugin-manager/src/marketplace.ts:437-488 | In any run from a tidy state, a successful removal leaves the name unknown and none of its ids resolvable. |
| PluginDiscovery.FoldIsTopBoolean | packages/compat/cc-plugin-loader/src/enabled-plugins.ts:23-35 | The loader's fold gives each id the boolean of the last file that has one. |
| PluginDiscovery.DiscoveryAgreesWithList | packages/compat/cc-plugin-loader/src/discovery.ts:179-282 | The loader discovers an id exactly when the manager lists it as effectively enabled, or a non-boolean value hides a lower `true`. |
| PluginDiscovery.BooleanFlagsAgree | packages/compat/cc-plugin-manager/src/list.ts:34-40 | With boolean flags the two readers agree outright. |
| PluginDiscovery.JunkCanHide | packages/compat/cc-plugin-loader/src/enabled-plugins.ts:23-35 | A concrete store, with `true` under a non-boolean local flag, whose plugin the loader discovers while the manager does not list it as enabled. |
| PluginDiscovery.RemovalEndsDiscovery | packages/compat/cc-plugin-loader/src/discovery.ts:179-196 | After a successful removal, discovery finds no plugin of the marketplace. |
| PluginDiscovery.ExtractEnabledKeys | packages/compat/cc-plugin-loader/src/enabled-plugins.ts:23-35 | The loop folds exactly the booleans of a block, last wins. |
| PluginDiscovery.EnabledKeys | packages/compat/cc-plugin-loader/src/discovery.ts:222-263 | The cascade loop yields exactly the enabled keys that name a marketplace. |
| PluginDiscovery.PickInstallPath | packages/compat/cc-plugin-loader/src/discovery.ts:284-294 | The loop picks the directory of the latest entry, the last one among equals, and none for an empty list. |
| PluginDiscovery.Discover | packages/compat/cc-plugin-loader/src/discovery.ts:179-196 | The loop finds discovered ids with the directory of their latest entry, every such directory exactly once. |
| PluginManagerObject.PluginManager.LoadMergedKnown | packages/compat/cc-plugin-manager/src/merged-state.ts:43-66 | The loop over both files yields the merged known view, tombstones deleting. |
| PluginManagerObject.PluginManager.LoadMergedInstalled | packages/compat/cc-plugin-manager/src/merged-state.ts:73-91 | The loop over both files yields the merged installed view. |
| PluginManagerObject.PluginManager.WriteFlag | packages/compat/cc-plugin-manager/src/settings-write.ts:18-32 | Read-modify-write of one settings file. |
| PluginManagerObject.PluginManager.OrphanIfUnreferenced | packages/compat/cc-plugin-manager/src/install.ts:113-137 | The nested search loop marks exactly as the model says. |
| PluginManagerObject.PluginManager.Uninstall | packages/compat/cc-plugin-manager/src/uninstall.ts:41-91 | Ends in the state and result of the model operation. |
| PluginManagerObject.PluginManager.Install | packages/compat/cc-plugin-manager/src/install.ts:150-217 | Ends in the state and result of the model operation. |
| PluginManagerObject.PluginManager.Update | packages/compat/cc-plugin-manager/src/update.ts:33-78 | Ends in the state and result of the model operation. |
| PluginManagerObject.PluginManager.Toggle | packages/compat/cc-plugin-manager/src/toggles.ts:56-70 | Ends in the state and result of the model operation. |
| PluginManagerObject.PluginManager.CommitAdd | packages/compat/cc-plugin-manager/src/marketplace.ts:173-226 | Ends in the state and result of the model operation. |
| PluginManagerObject.PluginManager.AddMarketplace | packages/compat/cc-plugin-manager/src/marketplace.ts:235-322 | The search loop for the same source, the reference fast path, then the commit. |
| PluginManagerObject.PluginManager.UpdateMarketplaces | packages/compat/cc-plugin-manager/src/marketplace.ts:345-383 | The per-entry commit loop, stopped by the first failure; an unknown name changes nothing. |
| PluginManagerObject.PluginManager.RemoveMarketplace | packages/compat/cc-plugin-manager/src/marketplace.ts:437-488 | Pre-flight loop, nested cascade loops and final writes end in the model state, over the marketplace's ids each once. |
| JsonRoundTrip.EscapedTextReads | packages/core/tool-workflow/src/journal-lines.ts:22-24 | Reading an escaped string literal gives the text back, lone surrogates and control characters included. |
| JsonRoundTrip.NumberReads | packages/core/tool-workflow/src/journal-lines.ts:22-24 | A number lexeme is read whole, when nothing that could lengthen it follows. |
| JsonRoundTrip.ValueReads | packages/core/tool-workflow/src/journal-lines.ts:22-24 | A printed value followed by any text is read back, leaving exactly that text. |
| JsonRoundTrip.DocumentRoundTrip | packages/core/tool-workflow/src/journal-lines.ts:22-24 | Parsing a printed value gives the value. |
| JsonFraming.PrintHasNoNewline | packages/core/tool-workflow/src/journal-lines.ts:21-24 | Printed JSON contains no newline, whatever its strings contain. |
| JsonFraming.ValueExtends | packages/core/tool-workflow/src/journal-lines.ts:45-47 | Appending text behind a parsed value changes only the rest, unless a number could go on. |
| JsonFraming.PrefixOfObjectDoesNotParse | packages/core/tool-workflow/src/journal-lines.ts:28-29 | No proper prefix of a printed object is a JSON document. |
| JsonGrammar.ParserIsTheGrammar | packages/core/tool-workflow/src/journal-lines.ts:40-50 | A text parses to a value if and only if the grammar of RFC 8259 has it as a text of that value. |
| JsonGrammar.EscapeByTable | packages/acp/cc-acp/src/index.ts:545-547 | How a unit is printed inside a string literal: as it is, behind a backslash, or in four lower-case hexadecimal digits. |
| Journal.ReadJournal | packages/core/tool-workflow/src/journal-lines.ts:32-57 | The index loop returns what the specification of the parser says. |
| Journal.LineReads | packages/core/tool-workflow/src/journal-lines.ts:22-54 | A printed line reads back as itself if it is replayable, and is rejected otherwise. |
| Journal.CompleteMeans | packages/core/tool-workflow/src/journal-lines.ts:26-31 | The number of complete lines counts exactly those whose text ends at or before the cut. |
| Journal.CutJournal | packages/core/tool-workflow/src/journal-lines.ts:26-57 | After any cut the parser returns exactly the lines whose text lies before it, in order, and never reports corruption. |
| Journal.WholeJournal | packages/core/tool-workflow/src/journal-lines.ts:22-57 | An uncut journal reads back as written if and only if every line is replayable; otherwise it is corrupt. |
| Journal.NullLineThrows | packages/core/tool-workflow/src/journal-lines.ts:44-53 | A printed `null` behind any good lines makes the parser throw, whatever follows. |
| Journal.ThrowsExactly | packages/core/tool-workflow/src/journal-lines.ts:38-55 | The parser throws if and only if some line is the JSON literal `null` and every line before it is good. |
| Journal.CorruptExactly | packages/core/tool-workflow/src/journal-lines.ts:38-55 | It reports corruption if and only if, behind good lines only, some line is no JSON text without being the last one, or fails the field tests. |
| Encodings.Utf8RoundTrip | packages/acp/cc-acp/src/index.ts:545-547 | Well-formed text survives UTF-8. |
| Encodings.Utf8IsInjective | packages/acp/cc-acp/src/index.ts:555-558 | Distinct well-formed texts have distinct bytes. |
| Encodings.Base64RoundTrip | packages/acp/cc-acp/src/index.ts:545-547 | Bytes survive base64url without padding (section 5 of RFC 4648). |
| Encodings.EscapeIsWellFormed | packages/acp/cc-acp/src/index.ts:545-547 | Escaping leaves no surrogate alone, so printed JSON is always well-formed text. |
| EncodingTables.Utf8ByTable | packages/acp/cc-acp/src/index.ts:555-558 | A text is encoded code point by code point, each by the table of section 3 of RFC 3629, and a lone surrogate as U+FFFD. |
| EncodingTables.EncodedOrder | packages/acp/cc-acp/src/index.ts:555-558 | Encoded texts compare bytewise as their code points do. |
| EncodingTables.IdsByPoints | packages/acp/cc-acp/src/index.ts:549-558 | So equally old sessions are listed by the code points of their ids. |
| EncodingTables.SextetsByAlphabet | packages/acp/cc-acp/src/index.ts:545-547 | A sextet is written as its character of the URL-safe alphabet of RFC 4648. |
| EncodingTables.Base64ByGroups | packages/acp/cc-acp/src/index.ts:545-547 | Bytes are written in groups of three as the characters of their sextets, the last group filled up with zero bits and not padded. |
| SessionCursor.EncodedCursorDecodes | packages/acp/cc-acp/src/index.ts:519-547 | An encoded cursor decodes to its key. |
| SessionCursor.CursorIsCanonical | packages/acp/cc-acp/src/index.ts:519-547 | A cursor is accepted as a key exactly when it is the token the server would issue for that key, which has a non-empty id and a non-negative safe creation time. |
| SessionCursor.TokensTell | packages/acp/cc-acp/src/index.ts:545-547 | Different keys have different tokens, valid or not. |
| SessionCursor.OwnTokenIsAccepted | packages/acp/cc-acp/src/index.ts:519-547 | The server decodes the token it issues for a key to that key if the key has an id and a non-negative safe creation time, and refuses it otherwise. |
| SessionList.BeforeIsStrict | packages/acp/cc-acp/src/index.ts:549-558 | The list order is strict, and total but for ids with the same bytes. |
| SessionList.SortSorts | packages/acp/cc-acp/src/index.ts:371-373 | Sorting keeps the entries and puts untied ones in strictly ascending order. |
| SessionList.PageIsPrefix | packages/acp/cc-acp/src/index.ts:374-382 | A page holds ascending keys behind the cursor, and whatever else follows the cursor comes after the page. |
| SessionList.WalkAscends | packages/acp/cc-acp/src/index.ts:345-383 | However the set changes between pages, the collected keys strictly ascend and were all listed. |
| SessionList.NoIdTwice | packages/acp/cc-acp/src/index.ts:345-383 | No id is returned twice while creation times are stable. |
| SessionList.WalkIsComplete | packages/acp/cc-acp/src/index.ts:345-383 | A walk that has ended has collected every key that all its snapshots list. |
| SessionList.UnchangingWalk | packages/acp/cc-acp/src/index.ts:345-383 | Over an unchanging set the walk collects the sorted list in exactly as many pages as it fills. |
| SessionList.PagesForIsCeiling | packages/acp/cc-acp/src/index.ts:377-378 | That number is the quotient rounded up. |
| SessionList.TiedMeansEqual | packages/acp/cc-acp/src/index.ts:549-558 | Keys with proper Unicode ids are tied only if they are equal. |
| SessionList.ProperWalk | packages/acp/cc-acp/src/index.ts:345-383 | For proper ids, listed once each, all of this holds outright: strictly ascending, all listed, and complete once ended. |
| SessionList.ProperUnchangingWalk | packages/acp/cc-acp/src/index.ts:345-383 | And over an unchanging set: the sorted list in as many pages as it fills. |
| SessionList.SinglesCollectAllIffUntied | packages/acp/cc-acp/src/index.ts:549-558 | With one key a page over an unchanging set the client gets every key if and only if no two of them are tied. |
| SessionList.WalkIsBounded | packages/acp/cc-acp/src/index.ts:371-383 | However the set changes, a walk takes at most one page more than the keys ever listed fill. |
| SessionList.TiedSessionIsLost | packages/acp/cc-acp/src/index.ts:549-558 | Two ids that differ only in lone surrogates are tied, and one can be lost at a page boundary. |
| SessionOrder.BeforeMeansEarlier | packages/acp/cc-acp/src/index.ts:549-558 | The comparison means: newer, or equally old with an id whose UTF-8 bytes are a proper prefix or smaller at the first byte that differs. |
| SessionOrder.SortIsNewestFirst | packages/acp/cc-acp/src/index.ts:371-373 | For every list, ties and repetitions included, sorting permutes it so that creation times never increase and the id bytes of equally old sessions never decrease. |
| SessionOrder.PageIsNewestFirst | packages/acp/cc-acp/src/index.ts:371-383 | A page is newest first and behind the cursor, leaves out nothing earlier than what it has, is full if it leaves out anything, and then names its last key. |
| SessionOrder.WalkIsNewestFirst | packages/acp/cc-acp/src/index.ts:345-383 | However the set changes between pages, all that a client collects is newest first. |
| SessionTokens.TokensFollowKeys | packages/acp/cc-acp/src/index.ts:345-383 | Following the issued tokens is following the keys if and only if every page that another request follows ends in a key with an id and a non-negative safe creation time; otherwise the server refuses a token of its own. |
| SessionTokens.ValidSessionsFollow | packages/acp/cc-acp/src/index.ts:345-383 | So sessions with ids and non-negative safe creation times are paged by tokens as they are by keys. |
| SessionTokens.RefusedToken | packages/acp/cc-acp/src/index.ts:519-547 | A concrete set of sessions, with a negative creation time, over which the server refuses the token it has just issued. |
| TailQueue.JobsNeverOverlap | packages/compat/cc-plugin-manager/src/index.ts:116-127 | Jobs never overlap and start in call order, under every interleaving and rejection. |
| TailQueue.EveryJobRuns | packages/acp/cc-acp/src/model-control.ts:126-131 | A queue that swallows rejections, or runs regardless of them, runs every job that settles. |
| TailQueue.QueueIsSerial | packages/compat/cc-plugin-manager/src/index.ts:116-127 | Once all calls have settled, the store is what the jobs one by one in call order make of it. |
| TailQueue.NeverStuck | packages/compat/cc-plugin-manager/src/index.ts:116-127 | While a call has not settled, some event other than a further call can happen. |
| TailQueue.OtherwiseItWedges | packages/acp/cc-acp/src/model-control.ts:126-131 | Without either precaution one rejection makes the next call settle without running. |
| TailQueue.RepositoryQueuesAreSerial | packages/compaction/compaction-cost-gate/src/ledger.ts:80-96 | The manager's queue, the ACP chains and the ledger's chains are all serial. |
| McpSeam.StepKeepsInv | packages/bundle/cc-shell/src/mcpSeam.ts:97-146 | Registrations, disposers, settlements and continuations keep ledger, fibers and pending attaches consistent. |
| McpSeam.RunKeepsInv | packages/bundle/cc-shell/src/mcpSeam.ts:45-146 | The same over every run. |
| McpSeam.QuietSeam | packages/bundle/cc-shell/src/mcpSeam.ts:47-62 | When all promises have settled the ledger is empty and each accepted registration has one fiber, live exactly if it is not disposed. |
| McpSeam.AttachWaits | packages/bundle/cc-shell/src/mcpSeam.ts:126-137 | A deferred attach happens only once the release it saw has settled. |
| McpSeam.OneLivePerName | packages/bundle/cc-shell/src/mcpSeam.ts:97-146 | At every point of a run a name has at most one live fiber if and only if at most one attached registration of it is undisposed. |
| McpSeam.OneLiveWhenQuiet | packages/bundle/cc-shell/src/mcpSeam.ts:97-146 | Once all promises have settled: if and only if at most one registration of it is undisposed. |
| McpSeam.SameNameTwice | packages/bundle/cc-shell/src/mcpSeam.ts:122-137 | A concrete run with two live fibers of one name. |
| McpSeam.PluginMcpSeam.NoteRelease | packages/bundle/cc-shell/src/mcpSeam.ts:55-60 | Enters a pending release into the ledger. |
| McpSeam.PluginMcpSeam.RegisterServer | packages/bundle/cc-shell/src/mcpSeam.ts:97-137 | Attaches at once or defers behind the pending release, as the model says. |
| McpSeam.PluginMcpSeam.CallDisposer | packages/bundle/cc-shell/src/mcpSeam.ts:107-118 | Disposes the fiber, or cancels the attach to come. |
| McpSeam.PluginMcpSeam.RunReaction | packages/bundle/cc-shell/src/mcpSeam.ts:126-137 | A continuation forgets the ledger entry or performs the deferred attach, undoing it when cancelled. |
| Microcompact.PassReplacesInPlace | packages/compaction/compaction-micro/src/index.ts:249-306 | A pass conserves surface length, order and call ids, and replaces in place exactly the collapsible stale results, each from its own content. |
| Microcompact.NewestUntouched | packages/compaction/compaction-micro/src/index.ts:250-254 | The newest retained results keep their very nodes. |
| Microcompact.MarkerIsKept | packages/compaction/compaction-micro/src/index.ts:326-336 | A placeholder keeps its marker exactly when its cap leaves room for it. |
| Microcompact.LocatorSurvives | packages/compaction/compaction-micro/src/index.ts:263-271 | Where the cap leaves room for the marker text, a cited locator survives in full at the end. |
| Microcompact.NoOpIffFrozen | packages/compaction/compaction-micro/src/index.ts:239-241 | A pass changes nothing exactly when no stale result is collapsible. |
| Microcompact.SameStalePlaces | packages/compaction/compaction-micro/src/index.ts:250-254 | A pass leaves the same places stale. |
| Microcompact.SecondPassIsNoOp | packages/compaction/compaction-micro/src/index.ts:239-241 | A second pass over unchanged history is a no-op exactly when all that the first wrote is recognised. |
| Microcompact.RoomForMarkerSettles | packages/compaction/compaction-micro/src/config.ts:55-61 | Without digests and with room for the marker, what a pass writes is always recognised. |
| Microcompact.NoRoomForMarker | packages/compaction/compaction-micro/src/index.ts:358-366 | Without room for the marker the placeholder is collapsed again. |
| Microcompact.StepKeepsInv | packages/compaction/compaction-micro/src/index.ts:281-298 | New results, full passes and stopped passes keep the log discipline. |
| Microcompact.EveryReplacement | packages/compaction/compaction-micro/src/index.ts:281-298 | In every run a replacement directly follows its own price event and names an earlier result of the same call that nothing else replaces, an original where the marker fits. |
| Microcompact.PassFreezes | packages/compaction/compaction-micro/src/index.ts:239-241 | Where the marker fits, a pass right after a pass changes nothing. |
| Microcompact.PausedForGood | packages/compaction/compaction-micro/src/index.ts:176-206 | The automatic pass pauses from the first time that so many unaborted passes in a row have failed, and for good. |
| MicrocompactText.PlaceholderMeans | packages/compaction/compaction-micro/src/config.ts:48-61 | A result is taken for a placeholder exactly if its first text starts with the marker. |
| MicrocompactText.TextIsJoined | packages/compaction/compaction-micro/src/index.ts:349-356 | The text of a result is that of its text blocks, joined without separators. |
| MicrocompactText.UnitsCountWide | packages/compaction/compaction-micro/src/index.ts:326-334 | The length by which a locator raises the cap counts its characters beyond the basic plane twice. |
| MicrocompactText.ReplacementSays | packages/compaction/compaction-micro/src/index.ts:260-270 | With a digest the replacement is the digest and the cited locator, whole; without one it is as much of the marker text and the locator as the cap lets through. |
| MicrocompactPasses.PassReplacesExactly | packages/compaction/compaction-micro/src/index.ts:249-262 | A pass replaces exactly the results behind which enough results come, whose first text has no marker and whose text is no crusher stub. |
| MicrocompactPasses.StoppedLogIsPrefix | packages/compaction/compaction-micro/src/index.ts:281-298 | A pass stopped by a rejected append has logged a beginning of what it would have logged, two events for each result replaced and maybe one price. |
| MicrocompactPasses.StoppedSurface | packages/compaction/compaction-micro/src/index.ts:244-248 | Where it got to the surface is that of the whole pass, everywhere else it is as before. |
| MicrocompactPasses.NoticeIsFirst | packages/compaction/compaction-micro/src/index.ts:176-206 | An attempt runs the pass exactly if it is not aborted and the cap was never reached; the notice comes exactly with the attempt that reaches it first. |
| MicrocompactorObject.Microcompactor.CollapseNode | packages/compaction/compaction-micro/src/index.ts:256-298 | Appends price and placeholder next to one another, or skips the node. |
| MicrocompactorObject.Microcompactor.MicrocompactSession | packages/compaction/compaction-micro/src/index.ts:249-306 | The loop ends in the model's state, or in the stopped one when an append is rejected. |
| MicrocompactorObject.Microcompactor.AutoMicrocompactPass | packages/compaction/compaction-micro/src/index.ts:176-206 | Keeps the per-session failure record and raises the pause notice as the model says. |
| Progress.FoldIsBounded | packages/context/progress-rebuild/src/state.ts:173-225 | After any log at most 20 receipts and 512 calls are kept, each with distinct call ids. |
| Progress.FoldIsJustified | packages/context/progress-rebuild/src/state.ts:99-225 | Every receipt is backed by an earlier simple foreground bash call and a later good result of it, with that command's head and that result's time. |
| Progress.GoodResultIsKept | packages/context/progress-rebuild/src/state.ts:209-224 | A good result of a known eligible call without a receipt becomes the newest receipt, dropping only the oldest. |
| ProgressLog.SplitIsExact | packages/context/progress-rebuild/src/state.ts:107-111 | A text's lines are the one list of lines without breaks that gives the text when joined. |
| ProgressLog.AllLinesAre | packages/context/progress-rebuild/src/state.ts:104-113 | The lines of a result are those of its text blocks, block by block. |
| ProgressLog.SimpleMeansAlone | packages/context/progress-rebuild/src/state.ts:93-101 | A command is eligible exactly if none of the separators and substitutions occurs in it. |
| ProgressLog.GoodMeansAttests | packages/context/progress-rebuild/src/state.ts:103-120 | A result attests success exactly if it is no error and none of its last ten lines contains a failure marker. |
| ProgressLog.FailureLeavesNoReceipt | packages/context/progress-rebuild/src/state.ts:103-120 | If a marked line is followed by at most nine lines, no receipt comes of the result, whatever came before. |
| ProgressLog.EveryReceiptIsBacked | packages/context/progress-rebuild/src/state.ts:99-225 | After any log every receipt is backed by an earlier foreground `bash` call of a command that runs alone, with its head, and by a later result that attests success in this sense, with its time. |
| ProgressLog.SuccessIsRecorded | packages/context/progress-rebuild/src/state.ts:173-225 | The attested result of such a call, the first of its id and with fewer than 512 calls behind it, becomes the newest receipt, and at most the oldest of 20 goes. |
| ProgressLog.NothingElseIsRecorded | packages/context/progress-rebuild/src/state.ts:173-225 | No other result leaves a receipt: not one whose id's first call is another one, not one that does not attest success, and not a second one. |
| ProgressLog.TodosAreTheLast | packages/context/progress-rebuild/src/state.ts:184-192 | The kept todo list is that of the last write. |
| ProgressLog.LastUserIsTheLast | packages/context/progress-rebuild/src/state.ts:225-257 | The kept message is the last genuine one with a text: its first non-empty text, cut to 200 characters. |
| Brief.ClipLength | packages/context/progress-rebuild/src/brief.ts:136-139 | The byte clip stays within its bound exactly if it does not fall one or two bytes into a character. |
| Brief.RunElideTodos | packages/context/progress-rebuild/src/brief.ts:160-181 | Splicing gives the specified lines. |
| Brief.ElisionIsExact | packages/context/progress-rebuild/src/brief.ts:160-181 | One pass keeps the lines outside the block and a prefix and suffix of it around the exact count, and meets the budget where fixed lines and one more fit. |
| Brief.BriefFitsBytes | packages/context/progress-rebuild/src/brief.ts:124-143 | For any lines and settings the brief exceeds 6144 bytes if and only if both elided texts do and the clip falls one or two bytes into a character, and then by at most two bytes. |
| Brief.BriefKeepsFixedLines | packages/context/progress-rebuild/src/brief.ts:80-143 | Both passes, and what comes of them unless both exceed the byte ceiling, take lines out of the todo block only; where the fixed lines and one more fit, so does the brief. |
| Brief.PrintedLines | packages/context/progress-rebuild/src/brief.ts:124-143 | What is printed has one line more than the budget counted for each line break inside a line. |
| Brief.SecondNote | packages/context/progress-rebuild/src/brief.ts:160-181 | The count of a second pass that cuts further is exact if and only if the first note stood for a single todo. |
| BriefLines.RenderingSays | packages/context/progress-rebuild/src/brief.ts:80-112 | Every line of a rendering, at its place: header, goal, each receipt with its time and head, each todo, checked off exactly if it is completed, the notes and the last message. |
| BriefLines.DigitsRead | packages/context/progress-rebuild/src/brief.ts:174-180 | The number of elided todos is printed in decimal. |
| BriefLines.PassLeaves | packages/context/progress-rebuild/src/brief.ts:160-181 | What one pass leaves of the todos when the budget has room for so many beside the other lines and a note: all, a note alone, or so many around a note with the number of the others, a third of them in front. |
| BriefBytes.BytesAreCounted | packages/context/progress-rebuild/src/brief.ts:124-143 | The byte count is that of UTF-8. |
| BriefBytes.ClipIs | packages/context/progress-rebuild/src/brief.ts:136-139 | The clip keeps as many whole characters as fit, and one replacement character where it cuts one apart. |
| BriefAscii.AsciiBriefFits | packages/context/progress-rebuild/src/brief.ts:80-143 | For every log of ASCII texts, under every setting, the brief has at most 6144 bytes and is never clipped: every line outside the todo block stays. |
| BriefAscii.TwiceFits | packages/context/progress-rebuild/src/brief.ts:124-143 | Narrow todo lines beside fixed lines within their weights fit the byte ceiling after the second pass. |
| BriefAscii.FoldIsAscii | packages/context/progress-rebuild/src/state.ts:99-225 | The projection of a log of ASCII texts holds ASCII texts. |
| BriefOverflow.RunsLeaveReceipts | packages/context/progress-rebuild/src/state.ts:173-225 | Every run of a command with new call ids leaves one receipt with the command's head, up to the cap. |
| BriefOverflow.CutInEuros | packages/context/progress-rebuild/src/brief.ts:136-139 | How many bytes of a character a clip inside a run of three-byte characters leaves. |
| BriefOverflow.BriefCanOverflow | packages/context/progress-rebuild/src/brief.ts:124-143 | A concrete log, of ten good runs of a command with 199 three-byte characters, whose brief has more than 6144 bytes under every line budget. |
| CrusherRouter.RunCompressLog | packages/context/context-crusher/src/router.ts:102-126 | The loop with its flush closure yields the specified output. |
| CrusherRouter.LogWeaves | packages/context/context-crusher/src/router.ts:102-126 | Every input line is kept in place or counted among a stretch of plain lines. |
| CrusherRouter.WeavesConserves | packages/context/context-crusher/src/router.ts:97-101 | Kept lines plus printed counts equal the input lines, and every signal and empty line stays in order. |
| CrusherRouter.LogKeepsSurvivors | packages/context/context-crusher/src/router.ts:95-126 | Exactly the plain lines with three plain lines right before them are left out. |
| CrusherRouter.RunCompressSearch | packages/context/context-crusher/src/router.ts:45-64 | The loops over map and clusters yield the specified output, one header per cluster. |
| CrusherRouter.SearchIsStable | packages/context/context-crusher/src/router.ts:45-64 | Loose lines in order, exactly one cluster for each file with a row, its rows in input order. |
| CrusherRouter.SearchPermutes | packages/context/context-crusher/src/router.ts:40-64 | With rows joined to their files again, the output is a permutation of the input. |
| CrusherRouting.ClaimIsByShares | packages/context/context-crusher/src/router.ts:128-147 | Which compressor claims a text, by the numbers of its non-blank lines, rows and marked lines as cardinalities. |
| CrusherRouting.LogKeepsOthers | packages/context/context-crusher/src/router.ts:97-126 | A shortened log keeps exactly the lines that are not plain together with the three before them. |
| CrusherRouting.FilesInFirstOrder | packages/context/context-crusher/src/router.ts:40-62 | Files are printed in the order of their first rows. |
| CrusherRouting.ClustersArePrinted | packages/context/context-crusher/src/router.ts:57-62 | Every cluster is printed as its header and then its rows, one behind the other, and nothing else is. |
| CrusherRouting.RoutedByShares | packages/context/context-crusher/src/router.ts:128-147 | A text with enough rows keeps every line, grouped by file; another one with enough marked lines is shortened as a log, by exactly what the log compressor may leave out; every other text is left alone. |
| CrusherRouting.SignalsSurvive | packages/context/context-crusher/src/router.ts:128-147 | So whatever becomes of a text, its signal lines survive. |
| CrusherStore.EvictionIsLru | packages/context/context-crusher/src/store.ts:136-152 | The sorted victim is the first entry of the map, and eviction drops exactly the least recently used overflow and its files. |
| CrusherStore.SweepKeepsInv | packages/context/context-crusher/src/store.ts:123-133 | A sweep keeps the newest fresh entries and removes the files of the overflow only. |
| CrusherStore.PutIsLru | packages/context/context-crusher/src/store.ts:70-91 | After a put at most 200 entries remain, the newest fresh part of the access order. |
| CrusherStore.PutFiles | packages/context/context-crusher/src/store.ts:70-91 | After a put the key's file holds the redacted text, and only overflowing keys lose theirs. |
| CrusherStore.GetAfterPut | packages/context/context-crusher/src/store.ts:94-117 | A get after a put returns the redacted text and its mark until the lifetime is over. |
| CrusherStore.GetKeepsInv | packages/context/context-crusher/src/store.ts:94-117 | A get keeps the order and the files; a successful one is an access, and adds an entry exactly if the key had none. |
| CrusherStore.RunKeeps | packages/context/context-crusher/src/store.ts:56-157 | Order, files and content addressing hold in every run of a process, over whatever content-addressed files earlier ones have left. |
| CrusherStore.GetIsFaithful | packages/context/context-crusher/src/store.ts:94-117 | A successful get under a text's hash returns that text, if the hash does not collide. |
| CrusherStore.FileLostOnlyToNewer | packages/context/context-crusher/src/store.ts:136-152 | In a run a file disappears only as overflow behind 200 later accesses. |
| CrusherStore.SweepLeavesFiles | packages/context/context-crusher/src/store.ts:119-133 | A sweep that only forgets expired entries leaves their files. |
| CrusherStore.OldestIsFirstLeast | packages/context/context-crusher/src/store.ts:136-142 | The eviction victim has the smallest access time, and is the first of those that share it. |
| CrusherCap.RunIsAccounted | packages/context/context-crusher/src/store.ts:70-157 | In every run each file is a leftover of an earlier process, or has an entry at least as young as itself, or has expired. |
| CrusherCap.OnlyLeftoversRevive | packages/context/context-crusher/src/store.ts:94-117 | A get that brings a key back without an entry finds a file that an earlier process left and this one has not written. |
| CrusherCap.SizeIsExact | packages/context/context-crusher/src/store.ts:70-157 | The map holds exactly what the last put or sweep left, at most 200 entries, and the files brought back since; so it exceeds the cap exactly when these are more than the room left, and by that much. |
| CrusherCap.CapHolds | packages/context/context-crusher/src/store.ts:70-157 | In a run over an empty directory the map has at most 200 entries in every state. |
| CrusherCap.GetsOverflow | packages/context/context-crusher/src/store.ts:94-117 | Over a directory with leftover files, as many gets make as many entries, with no bound. |
| CrusherStoreObject.CrusherStore.Touch | packages/context/context-crusher/src/store.ts:154-157 | Moves the key to the end of the map. |
| CrusherStoreObject.CrusherStore.FindOldest | packages/context/context-crusher/src/store.ts:138-139 | Finds the head of the stable sort by access time. |
| CrusherStoreObject.CrusherStore.EvictOverCap | packages/context/context-crusher/src/store.ts:136-152 | The eviction loop ends in the specified state. |
| CrusherStoreObject.CrusherStore.Sweep | packages/context/context-crusher/src/store.ts:123-133 | The sweep loop ends in the specified state. |
| CrusherStoreObject.CrusherStore.Put | packages/context/context-crusher/src/store.ts:70-91 | Ends in the specified state and returns the hash of the redacted text. |
| CrusherStoreObject.CrusherStore.Get | packages/context/context-crusher/src/store.ts:94-117 | Ends in the specified state with the specified result. |
| CostGate.SumDebt | packages/compaction/compaction-cost-gate/src/gate.ts:27-30 | The summing loop counts the debts with fewer than five later requests. |
| CostGate.DebtOnlyHoldsBack | packages/compaction/compaction-cost-gate/src/gate.ts:21-54 | More debt never makes a failing gate pass, and nothing passes at the end of the plan. |
| CostGate.BreakEven | packages/compaction/compaction-cost-gate/src/gate.ts:21-54 | Short of the pressure mark the gate passes exactly when the context, at its net saving per token and the given prices, earns more than the margin charges for the open debt. |
| CostGate.PressureOverrides | packages/compaction/compaction-cost-gate/src/gate.ts:37-44 | Once the context reaches the pressure mark only the end of the plan holds the gate shut; below it the mark is moot. |
| CostGate.PricesHelp | packages/compaction/compaction-cost-gate/src/gate.ts:45-50 | Dearer cache reads and cheaper cache writes only help. |
| CostGate.CountsAddUp | packages/compaction/compaction-cost-gate/src/todo-diff.ts:43-48 | Completed and open contents add up to the distinct contents. |
| CostGate.ResendingArms | packages/compaction/compaction-cost-gate/src/todo-diff.ts:35-42 | Sending a list again arms exactly if a completed todo is repeated further down in another status. |
| CostGate.DistinctNeverRearms | packages/compaction/compaction-cost-gate/src/todo-diff.ts:35-42 | With distinct contents a list sent again never arms. |
| CostGate.DiffTodos | packages/compaction/compaction-cost-gate/src/todo-diff.ts:31-56 | The loops yield the snapshot, the newly completed contents in order and the two counts. |
| CostGateRuns.OneEvaluationPerBoundary | packages/compaction/compaction-cost-gate/src/index.ts:220-236 | Between two evaluations a todo list armed the gate again. |
| CostGateRuns.SuccessesAreApart | packages/compaction/compaction-cost-gate/src/index.ts:237-241 | The compaction after a successful one starts only when its cooldown is over. |
| CostGateRuns.EvaluationIsDue | packages/compaction/compaction-cost-gate/src/index.ts:220-249 | An idle event gets as far as the gate exactly if a completed todo armed it and no idle evaluation came since, the fuse has not blown, the last cooldown is over and an engine is there. |
| CostGateRuns.FuseCountsFailures | packages/compaction/compaction-cost-gate/src/index.ts:318-336 | The fuse has blown exactly after three real failures with no success between them; busy and cancelled count for nothing. |
| CostGateRuns.BlownForGood | packages/compaction/compaction-cost-gate/src/index.ts:235-236 | Once blown, nothing is ever compacted again. |
| CostGateRuns.DebtIsHistory | packages/compaction/compaction-cost-gate/src/index.ts:181-195 | There is one debt per success, at its price, aged by exactly the requests counted since. |
| CostGateRuns.DebtIsOpenPrices | packages/compaction/compaction-cost-gate/src/gate.ts:26-31 | The gate's debt is the price of every compaction with fewer than five later requests. |
| CostGateLog.CountsOfList | packages/compaction/compaction-cost-gate/src/todo-diff.ts:35-48 | The counts of a list are those of its contents, each by the status of the last todo that has it. |
| CostGateLog.CountsAreHistory | packages/compaction/compaction-cost-gate/src/index.ts:150-217 | In every run the requests are those counted since the latch, and the snapshot and the completed steps are those of the last todo list. |
| CostGateLog.ShrinkIsMeasured | packages/compaction/compaction-cost-gate/src/index.ts:227-233 | In every run the shrink to count on is the share of the context that the last measured compaction took away, measured once, at the first enabled idle evaluation after its success, and none if the context grew. |
| CostGateLog.UnderWayIsHistory | packages/compaction/compaction-cost-gate/src/index.ts:282-311 | A compaction under way carries the context that its idle event read, and as its price that context and the debt open then. |
| CostGateLog.StartIsByTheLog | packages/compaction/compaction-cost-gate/src/index.ts:219-283 | An event starts a compaction exactly if it gets as far as the gate, is no dry run, and the compaction is worth it by the history: the requests, the done and open contents of the last list, the shrink last measured, and the prices of compactions with fewer than five later requests. |
| CostGateRuns.CompactionCostGate.ObserveStream | packages/compaction/compaction-cost-gate/src/index.ts:181-195 | Latches the first session and counts and ages for it only. |
| CostGateRuns.CompactionCostGate.ObserveTodos | packages/compaction/compaction-cost-gate/src/index.ts:201-217 | Diffs and arms for the latched session only. |
| CostGateRuns.CompactionCostGate.EvaluateIdle | packages/compaction/compaction-cost-gate/src/index.ts:220-287 | Ends in the model's state and says whether a compaction starts. |
| CostGateRuns.CompactionCostGate.CompactionEnded | packages/compaction/compaction-cost-gate/src/index.ts:294-342 | Success, expected and real failures change the state as the model says. |
| CostGateRuns.CompactionCostGate.SessionDisposed | packages/compaction/compaction-cost-gate/src/index.ts:153-159 | Releases the latch of its own session only. |
| Aliases.SuffixIsExact | packages/compat/cc-model-aliases/src/resolver.ts:181-208 | A suffix is split off exactly when the reference is a non-empty bare part without a trailing slash, a `$` and a legal level. |
| Aliases.BareMayKeepDollar | packages/compat/cc-model-aliases/src/resolver.ts:268-275 | Only the last suffix goes: a concrete reference whose bare part still contains a `$`. |
| Aliases.BareKeepsDollarExactly | packages/compat/cc-model-aliases/src/resolver.ts:181-208 | The bare part contains a `$` if and only if the reference has one besides that of a legal suffix. |
| Aliases.BareIsBacked | packages/compat/cc-model-aliases/src/resolver.ts:224-265 | A System One marker always comes from the model family or from an alias that declares the model. |
| Aliases.MarkedRouteIsRejected | packages/compat/cc-model-aliases/src/systemone-guard.ts:101-132 | A route marked System One is rejected by the chat guard, under its own or any parent provider, exactly if it names a model. |
| Aliases.EveryMarkedRouteIsRejected | packages/compat/cc-model-aliases/src/systemone-guard.ts:101-132 | If every marked target of the alias map names a model, as the declared target type demands of all, then every marked route names one and is rejected, for any reference, under its own or any parent provider. |
| Aliases.GuardCoversExactly | packages/compat/cc-model-aliases/src/systemone-guard.ts:101-132 | And only then: for maps of plain alias names the guard covers every marked route if and only if every marked target names a model. |
| Aliases.ModelLessTargetPasses | packages/compat/cc-model-aliases/src/systemone-guard.ts:101-132 | Every plain alias with the marker and no model resolves to a marked route that the guard lets pass under every provider. |
| Aliases.GuardCanMiss | packages/compat/cc-model-aliases/src/systemone-guard.ts:101-132 | A concrete map of that kind. |
| Aliases.OneHopOnly | packages/compat/cc-model-aliases/src/resolver.ts:296-323 | Resolution looks at the reference's own alias and one more; whatever else the map holds changes nothing. |
| Aliases.ProjectionsRefuseMarked | packages/compat/cc-model-aliases/src/agentOptions.ts:21-84 | Both chat projections refuse exactly the marked routes. |
| Aliases.FoldKeys | packages/compat/cc-model-aliases/src/resolver.ts:345-352 | The fold keeps the last value of every lower-cased key. |
| Aliases.MergeAliasMaps | packages/compat/cc-model-aliases/src/resolver.ts:100-123 | Settings replace or delete a key wholesale, control keys are no aliases, the rest is config. |
| AliasRules.BareRules | packages/compat/cc-model-aliases/src/resolver.ts:224-265 | What a reference without a level resolves to, for every name: inheriting words, configured objects, names followed for one hop, lanes that share a peer's route, and literal ids. |
| AliasRules.VerdictTells | packages/compat/cc-model-aliases/src/resolver.ts:224-265 | Where a verdict comes from: a configured object, a name followed to its alias, a lane's peer, or a builtin nobody configures. |
| AliasRules.LevelsByPattern | packages/compat/cc-model-aliases/src/resolver.ts:181-182 | A level is legal exactly if it is made of letters, digits and dashes and does not start with a dash. |
| AliasRules.LevelSetsEffort | packages/compat/cc-model-aliases/src/resolver.ts:268-292 | A legal level sets the effort of whatever the bare part resolves to, over the one that an alias pins, and changes nothing else. |
| AliasRules.PlainResolves | packages/compat/cc-model-aliases/src/resolver.ts:268-279 | Without a level a reference resolves by these rules; a blank one inherits. |
| AliasRules.LevelHidesLiteral | packages/compat/cc-model-aliases/src/resolver.ts:166-172 | A literal id is reported as a literal exactly if it comes without a level; with one it is reported as an alias. |
| AliasRules.AliasIsReported | packages/compat/cc-model-aliases/src/resolver.ts:141-172 | A configured alias is reported as one whatever it resolves to, unless it inherits or names the reference itself. |
| AliasRules.LastOfMeans | packages/compat/cc-model-aliases/src/resolver.ts:345-352 | Of the entries of a record with the same folded key the last one counts. |
| AliasRules.MergeMeans | packages/compat/cc-model-aliases/src/resolver.ts:100-123 | The merged target of a key: the last setting for it decides, a null deletes, a control key does not count, and the config decides otherwise. |
| AliasRules.GuardIsExact | packages/compat/cc-model-aliases/src/systemone-guard.ts:101-132 | The guard rejects exactly the models of the family and those that an alias marked System One declares, for its provider or any. |
| AliasRules.ProjectionsAreExact | packages/compat/cc-model-aliases/src/agentOptions.ts:21-84 | What the two projections make of a route that they do not refuse. |
| WorkflowCommands.StepKeepsInv | packages/core/tool-workflow/src/commands.ts:160-200 | Mounts, adoptions, remounts and releases keep the reference count and the registered names consistent. |
| WorkflowCommands.CommandsBelongToLiveMount | packages/core/tool-workflow/src/commands.ts:160-200 | All registered commands are those of the live mount, which some fiber holds. |
| WorkflowCommands.NothingLeftBehind | packages/core/tool-workflow/src/commands.ts:187-200 | With every fiber torn down no command is left behind. |
| WorkflowCommands.LiveWhileNewestIsHeld | packages/core/tool-workflow/src/commands.ts:160-200 | At every point of a run a mount is live, and then it is the newest one, if and only if some fiber of the newest mount is not torn down. |
| WorkflowCommands.GoneUnderALivingFiber | packages/core/tool-workflow/src/commands.ts:321-339 | So the commands are gone although a fiber lives if and only if every living fiber holds an older mount. |
| WorkflowCommands.OlderFiberLosesCommands | packages/core/tool-workflow/src/commands.ts:321-339 | After a remount the commands go away with the remounting fiber although an older fiber lives on. |
| WorkflowCommands.ProcessMounts.Dispose | packages/core/tool-workflow/src/commands.ts:193-200 | The disposer loop unregisters exactly the mount's names. |
| WorkflowCommands.ProcessMounts.MountSaved | packages/core/tool-workflow/src/commands.ts:321-339 | Adopts or remounts as the model says. |
| WorkflowCommands.ProcessMounts.ReleaseFiber | packages/core/tool-workflow/src/commands.ts:188-191 | The last holder out unregisters; a replaced mount is left alone. |

## Left out

- The file system, realpath, git, HTTP, stdio, schema validation and service wiring; files never fail halfway except where an operation has a failure parameter.
- The harness itself (session log, agent loop, projections): assumed is what its call sites rely on, such as a surface replacement keeping its position.
- Error message texts, warnings, log rows, notices' wording and everything that is only rendered.
- The ACP session's creation, loading, replay, modes and the draining second half of `close`; prompt contents and the payloads of updates; `agent.whenIdle()` may wake at any moment in the model, which allows more runs than the agent does.
- ACP: reading the model selection at the start of a prompt (`agent.model.current()`, `session.ts:273`) is assumed not to throw. It lies outside the inner `try`, so that a throw there would leave the slot held.
- AcpProgress.EveryQuietScheduleSettles: while the agent stays idle, has no live descendants and commits nothing new; when and whether a busy agent goes idle is up to the agent, which is not part of this model.
- AcpQuiescence.UncancelledSettlementWasQuiescent: about prompts whose end was decided after the wait; a cancelled prompt waits for its cancellation signal and not for quiescence. What is left of its wait once the agent is idle is bounded by `AcpProgress.DistanceIsBounded`; how long the agent stays busy is not. What ends that wait is in `AcpCancellation.CancelledWaitWasReleased`.
- Plugins: reading and validating manifests, `classifySource`, `resolveMutationScope` on unknown scope names, the projects' paths in `resolveScope`, `overrideNote`, `isVisible`, and the rows and filters of the listing.
- PluginViews.InstallAppendsOne: the copied directory, its version, the clock and the git commit are parameters, and the copy is one atomic result.
- PluginAgreement.UninstallView: success and the chosen id are compared between stores, not which error a failing call reports.
- PluginAgreement.AddView: compares success, not which error a failing call reports; the clone directory and its rollback after a conflict are not modelled, and what a clone would yield is a parameter.
- PluginDiscovery.DiscoveryAgreesWithList: the manager's local settings file (`settingsFileForScope` of `paths.ts`, under the git main root) and the loader's (`resolveLocalSettingsDir`, which falls back to the working directory for repositories at $HOME, foreign owners and Windows) are assumed to be the same file, and the two working directories the same.
- PluginDiscovery.Discover: the order of the enabled keys, and so which of two ids with one directory is kept, is arbitrary; the check that the directory exists is left out.
- PluginRemoval.RemovalForgetsEverything: the removal goes through the ids in any order that lists each once, where the source sorts them; the deletion of clone directories and caches is not modelled.
- JavaScript property order and the special key `__proto__` in maps and JSON objects.
- Journal.CutJournal: number lexemes are read by a parameter that is assumed right on safe integers; file appends and the registry around the journal are not modelled.
- SessionCursor.EncodedCursorDecodes: under the same assumption on reading numbers; malformed UTF-8 is decoded by a parameter.
- SessionTokens.TokensFollowKeys: creation times are integers.
- SessionList.NoIdTwice: for ids whose creation times do not change between pages, and without ids that tie; the filter by working directory and the titles are not modelled.
- TailQueue.QueueIsSerial: a queue is a machine over calls and settlements without a class, because its whole state is one captured promise.
- McpSeam.QuietSeam: each disposer is called at most once and disposing a fiber twice is harmless; building the server configuration and the registry's preflight are not modelled.
- Microcompact.PassFreezes: without the substituted framed digests, which lack the marker; loading the digests, the token estimate in a price event and the summary text are parameters.
- Progress.FoldIsJustified: receipts, calls and todos; the goal part of the projection and schema parsing are not modelled.
- Brief.BriefKeepsFixedLines: line clipping cuts at characters where the source cuts at UTF-16 code units; the goal's line and the time stamps are parameters.
- BriefAscii.AsciiBriefFits: the todo list has fewer than 2^32 items, as every JavaScript array has.
- CrusherRouting.RoutedByShares: the row pattern is a partial split whose parts join to the line again; signal patterns are a predicate, and the shares are compared as whole numbers, which agrees with the source's division of counts below 2^49.
- CrusherStore.GetIsFaithful: hash and redaction are functions, the hash without collisions; files left by an earlier process are content-addressed; and operations come one after the other; concurrent puts and files changed from outside are not modelled.
- CostGateRuns.SuccessesAreApart: idle evaluations come one after the other; overlapping ones, price lookup and the ledger rows are not modelled.
- Aliases.OneHopOnly: trimming and lower-casing are functions; the warnings given once per alias, the provider registry and the `/doctor` report are not modelled.
- WorkflowCommands.StepKeepsInv: the scan of the workflow files, the checks of their metadata and a host without a command registry are not modelled.
- Hook, skill, command, rule and agent mounting of the loader, tool search, notebook editing, web fetching, output styles, prompts and the terminal interface: no state machine of their own.
