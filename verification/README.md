# Verified model of the hard core of the Flock desktop application

The project models, component by component, the parts of the application in which state,
concurrency, crashes or text formats make correctness hard, and proves what they are for.
Each module is one component; code that changes state is a class or a method with loops,
proved against a specification whose own properties are then proved.

- `SignIn`: the table of sign-in attempts, its guards, and the interleavings of sign-in, sign-out,
  cancel, timeout and child exit. An account belongs to one fixed provider.
- `Attestation`: the hash cache of the runtime attestation script while other processes modify
  files and damage or unprotect the cache. A modified file shows an identity never seen before, and what a
  readable cache holds was written by `save`.
- `DiskModel`, `Documents`, `SettingsStore`, `QueueStore`: write-then-rename stores on a disk whose
  directory operations become durable later than they are made, and whose unsynced bytes a power
  cut may replace by anything.
- `SetupRegistry`, `InstallChain`: the registry of setup operations with its time to live, and the
  install, update and verify chain against arbitrary answers of the doctor.
- `NavigationHistory`, `ArchiveQueue`: the back/forward history as a zipper, with the history effect
  as a step of its own, and archiving behind a chain of promises.
- `WorkspaceContext`, `AgentSkills`: merging instruction files of overlapping workspaces, and which
  skill of a name wins.
- `GitChanges`, `GitEnv`: the NUL-separated output formats of git, and the environment of a git child.
- `Base64`, `AvatarImport`, `Avatars`: section 4 of RFC 4648 and the lengths computed from it, and the
  ownership, rollback and deletion of avatar files.
- `JsonTree`, `McpSources`, `McpUpdate`: edits of one entry of a JSON document, finding it again by its
  id, and replacing the file with a backup while other programs write it.
- `Text`, `Ordering`, `Wrappers`: shared vocabulary.

Where the code does not keep what its comments or documentation suggest, the code is modelled and
the exact condition is proved:

- Settings are written with a synced temporary file and a rename, but the directory is never
  synced: a power cut can undo an update that returned Ok, if and only if its rename is not yet
  durable (`SettingsStore.AcknowledgedCanBeLostIffNotFlushed`, and `AcknowledgedUpdateLost` for a run).
- The settings document is capped when read and not when written
  (`SettingsStore.OversizeRefusesEveryUpdate`, reached by `UpdateWedgesIffOversize`).
- Clearing a setup status removes a running entry too (`SetupRegistry.ClearKeepsMatchIffTerminal`).
- Going back to an entry that shows what is already shown leaves the history applying
  (`NavigationHistory.BackStaysApplyingIffNothingChanges`, `BackToArchivedChatSwallowsTheNextEntry`).
- The skill list sorts by ASCII case but deduplicates by full lower case, so beyond ASCII a project's
  skill can lose to an app's (`AgentSkills.KeyIsListedIffLeast`).
- Enabling an MCP entry that is neither object nor null panics (`JsonTree.EditOfPresentEntry`), and
  the local projects of one file share ids (`McpSources.LocalProjectsShareAnId`).
- Leaving the ssh command out of a git environment does not hold when no ssh program is set either
  (`GitEnv.ExplicitTransportWins`, `LeftOutSshCommandIsSet`), and a captured environment ignores what the command said
  (`GitEnv.CapturedForgetsTheCommand`).
- A cancelled sign-in whose child could not be killed reports success while the child runs
  (`SignIn.CancelCanReturnBeforeTheChildExits`).
- The avatar of an agent whose file is gone cannot be deleted (`Avatars.AgentGoneRefusesDelete`).

## Model

| member | source | states |
|---|---|---|
| SignIn.LoginRegistry.constructor | src-tauri/src/commands/provider_accounts.rs:112-125 | the table starts empty, with no cancelled and no finished attempt |
| SignIn.LoginRegistry.Acquire | src-tauri/src/commands/provider_accounts.rs:128-161 | refuses exactly when the provider has an entry, and then changes nothing; otherwise inserts the one entry of a new serial |
| SignIn.LoginRegistry.Drop | src-tauri/src/commands/provider_accounts.rs:164-171 | removes the provider's entry and marks that attempt finished, and nothing else |
| SignIn.LoginRegistry.CancelLogin | src-tauri/src/commands/provider_accounts.rs:173-195 | for any search order: Ok(nothing) iff no entry has the account, an error iff the entry found bears another attempt id, else exactly that attempt's flag is raised |
| SignIn.RunKeepsInv | src-tauri/src/commands/provider_accounts.rs:112-246 | table, account-change, child and cancel invariants hold in every interleaving of sign-ins, sign-outs, cancels, timeouts, child exits and other account changes |
| SignIn.EntriesAreLiveGuards | src-tauri/src/commands/provider_accounts.rs:112-171 | in every run entries and live login guards are in bijection, keyed by provider |
| SignIn.ProviderCallsExclude | src-tauri/src/commands/provider_accounts.rs:378-431 | in every run two calls of one provider never both hold the login guard, and two changes of one account never both hold the account guard |
| SignIn.DropRemovesOwnEntry | src-tauri/src/commands/provider_accounts.rs:164-171 | in every run dropping a guard removes the entry its own acquisition inserted and no other |
| SignIn.CancelSearchIsDeterministic | src-tauri/src/commands/provider_accounts.rs:173-195 | in every run an account occurs in at most one entry, that of its provider |
| SignIn.CancelRaisesOnlyItsOwnFlag | src-tauri/src/commands/provider_accounts.rs:173-195 | a cancel raises at most the flag of the sign-in bearing its account and its attempt id; a different attempt id changes no flag |
| SignIn.CancelReturnsAfterRelease | src-tauri/src/commands/provider_accounts.rs:197-246 | in every run a cancel that matched returns Ok only after that attempt's entry is gone, its account guard is released and its child has exited unless stopping it failed |
| SignIn.CallsMoveAlongEdges | src-tauri/src/commands/provider_accounts.rs:501-577 | a call's own step changes its phase exactly along one edge of the protocol, for the reason that edge names: each phase is left only as the source's branch leaves it, a passed deadline of a running sign-in only to the kill |
| SignIn.DeadlineStopsTheChild | src-tauri/src/commands/provider_accounts.rs:232-246 | when the deadline of a running sign-in passes it goes on to stop its child, which stays minded until it is killed and waited for |
| SignIn.ChildChangesOnlyBy | src-tauri/src/commands/provider_accounts.rs:216-246 | for every step: whether a child is alive changes only by the call's own spawn, a kill that works or the child's exit |
| SignIn.UnconfirmedOnlyByFailure | src-tauri/src/commands/provider_accounts.rs:216-246 | over every run: the exception is recorded for a call only by a kill or a wait of it that failed, and for a sign-out also by its deadline |
| SignIn.ChildOutlivesCancelOnlyByFailure | src-tauri/src/commands/provider_accounts.rs:197-246 | over every run from a fresh registry: a cancel that returns Ok leaves a sign-in's child running only if a kill or a wait of it failed |
| SignIn.OwnStepsDescend | src-tauri/src/commands/provider_accounts.rs:501-577 | every step of a call's own moves it forward, so it makes at most nine |
| SignIn.WayOutFinishes | src-tauri/src/commands/provider_accounts.rs:216-246 | from any point a cancelled sign-in reaches its finished signal by its own steps alone |
| SignIn.WaitingCancelCanReturn | src-tauri/src/commands/provider_accounts.rs:197-214 | from every reachable state in which a cancel waits, steps of the cancelled call alone let it return Ok: nothing else can block it |
| SignIn.UndisturbedSignInCompletes | src-tauri/src/commands/provider_accounts.rs:501-577 | in every reachable state an undisturbed sign-in of a free provider and account runs its child, waits for it and leaves table, account changes and other calls as they were |
| SignIn.FailedKillLeavesChild | src-tauri/src/commands/provider_accounts.rs:216-246 | the exception in CancelReturnsAfterRelease: from any state in which a cancelled call is about to stop a live child, a failed kill lets the waiting cancel return Ok while the child runs |
| SignIn.CancelCanReturnBeforeTheChildExits | src-tauri/src/commands/provider_accounts.rs:197-246 | the exception is reachable: after any run a sign-in of a free provider and account can be cancelled so that the cancel returns Ok while its child runs |
| Attestation.Host.constructor | src-tauri/resources/benchmark-linux-text-attestation.py:50-76 | any file system with a missing, damaged, unprotected or sound cache satisfies the invariant |
| Attestation.Host.OpenProtected | src-tauri/resources/benchmark-linux-text-attestation.py:95-106 | while no file is modified: opens exactly a protected regular file, as lstat and open see it |
| Attestation.Host.AgreedInfo | src-tauri/resources/benchmark-linux-text-attestation.py:95-121 | an identity is agreed only if descriptor and path show the same one, and then the path holds the bytes that identity always had |
| Attestation.Host.ReadAndHash | src-tauri/resources/benchmark-linux-text-attestation.py:107-114 | a chunked read between two equal identities hashes the bytes that identity always had, whoever wrote meanwhile, and counts as a full hash |
| Attestation.Host.DigestOf | src-tauri/resources/benchmark-linux-text-attestation.py:41-47 | a cache hit and a full hash give the same digest of an open file whose identity has not changed; the file is hashed in full iff there is no hit |
| Attestation.Host.DigestUnchanged | src-tauri/resources/benchmark-linux-text-attestation.py:95-121 | the digest returned is the hash of the bytes held at one moment between the two identity checks; exactly its entry is added |
| Attestation.Host.AttestFile | src-tauri/resources/benchmark-linux-text-attestation.py:95-121 | an artifact is what its name stood for during the call; while no file is modified it is the one a full hash gives |
| Attestation.Host.Collect | src-tauri/resources/benchmark-linux-text-attestation.py:135-162 | every role in order is attested; while no file is modified the result is that of hashing all of them |
| Attestation.Host.OpenCache | src-tauri/resources/benchmark-linux-text-attestation.py:52-76 | fails iff the cache is unprotected; gives exactly the entries of a cache of this context with at most eight of them, else none; each digest read back is the hash of what its identity held |
| Attestation.Host.Save | src-tauri/resources/benchmark-linux-text-attestation.py:78-92 | succeeds iff the cache can be written, and then it holds exactly this context and these entries; it is sound, so the invariant holds of the next call |
| Attestation.Host.ReadReceipt | src-tauri/resources/benchmark-linux-text-attestation.py:209-217 | the receipt read is what its identity holds; while no file is modified it is read exactly when readable and protected |
| Attestation.Host.ValidateReceipt | src-tauri/resources/benchmark-linux-text-attestation.py:165-174 | accepts only artifacts the receipt lists exactly, for exactly the provider's runtime, each attested; while no file is modified it agrees with strict validation |
| Attestation.Host.StillInPlace | src-tauri/resources/benchmark-linux-text-attestation.py:226-229 | true only if the receipt that was read is the one in place |
| Attestation.Host.VerifyReceipt | src-tauri/resources/benchmark-linux-text-attestation.py:207-235 | in every run of verify, verify-cold and verify-strict amid modifications: what is printed was listed by a protected receipt in place that, decoded, was a passed qualification of schema 1 and this recipe for this provider, revision and policy; it names exactly the provider's runtime, each file hashed during this call; while no file is modified it is what verify-strict prints, and if the cache is protected and writable throughout it accepts exactly when verify-strict does; verify-cold and verify-strict hash every file they print in full; the cache is saved once iff a run other than verify-strict accepts, for this very receipt and request and with every file printed |
| Attestation.VerifiedNow | src-tauri/resources/benchmark-linux-text-attestation.py:225-229 | attested artifacts together with the receipt still in place give the full claim of an accepting verification |
| Attestation.VerifiedMeans | src-tauri/resources/benchmark-linux-text-attestation.py:165-174 | what accepting means, on what the decoder found in the receipt: schema, recipe, provider, sandbox revision, policy fingerprint, status and the very artifacts |
| Attestation.RolesAreTheRuntime | src-tauri/resources/benchmark-linux-text-attestation.py:135-162 | the roles hashed and reported for a provider, and the names their files are found under, are those of its table: entry point and Claude CLI; entry point, launcher and native executable; Grok's entry point as its native executable too; entry point alone; entry point and ripgrep |
| Attestation.StrictCollectIsRuntime | src-tauri/resources/benchmark-linux-text-attestation.py:135-162 | hashing every role gives certain artifacts iff they are exactly those of the provider's runtime |
| Attestation.StrictOutcomeIff | src-tauri/resources/benchmark-linux-text-attestation.py:165-235 | verify-strict prints certain artifacts iff the request is well formed, directories and receipt are protected and small enough, the receipt decodes to a passed qualification for this provider, revision and policy that lists them, and they are the runtime's; so a stale receipt is always refused |
| Attestation.QualifiesIff | src-tauri/resources/benchmark-linux-text-attestation.py:165-174 | a receipt's content is accepted iff every field of its header is the one requested and it lists the artifacts |
| Attestation.ProtectedReceiptIff | src-tauri/resources/benchmark-linux-text-attestation.py:211-213 | a receipt is protected iff it is a regular file of root that neither group nor others may write, of one name and at most 8192 bytes |
| Attestation.CachedDigestIff | src-tauri/resources/benchmark-linux-text-attestation.py:41-47 | a cached entry gives a digest iff it was saved for the very identity observed and is 64 lower-case hexadecimal digits |
| Documents.MergedStep | src-tauri/src/commands/flock_store.rs:56-70 | one turn of the merge loop, for any key order: null removes, only_missing skips a present key |
| SettingsStore.MergePatch | src-tauri/src/commands/flock_store.rs:56-70 | the loop computes the merged object whatever the order of the keys |
| SettingsStore.ReadFindsFold | src-tauri/src/commands/flock_store.rs:121-139 | what an update reads under the lock, when it can be read, is the fold of everything committed |
| SettingsStore.RenameKeepsInv | src-tauri/src/commands/flock_store.rs:212-231 | the rename commits one more patch and never exposes bytes that were not synced |
| SettingsStore.CrashKeepsInv | src-tauri/src/commands/flock_store.rs:212-238 | a power cut at any step leaves a state in which every later run is again described by the same invariant |
| SettingsStore.RunKeepsInv | src-tauri/src/commands/flock_store.rs:36-74 | the invariant holds in every run of concurrent updates with a failure or a power cut at any file step |
| SettingsStore.ReadIsFoldOfLog | src-tauri/src/commands/flock_store.rs:36-74 | in every run reading gives exactly the fold, in lock order, of the committed patches, or fails iff its print exceeds the size that is read |
| SettingsStore.CrashLeavesFoldOfPrefix | src-tauri/src/commands/flock_store.rs:212-238 | after a power cut the document is the original, or the whole print of the fold of a prefix of the commits, never a partial one |
| SettingsStore.UnreadableDocumentIsLeftAlone | src-tauri/src/commands/flock_store.rs:50-55 | in every run from a document that does not parse or is too large, whatever updates, failures and power cuts it has: nothing is committed, no update returns Ok, and the document still has exactly its first bytes |
| SettingsStore.FirstUpdateCommitsIff | src-tauri/src/commands/flock_store.rs:50-69 | the first undisturbed update commits the merged document iff there is none yet or it is of the size that is read and parses |
| SettingsStore.ReturnedErrorLeavesNoTrace | src-tauri/src/commands/flock_store.rs:36-74 | in every run an update that returned an error is neither in the document nor ever was, and one is acknowledged iff it returned Ok |
| SettingsStore.FailureEndsTheUpdate | src-tauri/src/commands/flock_store.rs:212-238 | whichever step of an update fails, it returns an error with the lock free and the log and the document as they were; a failed rename takes its temporary file away |
| SettingsStore.UndisturbedUpdateCommits | src-tauri/src/commands/flock_store.rs:50-69 | an update that finds the lock free and the document readable, and whose steps succeed, commits its patch last, puts the whole merged document in place with its data durable, returns Ok and moves no other update |
| SettingsStore.AcknowledgedUpdatesLast | src-tauri/src/commands/flock_store.rs:36-74 | while no power cut undoes a rename, whatever other directory operations it undoes, every update that returned Ok is in the fold |
| SettingsStore.NothingLost | src-tauri/src/commands/flock_store.rs:212-231 | in such a run no committed update is ever lost: the log only grows |
| SettingsStore.StepLosesNothingIff | src-tauri/src/commands/flock_store.rs:212-231 | a step takes a commit back iff it is a power cut that undoes a rename |
| SettingsStore.CutWhileWritingUndoesNoRename | src-tauri/src/commands/flock_store.rs:217-219 | a cut while a later update writes undoes only the creation of its temporary file, and so no rename |
| SettingsStore.CommitCanBeLostIffNotFlushed | src-tauri/src/commands/flock_store.rs:212-238 | a power cut can take the j-th commit back iff its rename is not among the durable directory operations, the directory never being synced |
| SettingsStore.AcknowledgedCanBeLostIffNotFlushed | src-tauri/src/commands/flock_store.rs:212-238 | an update that returned Ok can be lost to a power cut iff its rename is not among the durable directory operations |
| SettingsStore.AcknowledgedUpdateLost | src-tauri/src/commands/flock_store.rs:212-238 | it happens: the first update returns Ok, the power is cut, and the settings read as if it had never been |
| SettingsStore.DurableUpdatesStay | src-tauri/src/commands/flock_store.rs:212-238 | a commit whose rename is durable stays in every later run, whatever crashes |
| SettingsStore.OversizeRefusesEveryUpdate | src-tauri/src/commands/flock_store.rs:121-139 | the size is capped when read but not when written: in every run from a document beyond the cap no update commits, whatever it removes, and reading fails, unless a power cut undoes a rename |
| SettingsStore.UpdateWedgesIffOversize | src-tauri/src/commands/flock_store.rs:50-69 | an undisturbed update gets the store there iff what it writes is beyond the cap |
| QueueStore.ApplyUpdates | src-tauri/src/commands/message_queues.rs:112-118 | the session loop computes the right-biased update whatever the order; null removes a session |
| QueueStore.QueueStore.QuarantineDocument | src-tauri/src/commands/message_queues.rs:80-84 | renames a malformed file to a fresh name; on failure the disk is as before |
| QueueStore.QueueStore.WriteChunks | src-tauri/src/commands/flock_store.rs:234-238 | however it is cut into chunks, the pending file holds exactly the bytes unless an operation failed |
| QueueStore.QueueStore.WriteFileSynced | src-tauri/src/commands/flock_store.rs:234-238 | on success the pending file holds exactly the bytes, durably; at every step a crash finds the old state |
| QueueStore.QueueStore.CommitPending | src-tauri/src/commands/message_queues.rs:130-143 | on success the document is the whole new one; on failure the disk is unchanged |
| QueueStore.QueueStore.ReadQueues | src-tauri/src/commands/message_queues.rs:97-111 | gives the queues that were there, none for a malformed file, which is quarantined on the way; a file that is not text refuses the update |
| QueueStore.QueueStore.Persist | src-tauri/src/commands/message_queues.rs:130-143 | the queues read afterwards are the new ones iff it succeeded, else the old ones |
| QueueStore.QueueStore.Update | src-tauri/src/commands/message_queues.rs:86-128 | succeeds iff the updates parse, the file is text or absent and no file operation fails; success leaves the updated queues, failure leaves them as they were, and every state on the way is safe to crash in |
| QueueStore.CrashKeepsOriginalOrWhole | src-tauri/src/commands/message_queues.rs:78-143 | wherever a crash of a stopped update falls back to, it leaves what a crash before the update could have left, or else the malformed original at its path or a quarantine name and as document only the old or the whole new one |
| QueueStore.UpdateKeepsOriginal | src-tauri/src/commands/message_queues.rs:78-143 | stopped anywhere, an update keeps an unparseable file it found and all that earlier updates had quarantined, in every directory a crash could fall back to |
| QueueStore.CrashKeepsOriginal | src-tauri/src/commands/message_queues.rs:78-143 | a crash leaves a disk the store can go on from, with those bytes still there |
| QueueStore.EveryRunKeepsOriginal | src-tauri/src/commands/message_queues.rs:78-143 | in every run of stopped or finished updates, flushes and power cuts the unparseable bytes stay at the path or a quarantine name |
| QueueStore.OriginalSurvivesEveryRunIffKept | src-tauri/src/commands/message_queues.rs:78-143 | unparseable bytes survive every such run iff every directory that was not yet durable to begin with has them |
| QueueStore.DurableMalformedIsKept | src-tauri/src/commands/message_queues.rs:78-84 | which is so for a malformed file whose directory is durable |
| QueueStore.QueueStore.PowerCut | src-tauri/src/commands/message_queues.rs:78-143 | a power cut leaves a valid store and is a possible event of a run |
| QueueStore.RunIsFold | src-tauri/src/commands/message_queues.rs:86-128 | any run of updates leaves the fold, in lock order, of those that succeeded |
| QueueStore.LastUpdateDecides | src-tauri/src/commands/message_queues.rs:112-118 | the last update that names a session decides about it |
| QueueStore.DisjointUpdatesCommute | src-tauri/src/commands/message_queues.rs:112-118 | updates of different sessions commute |
| SetupRegistry.AgentSetupRegistry.constructor | src-tauri/src/commands/agent_setup.rs:230-246 | the registry starts empty |
| SetupRegistry.AgentSetupRegistry.Begin | src-tauri/src/commands/agent_setup.rs:248-261 | starts iff no entry of the provider is running; otherwise returns the running entry and changes nothing |
| SetupRegistry.AgentSetupRegistry.Mutate | src-tauri/src/commands/agent_setup.rs:263-277 | applies the change and sweeps; nothing happens for an unknown provider |
| SetupRegistry.AgentSetupRegistry.Remove | src-tauri/src/commands/agent_setup.rs:290-292 | removes the entry whatever its status |
| SetupRegistry.PushOutputLine | src-tauri/src/commands/agent_setup.rs:321-327 | keeps the last fifty lines |
| SetupRegistry.LastLinesOfStream | src-tauri/src/commands/agent_setup.rs:321-327 | truncating line by line keeps the last lines of the whole stream |
| SetupRegistry.RunKeepsInv | src-tauri/src/commands/agent_setup.rs:789-877 | one live task per running entry and output as the tail of the stream, in every run whose clears hit no running entry |
| SetupRegistry.TasksMatchEntries | src-tauri/src/commands/agent_setup.rs:789-877 | in such a run a provider has exactly one live task if its entry is running and none otherwise, and its output is the last at most fifty lines streamed since it began |
| SetupRegistry.StartShowsTheAction | src-tauri/src/commands/agent_setup.rs:248-300 | a start is refused while the entry is running; otherwise the new entry shows the action, its phase, no output, no error and the time, and of the others only those that ended ten minutes ago are dropped |
| SetupRegistry.RunningTaskReports | src-tauri/src/commands/agent_setup.rs:263-277 | while its task runs an entry takes on the phase, or the line as the last of at most fifty, and nothing else of it changes |
| SetupRegistry.FinishShowsTheResult | src-tauri/src/commands/agent_setup.rs:853-877 | a task that ends leaves its entry idle: succeeded and without an error, or failed with the error it ended with |
| SetupRegistry.ClearKeepsMatchIffTerminal | src-tauri/src/commands/agent_setup.rs:821-824 | a clear keeps tasks and entries matched iff it hits no running entry |
| SetupRegistry.ClearingARunningEntryDoublesTheTask | src-tauri/src/commands/agent_setup.rs:821-824 | clearing a running entry lets a second task of the provider start beside the first |
| SetupRegistry.BeginDropsExactlyTheStale | src-tauri/src/commands/agent_setup.rs:248-261 | a successful begin drops exactly the other terminal entries that ended ten minutes before the sweep or earlier |
| SetupRegistry.MutateDropsExactlyTheStale | src-tauri/src/commands/agent_setup.rs:263-277 | a mutation drops exactly the terminal entries that ended ten minutes before the sweep or earlier |
| InstallChain.InstallFixForCheck | src-tauri/src/commands/agent_setup.rs:777-783 | offers a fix iff the check's own fix is an install recipe |
| InstallChain.AuthorizeUpdateFixes | src-tauri/src/commands/agent_setup.rs:551-575 | passes the slots on unless one is named twice |
| InstallChain.AtMostTwoInstalls | src-tauri/src/commands/agent_setup.rs:333-338 | an install part is at most three checks with two different recipes between them |
| InstallChain.AtMostTwoUpdates | src-tauri/src/commands/agent_setup.rs:577-612 | only the two update slots have commands, so an update part is one fresh check and at most two updates |
| InstallChain.UpdateCommandIff | src-tauri/src/commands/agent_setup.rs:577-612 | a slot has a command iff its own readout offers that very update with it |
| InstallChain.UpdatesRunTheirOwnCommand | src-tauri/src/commands/agent_setup.rs:927-934 | each update that ran is the plan's next one, with the command the fresh check's readout of its own slot gave |
| InstallChain.SlotIsRefusedIff | src-tauri/src/commands/agent_setup.rs:577-612 | after updates that went through, the next slot is refused iff its own readout is absent, offers another fix or has no command |
| InstallChain.FirstInstallIsTheRequested | src-tauri/src/commands/agent_setup.rs:757-773 | the first recipe that runs is the one the plan asks for, and the check read before it offered it |
| InstallChain.VerifiedIff | src-tauri/src/commands/agent_setup.rs:521-549 | a wanted verification passes iff the check has a path, or a bridge path that is not the bundled one |
| InstallChain.Setup.InstallPass | src-tauri/src/commands/agent_setup.rs:911-916 | one pass: the recipe, then what the next check offers; it ends early only if the recipe failed or the check gave no answer |
| InstallChain.Setup.Seed | src-tauri/src/commands/agent_setup.rs:757-773 | the plan's recipe seeds the loop only if the check just read offers exactly it |
| InstallChain.Setup.InstallMissing | src-tauri/src/commands/agent_setup.rs:903-916 | for any answers the loop ends; each recipe runs at most once, offered by the check read just before; it succeeds only once nothing or only a recipe already run is offered, and otherwise ends for one of the three stated reasons |
| InstallChain.Setup.RunUpdates | src-tauri/src/commands/agent_setup.rs:927-934 | one fresh check, then the requested slots in order, each with the command its own readout gives, until one is refused or fails; success means all of them ran |
| InstallChain.Setup.VerifyInstalled | src-tauri/src/commands/agent_setup.rs:521-549 | passes iff no verification was wanted or the check satisfies the plan |
| InstallChain.Setup.RunInstall | src-tauri/src/commands/agent_setup.rs:882-943 | for every plan and all answers the chain ends; its trace is an install part, an update part and a verification, it succeeds iff all three went through, and nothing follows the one that stopped |
| NavigationHistory.History.constructor | src/app/AppShell.tsx:690-704 | one entry, nothing behind or ahead |
| NavigationHistory.History.UpdateAvailability | src/app/AppShell.tsx:1062-1075 | the flags say whether the zipper has entries behind and ahead |
| NavigationHistory.History.LocationChanged | src/app/AppShell.tsx:1090-1127 | the effect refines the zipper: settle an applied location, replace, ignore an equal one, or push |
| NavigationHistory.History.PushEntry | src/app/AppShell.tsx:1116-1126 | keeps the newest 49 of past and current and clears the future |
| NavigationHistory.History.GoBack | src/app/AppShell.tsx:3605-3641 | moves one entry back, or returns from settings to the chat just behind |
| NavigationHistory.History.GoForward | src/app/AppShell.tsx:3642-3658 | moves one entry forward |
| NavigationHistory.History.ReplaceSessionId | src/app/AppShell.tsx:1077-1088 | every entry of the old session becomes one of the new; every other entry and the position stay |
| NavigationHistory.HistoryIsBounded | src/app/AppShell.tsx:290 | in every run there are one to fifty entries |
| NavigationHistory.RenameMovesTheSession | src/app/AppShell.tsx:1077-1088 | after a rename to another session no entry shows the old one: each is the new one's; all others, the position and the flags are as before |
| NavigationHistory.PushKeepsNewest | src/app/AppShell.tsx:1116-1126 | a push keeps the newest 49 of past and current in order and clears the future |
| NavigationHistory.WalkMovesPosition | src/app/AppShell.tsx:3605-3658 | walking changes no entry; the position moves by the balance of forwards and backs |
| NavigationHistory.BalancedWalkReturns | src/app/AppShell.tsx:3605-3658 | any walk inside the history with as many forwards as backs ends at the same past, current and future entries when each applied location settles as itself |
| NavigationHistory.BacksThenForwardsStayInside | src/app/AppShell.tsx:3605-3658 | k possible backs and then possible forwards never run into an end |
| NavigationHistory.WalkHasSettledIff | src/app/AppShell.tsx:1090-1102 | after a walk nothing is being applied iff its last location has settled |
| NavigationHistory.BacksThenForwardsRestoreIff | src/app/AppShell.tsx:3605-3658 | k backs and then k forwards restore the whole state, flags included, iff the last location has settled |
| NavigationHistory.BackStaysApplyingIffNothingChanges | src/app/AppShell.tsx:1090-1102 | after going back isApplying stays set iff the location shown does not change |
| NavigationHistory.NavigationPushesIffNoFlagIsSet | src/app/AppShell.tsx:1090-1127 | a new location becomes a new entry iff neither flag is set, else it overwrites the current one |
| NavigationHistory.BackToArchivedChatSwallowsTheNextEntry | src/app/AppShell.tsx:3584-3600 | the stale flag occurs in a run from launch: home, a chat, home again on archiving it; going back shows home still, and the next navigation overwrites the chat entry instead of being put behind it |
| ArchiveQueue.RunKeepsInv | src/app/AppShell.tsx:3076-3081 | the promise chain invariant holds in every run of calls |
| ArchiveQueue.OneAtATimeInCallOrder | src/app/AppShell.tsx:3076-3246 | in every run archive calls run one at a time in call order, their effects never interleaved |
| ArchiveQueue.FrontCanProceed | src/app/AppShell.tsx:3244-3246 | no call is stuck: the front one can enter, and its leaving lets the next one in |
| ArchiveQueue.CallsAreQueuedAndRecorded | src/app/AppShell.tsx:3076-3081 | every call waits behind those already there; what a running body does is recorded as its own |
| ArchiveQueue.Keepable | src/app/AppShell.tsx:3142-3144 | exactly the plans that would discard no file are kept |
| ArchiveQueue.KeepableFilters | src/app/AppShell.tsx:3142-3144 | plan by plan: what would discard files goes, all else stays, in order and as often as it was there |
| ArchiveQueue.ProperExtends | src/app/AppShell.tsx:3196-3213 | an effect that respects the restrictions keeps the whole trace within them: terminals and workspaces after the archive, a branch only when safe and after its worktree |
| ArchiveQueue.WouldDiscardFilesIff | src/features/chat/lib/sessionWorkspaceCleanup.ts:41-65 | a plan would discard files iff there are uncommitted or ignored ones and its worktree, or a branch made for the chat, would go |
| ArchiveQueue.EveryPlanIsTried | src/features/chat/lib/sessionWorkspaceCleanup.ts:308-371 | a cleanup that nothing interrupts tries to remove every plan's worktree, and every branch that is to go once its worktree went, whatever failed before |
| ArchiveQueue.TroubleFreeCleansAll | src/features/chat/lib/sessionWorkspaceCleanup.ts:308-371 | without an interruption or a refused removal everything every plan is for is gone |
| ArchiveQueue.NothingFollowsAnInterruption | src/features/chat/lib/sessionWorkspaceCleanup.ts:293-306 | an interruption is the last thing of a cleanup, and only the plans' own resources are touched |
| ArchiveQueue.PlansGoInOrder | src/features/chat/lib/sessionWorkspaceCleanup.ts:308-371 | before anything done for a plan only it and those listed before it were touched |
| ArchiveQueue.TraceMeans | src/app/AppShell.tsx:3083-3243 | of such a trace: the backend is asked iff it is reached, terminals stop when asked, only kept plans are cleaned, and a complete archive has cleaned them all |
| ArchiveQueue.Archive.CleanWorkspace | src/features/chat/lib/sessionWorkspaceCleanup.ts:308-371 | one plan, with every effect: the worktree only with no file to lose, the branch once the worktree went, each attempted if wanted unless an interruption comes just before; interrupted or failed iff the trace says so |
| ArchiveQueue.Archive.CleanWorkspaces | src/features/chat/lib/sessionWorkspaceCleanup.ts:308-371 | the plans are cleaned in list order up to an interruption; success iff there was no interruption and no removal was refused |
| ArchiveQueue.Archive.InspectWorkspaces | src/app/AppShell.tsx:3097-3145 | an automatic archive inspects nothing; otherwise a plan that would discard files ends the call or is left out, as the policy says |
| ArchiveQueue.Archive.StopTerminals | src/app/AppShell.tsx:3196-3203 | stops the terminals exactly when asked |
| ArchiveQueue.Archive.AfterArchive | src/app/AppShell.tsx:3196-3243 | terminals are stopped when asked, then the plans are cleaned, then the session; incomplete iff the cleanup was interrupted or a removal was refused |
| ArchiveQueue.Archive.AskBackend | src/app/AppShell.tsx:3160-3243 | the backend is asked once; anything follows only if it archived the chat, and a missing session and a failure are told apart |
| ArchiveQueue.Archive.Body | src/app/AppShell.tsx:3083-3243 | the whole trace; each way to end is taken exactly when the answers say so, and the backend is asked iff no early one is |
| ArchiveQueue.Archive.ArchiveChat | src/app/AppShell.tsx:3065-3249 | however the call ends, its last effect and no other releases the queue; before it the trace is exactly inspection, backend, terminals, a cleanup of the kept plans and the session; no plan that would discard files is cleaned, an automatic archive cleans none, and the archive is incomplete iff the cleanup was interrupted or a removal was refused |
| WorkspaceContext.FindGitRoot | src-tauri/src/commands/workspace_context.rs:45-58 | the loop finds the nearest ancestor with a .git |
| WorkspaceContext.NearestRootIsLongest | src-tauri/src/commands/workspace_context.rs:45-58 | it is the longest such ancestor, the directory itself included |
| WorkspaceContext.SearchDirs | src-tauri/src/commands/workspace_context.rs:60-69 | the directories from the search root down to the workspace |
| WorkspaceContext.ChainMembers | src-tauri/src/commands/workspace_context.rs:60-69 | a directory is in the chain iff it lies between search root and workspace |
| WorkspaceContext.ChainsAgreeAbove | src-tauri/src/commands/workspace_context.rs:60-69 | chains that share an ancestor and a descendant have the same search root |
| WorkspaceContext.AcceptedAreDistinct | src-tauri/src/commands/workspace_context.rs:86-103 | the accepted workspaces are exactly the resolvable ones, once each |
| WorkspaceContext.OrderMembers | src-tauri/src/commands/workspace_context.rs:105-128 | the order holds every listed directory exactly once and nothing else |
| WorkspaceContext.OwnersMembers | src-tauri/src/commands/workspace_context.rs:105-128 | the owners are exactly the workspaces that list the file, once each and in their input order |
| WorkspaceContext.OrderIsAncestorFirst | src-tauri/src/commands/workspace_context.rs:105-128 | for every workspace whatsoever its files come ancestor first in the merged order |
| WorkspaceContext.CollectWorkspace | src-tauri/src/commands/workspace_context.rs:105-128 | the inner loop keeps order vector and map in step |
| WorkspaceContext.TakeInOrder | src-tauri/src/commands/workspace_context.rs:131-139 | the map is emptied in order, losing and duplicating nothing |
| WorkspaceContext.Collect | src-tauri/src/commands/workspace_context.rs:79-140 | the whole collection equals order and owners of the specification |
| WorkspaceContext.CollectedFiles | src-tauri/src/commands/workspace_context.rs:79-140 | each file some accepted workspace lists appears exactly once, with exactly its workspaces, once each in input order, ancestors first |
| Ordering.SortOrders | src-tauri/src/commands/agent_skills.rs:358-366 | the sort orders a list and neither loses nor duplicates an element |
| Ordering.SortIsStable | src-tauri/src/commands/agent_skills.rs:358-366 | elements of one rank keep their order |
| Ordering.StringLeIff | src-tauri/src/commands/agent_skills.rs:358-366 | of two strings a prefix comes first, and otherwise the first difference decides |
| AgentSkills.GeminiFold | src-tauri/src/commands/agent_skills.rs:329-356 | the order vector and the map give, for the keys in first-seen order, the best skill of each |
| AgentSkills.BestIsLastOfBestPriority | src-tauri/src/commands/agent_skills.rs:336-351 | the best skill of a key has its best source priority and is the last discovered of those |
| AgentSkills.KeyOrderMembers | src-tauri/src/commands/agent_skills.rs:345-355 | every discovered key is in the order exactly once |
| AgentSkills.Retain | src-tauri/src/commands/agent_skills.rs:433-435 | the seen-set loop keeps exactly the first skill of each lower-cased name |
| AgentSkills.RetainedIsLeast | src-tauri/src/commands/agent_skills.rs:433-435 | of an ordered list the retained skill of a name is the least |
| AgentSkills.ListSkills | src-tauri/src/commands/agent_skills.rs:425-436 | fold for Gemini, sort, retain |
| AgentSkills.OneSkillPerName | src-tauri/src/commands/agent_skills.rs:425-436 | exactly one skill, a discovered one, for every discovered lower-cased name |
| AgentSkills.ListedIsBestOfItsKey | src-tauri/src/commands/agent_skills.rs:425-436 | a listed skill is, for Gemini, the fold's choice and otherwise the best of its key by source priority and then file location |
| AgentSkills.ListedHasClosestSource | src-tauri/src/commands/agent_skills.rs:276-366 | of the discovered skills whose names agree up to ASCII case, a listed one has the closest source, project before user before app; among those of its source it is the last discovered for Gemini and otherwise the first by file location |
| AgentSkills.KeysAgreeIff | src-tauri/src/commands/agent_skills.rs:329-366 | two names have one key iff they agree letter by letter up to ASCII case |
| AgentSkills.KeyIsListedIffLeast | src-tauri/src/commands/agent_skills.rs:425-436 | a name up to ASCII case is listed iff it is the least of those with the same full lower case |
| AgentSkills.AppSkillHidesProjectSkill | src-tauri/src/commands/agent_skills.rs:433-435 | beyond ASCII the source priority can lose: two names differing in the case of an accented letter |
| GitChanges.ParsePorcelainStatus | src-tauri/src/commands/git_changes.rs:139-154 | the field loop yields the entries of the split output |
| GitChanges.FieldsInTurn | src-tauri/src/commands/git_changes.rs:142-151 | a field too short for an entry or without the space is passed over; the origin of a rename or copy goes with its entry |
| GitChanges.StatusIff | src-tauri/src/commands/git_changes.rs:115-132 | the status shown for every pair of codes: untracked, added, deleted, renamed, copied, else modified |
| GitChanges.StatusRoundTrip | src-tauri/src/commands/git_changes.rs:134-154 | printing then parsing gives back every status, worktree status and new path, even if an origin looks like an entry |
| GitChanges.ParseNumstat | src-tauri/src/commands/git_changes.rs:161-185 | the field loop fills the map of the split output |
| GitChanges.DigitsValue | src-tauri/src/commands/git_changes.rs:180-181 | printing a number in decimal and reading it is the identity |
| GitChanges.ParseU32Iff | src-tauri/src/commands/git_changes.rs:180-181 | a text is read as a number iff it is a numeral of it, with at most a plus sign before, and the number has 32 bits |
| GitChanges.SplitInThreeIff | src-tauri/src/commands/git_changes.rs:165-170 | a field is cut into three parts iff it has two tabs, and the first two parts are what stands before them |
| GitChanges.CountRoundTrip | src-tauri/src/commands/git_changes.rs:180-181 | a dash and counts beyond 32 bits are read as zero, all others as themselves |
| GitChanges.NumStatRoundTrip | src-tauri/src/commands/git_changes.rs:156-185 | printing then parsing records every count under its new path |
| GitChanges.LastRecordWins | src-tauri/src/commands/git_changes.rs:182 | the map holds, for each path, the counts of the last record that names it |
| GitChanges.GetChangedFiles | src-tauri/src/commands/git_changes.rs:38-80 | the list is a path-sorted, stable permutation of the entries joined with their counts |
| GitChanges.ChangedFilesOfPrinted | src-tauri/src/commands/git_changes.rs:57-80 | from the printed records the joined list holds exactly the records, each with the last counts printed for its path |
| Text.SplitAfterField | src-tauri/src/commands/git_changes.rs:141-142 | splitting gives a field free of the separator and then the split of the rest |
| Base64.DecodeOfEncode | src-tauri/src/commands/avatars.rs:133-135 | decoding an encoding gives the bytes |
| Base64.EncodeOfDecode | src-tauri/src/commands/avatars.rs:133-135 | a text that decodes is the encoding of what it decodes to |
| Base64.DecodesExactlyEncodings | src-tauri/src/commands/avatars.rs:133-135 | the decoder accepts exactly the encodings |
| Base64.StandardVectors | src-tauri/src/commands/avatars.rs:133-135 | test vectors of section 10 of RFC 4648, and one for the last two symbols: alphabet, order of the bits and padding are the standard ones |
| Base64.EncodedLength | src-tauri/src/commands/avatars.rs:177-186 | the encoding of n bytes has four characters for every three bytes begun |
| Base64.DecodedLenIsExact | src-tauri/src/commands/avatars.rs:139-157 | the computed length is the exact byte length for the encoding of every non-empty byte string |
| AvatarImport.PreCheckNeverRejectsAFittingPoster | src-tauri/src/commands/avatars.rs:183-186 | the encoded-length check never rejects a poster of at most the maximal size |
| AvatarImport.PosterOutcome | src-tauri/src/commands/avatars.rs:177-196 | what is said of the encoding of any byte string depends on its size and signature alone |
| AvatarImport.PosterAcceptedIff | src-tauri/src/commands/avatars.rs:177-196 | accepted iff the URL encodes a PNG of at most the maximal size |
| AvatarImport.AnimationAcceptedIff | src-tauri/src/commands/avatars.rs:115-137 | accepted iff the URL encodes a video of its type of at most the maximal size |
| AvatarImport.PosterRefusals | src-tauri/src/commands/avatars.rs:177-196 | why a poster is refused: no PNG data URL; not base 64, or longer than any fitting poster; or its size or signature |
| AvatarImport.VideoOutcome | src-tauri/src/commands/avatars.rs:115-175 | what is said of an animation's text: too large if its computed length is, though it may not decode; else not base 64, too large or a wrong signature, or accepted |
| AvatarImport.AnimationRefusals | src-tauri/src/commands/avatars.rs:115-128 | the format is refused iff the URL is neither a WebM nor an MP4 data URL; otherwise its text decides |
| Avatars.OneOwner | src-tauri/src/commands/avatars.rs:757-785 | no file name belongs to two valid ids, whatever the kinds of the two files |
| Avatars.ValidIdIff | src-tauri/src/commands/avatars.rs:859-873 | an id is one to 64 lower-case letters, digits, dashes and underscores beginning with a letter or a digit |
| Avatars.ManifestIsReadIff | src-tauri/src/commands/avatars.rs:739-857 | a manifest is accepted iff it is the stored record of a valid id, of a known media type and alpha mode, and names exactly its own media, and at most its own poster |
| Avatars.PlanIs | src-tauri/src/commands/avatars.rs:387-410 | a delete removes the media, in the agent's folder if it is an agent's, then the poster if any, then the manifest |
| Avatars.PlanWithoutManifest | src-tauri/src/commands/avatars.rs:387-410 | a missing manifest is a delete of nothing, one that is not accepted a refusal |
| Avatars.NamesAreSafe | src-tauri/src/commands/avatars.rs:844-857 | every name built from a valid id is a safe relative path |
| Avatars.UnsafePaths | src-tauri/src/commands/avatars.rs:844-857 | no path is safe that is empty, absolute, names a parent anywhere, or holds a backslash or a null |
| Avatars.PlanIsOwned | src-tauri/src/commands/avatars.rs:739-785 | a manifest that validation accepts leads only to files of its own id |
| Avatars.DeleteTouchesNoOtherAvatar | src-tauri/src/commands/avatars.rs:387-410 | at no moment of deleting one avatar is a file of another touched, whatever its accepted manifest says |
| Avatars.RerunFinishesDelete | src-tauri/src/commands/avatars.rs:387-410 | a delete stopped after any step is finished by running it again, with the files of one undisturbed delete |
| Avatars.AgentGoneRefusesDelete | src-tauri/src/commands/avatars.rs:799-815 | an agent avatar's delete is refused iff its agent file no longer passes its checks |
| Avatars.FailedImportLeavesNoTraceIff | src-tauri/src/commands/avatars.rs:628-700 | under a fresh id a failed import leaves the files as they were iff no rollback delete failed |
| Avatars.WrittenManifestIsValid | src-tauri/src/commands/avatars.rs:668-677 | the manifest an import writes is accepted by validation |
| Avatars.AcceptedIff | src-tauri/src/commands/avatars.rs:628-650 | an import is accepted iff its id, media type and alpha mode are known and its poster, if any, is an image |
| Avatars.ImportWrites | src-tauri/src/commands/avatars.rs:628-689 | after an import media, poster and manifest hold what was imported under the id's names, and every other file is as it was |
| Avatars.DeleteUndoesImport | src-tauri/src/commands/avatars.rs:387-410 | a delete after an import under a fresh id takes back exactly what the import wrote |
| Avatars.AvatarStore.RemoveFile | src-tauri/src/commands/avatars.rs:891-897 | removes the file if it is there; an error leaves it |
| Avatars.AvatarStore.RemoveAvatarFiles | src-tauri/src/commands/avatars.rs:404-409 | media, poster, manifest in this order, stopping at the first failure |
| Avatars.AvatarStore.DeleteUserAvatar | src-tauri/src/commands/avatars.rs:387-410 | an absent avatar is a success, a refused one changes nothing, and otherwise the states run through are those of the plan |
| Avatars.AvatarStore.AtomicWrite | src-tauri/src/commands/avatars.rs:519-538 | the final name holds the content, or is untouched |
| Avatars.AvatarStore.Rollback | src-tauri/src/commands/avatars.rs:691-700 | deletes what can be deleted and goes on |
| Avatars.AvatarStore.WriteAvatarFiles | src-tauri/src/commands/avatars.rs:651-688 | on failure the files written so far are rolled back |
| Avatars.AvatarStore.WriteUserAvatar | src-tauri/src/commands/avatars.rs:628-689 | nothing is written for a refused request; otherwise all files or the rolled back ones |
| JsonTree.EditElsewhere | src-tauri/src/commands/mcp_manager.rs:240-260 | an edit leaves the value at every path beside the pointer as it was |
| JsonTree.EditAbove | src-tauri/src/commands/mcp_manager.rs:243-246 | above the pointer there is an object before and after |
| JsonTree.EditAt | src-tauri/src/commands/mcp_manager.rs:247-256 | at the pointer stands what the action says; enabling changes one field only |
| JsonTree.EditOutcome | src-tauri/src/commands/mcp_manager.rs:240-260 | every outcome of an edit, decided by what stands where the entry is to be: no pointer, nothing above it, a section that holds no entries, or an entry that cannot be enabled |
| JsonTree.EditOfPresentEntry | src-tauri/src/commands/mcp_manager.rs:247-256 | for a present entry an edit fails iff it enables one that is neither object nor null, and then it panics |
| McpSources.FindInMap | src-tauri/src/commands/local_mcp_inventory.rs:633-650 | finds a key with the id iff there is one |
| McpSources.SitesOf | src-tauri/src/commands/local_mcp_inventory.rs:595-630 | exactly the top, the Codex profiles and the matching local projects |
| McpSources.LocateServer | src-tauri/src/commands/local_mcp_inventory.rs:529-655 | an entry with the id from the first source that has one; none iff no source has one |
| McpSources.RemovalLeavesTheOthers | src-tauri/src/commands/mcp_manager.rs:247-251 | after a removal exactly the other entries are found, each with the configuration it had |
| McpSources.ConfiguringKeepsEntries | src-tauri/src/commands/mcp_manager.rs:254-256 | after a new configuration the same entries are found, only the target with the new one |
| McpSources.EnablingKeepsEntries | src-tauri/src/commands/mcp_manager.rs:252-253 | enabling keeps all entries and every other field, and panics iff the entry is neither object nor null |
| McpSources.RemovedIdIsGoneIff | src-tauri/src/commands/local_mcp_inventory.rs:529-655 | after a removal the id is found nowhere iff no other entry had it |
| McpSources.ConfiguredIdFindsItsEntry | src-tauri/src/commands/local_mcp_inventory.rs:529-655 | where ids are unambiguous, relocating the id finds exactly the edited entry with its new configuration |
| McpSources.UnambiguousWhen | src-tauri/src/commands/local_mcp_inventory.rs:1111-1122 | ids are unambiguous when they are injective, a scope has one server map, and no two local projects of a file share a key |
| McpSources.LocalProjectsShareAnId | src-tauri/src/commands/local_mcp_inventory.rs:610-652 | two local projects of one file that name a server alike share its id, however ids are made |
| McpUpdate.AcceptedRequest | src-tauri/src/commands/mcp_manager.rs:123-156 | a request past the checks fits the revision, removes only if confirmed, and neither configures nor removes an inherited entry |
| McpUpdate.AcceptedIff | src-tauri/src/commands/mcp_manager.rs:123-159 | a request is accepted iff the entry is not a plugin's, the revision fits, an inherited entry is only switched, a removal is confirmed, a configuration is valid and exactly one thing is asked; and that thing with its own value is done |
| McpUpdate.RefusalIs | src-tauri/src/commands/mcp_manager.rs:123-159 | the reason given is the first that applies |
| McpUpdate.ToggledElsewhereIff | src-tauri/src/commands/mcp_manager.rs:159-167 | a switch is kept in the entry itself only for Codex, Grok and OpenCode and only if it is not inherited |
| McpUpdate.McpFiles.Interfere | src-tauri/src/commands/mcp_manager.rs:334-347 | other programs may rewrite any configuration file between any two steps |
| McpUpdate.McpFiles.WriteBackup | src-tauri/src/commands/mcp_manager.rs:341-346 | a new backup; older ones stay |
| McpUpdate.McpFiles.Write | src-tauri/src/commands/mcp_manager.rs:334-347 | the source holds the new text, nothing else changes, and what was read of it before is in a backup |
| McpUpdate.McpFiles.ReplaceWithBackup | src-tauri/src/commands/mcp_manager.rs:334-347 | a save leaves the source with the new text; in every state in which the source was replaced a backup holds what was re-read, and that is what was replaced unless another program wrote the file after the re-read; an undisturbed file is never refused |
| McpUpdate.McpFiles.Update | src-tauri/src/commands/mcp_manager.rs:120-201 | each refusal, panic or other outcome is that of the checks in order; only an accepted request writes, and it writes the edit of the located contents at the located pointer |
| McpUpdate.SavedFileIsEditedDisk | src-tauri/src/commands/mcp_manager.rs:207-261 | the saved file, read back, is the disk with that one entry edited |
| GitEnv.Sanitize | src-tauri/src/commands/git.rs:816-818 | drops git variables other than the transport settings |
| GitEnv.Command.Reapply | src-tauri/src/commands/git.rs:866-875 | sets or leaves out again what the command said of the transport keys |
| GitEnv.Command.ApplyLite | src-tauri/src/commands/git.rs:831-876 | every key afterwards: other variables as before, transport settings of the command, else of the process, no other git variable |
| GitEnv.Command.ApplyCaptured | src-tauri/src/commands/git.rs:805-808 | the command says exactly the captured environment |
| GitEnv.Command.ForceNonInteractive | src-tauri/src/commands/git.rs:878-895 | the prompt is off, and an ssh command is set iff the command sets neither ssh key |
| GitEnv.Command.PinLocale | src-tauri/src/commands/git.rs:897-900 | both locale variables are C, nothing else changes |
| GitEnv.Command.ChooseEnvironment | src-tauri/src/commands/git.rs:788-798 | what the child sees of each key once the environment is chosen |
| GitEnv.Command.ApplyGitEnvironment | src-tauri/src/commands/git.rs:782-803 | what the child sees of each key in the end |
| GitEnv.OnlyCarriedGitVariables | src-tauri/src/commands/git.rs:810-829 | of git's variables the child has at most GIT_SSH, GIT_SSH_COMMAND, GIT_SSH_VARIANT and the prompt switch, which is 0 |
| GitEnv.IsGitIff | src-tauri/src/commands/git.rs:816-829 | a variable is one of git's iff it begins with GIT_ in whatever case |
| GitEnv.LocaleIsPinned | src-tauri/src/commands/git.rs:897-900 | the child always has the C locale |
| GitEnv.NeverInteractive | src-tauri/src/commands/git.rs:878-895 | the prompt is off and one of the two ssh settings is always there, the batch-mode one if no other was chosen |
| GitEnv.ExplicitTransportWins | src-tauri/src/commands/git.rs:831-876 | in lite mode explicit settings win over inherited ones; so do removals, except that of the ssh command when the command leaves the ssh program out or neither it nor the process has one |
| GitEnv.LeftOutSshCommandIsSet | src-tauri/src/commands/git.rs:878-886 | the exception occurs: a command that leaves out only the ssh command gets one when the process has no ssh program |
| GitEnv.OtherVariablesAreTheSource | src-tauri/src/commands/git.rs:782-803 | apart from the locale every variable that is not git's is the one of its source |
| GitEnv.CapturedForgetsTheCommand | src-tauri/src/commands/git.rs:805-808 | in a captured environment nothing the command or the process said remains |

## Left out

- Locks are never poisoned, and a command's future is not dropped halfway: neither is modelled.
- SignIn: the status check's own child process, and the sign-in of providers that use their CLI's login.
- Attestation: the inspect and write operations; parsing launchers, resolving symbolic links and checking directory modes are parameters, and all refusals are one.
- SettingsStore: rebasing agent references in a patch is not part of this model; a patch is taken as it is merged.
- QueueStore: directory creation, and reading the queues for the renderer.
- InstallChain: authorizing sign-in and sign-out, reporting phases and executing a recipe.
- NavigationHistory: drafts, URLs and what applying a location does beyond showing it.
- ArchiveQueue: loading and inspecting sessions, the unsaved-change check and the backend are answers given from outside; notifications.
- WorkspaceContext: reading a file is a lookup in a fixed tree; a directory stands for the canonical path of its instruction file, and labels are injective.
- AgentSkills: finding skill folders and reading their front matter; a skill is what was read.
- GitChanges: running git, decoding its bytes, the time limit and counting a file's lines; a status output of non-ASCII white space only is not treated as blank.
- GitEnv: keys and values that are not Unicode, detaching from the terminal, matching git arguments and parsing worktrees, which would add only easy members.
- Avatars: the temporary part files of an atomic write, importing an agent's image, and what a media type's text parses to.
- Avatars.AvatarStore.WriteAvatarFiles: takes the two or three files as lists, where the source names each.
- JsonTree.EditElsewhere: edits are on values, where the source follows a reference into the document; aliasing is not captured. TOML documents are edited the same way but keep their layout, which is not modelled.
- McpUpdate.McpFiles.Update: the disable lists of inherited, Claude Code and Gemini entries are written elsewhere and not modelled; the located contents are a parameter, since the file is read once for its document and once for its text.
- McpUpdate.McpFiles.ReplaceWithBackup: a write by another program between the re-read and the rename is lost, as in the source; only the backup of what was re-read is promised.
- McpSources.LocateServer: which configuration files a harness has, and which are readable.
- The draft-session flow, React rendering, process probing, log redaction, icon scanning and thin command forwards.
