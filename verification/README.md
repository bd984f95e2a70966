# Proved models of the apx-agent repository

Dafny models of the stateful and protocol parts of the repository, with proofs of what they keep.
One file per component:

- `Manifest.dfy`, `CapsState.dfy`, `Fingerprint.dfy`, `Verify.dfy`: the capability kit (`caps/`), from
  reading the manifest to running checks, merging the ledger and deciding what the Stop hook blocks.
  `DriftVisibility.dfy` proves which drift the aggregate fingerprint can see, `StaleDischarge.dfy` what
  `verify --stale` does to the gate; `LedgerProtocol.dfy` is the step system of overlapping `verify` and
  `ack` processes. `SettingsFiles.dfy` is backup naming and hook installation.
- `DeltaBisect.dfy`: binary search over an arbitrary table history.
- `A2aModels.dfy`, `TaskStorage.dfy`, `A2aServer.dfy`: the bounded task store, the JSON-RPC dispatcher
  (JSON-RPC 2.0, sections 4.1 and 5; A2A 0.3.0, section 7) and whole runs of requests.
- `ToolRegistry.dfy`, `LlmAgent.dfy`: the live tool list and sub-agent discovery, as values and as the
  object with its shared, repaired-in-place tools. `SequentialAgent.dfy`: the pipeline, run and streamed.
- `DocReachability.dfy`: the orphan scan. `MessageTranslation.dfy`: the Anthropic and chat-completions
  converters. `Enrollment.dfy`: search fan-out and decision. `NonceStore.dfy`: one-time nonces.
  `SchemaSanitizer.dfy`, `SchemaNodes.dfy`: the schema rewrite, on values and in place.
- `Wrappers.dfy`, `Text.dfy`: options, results, list filtering, and the string operations the code leans on.

Methods carry the loops and assignments of the source and are proved equal to specification functions;
the lemmas are about those functions.

## Where the code and its documentation part

- The bisect docstring promises the first differing version; the code finds a transition.
  `FindsFirstExactlyWhen` says when the two agree, `NotAlwaysTheFirst` is a history where they do not.
- It also promises the history entry of that version; only the newest t + 1 rows are read, so the entry is
  there exactly for the newer half of the versions (`FindVersionInfo`).
- A verify judges waivers by its start time, so it can drop a result for a waiver that has lapsed by the
  time it saves (`CommitRecordsUnlessWaivedAtStart`, `PassDroppedForLapsedWaiver`).
- The fingerprint stream has no separators, so it can miss drift. While the same paths are covered, it misses
  none exactly when at most one file changes length (`SeesEveryEditExactly`). A covered file added or removed
  can be missed even if only one other file changes length (`SplittingAFileCanHide`); `SeesAdditionExactly`
  says when it cannot.
- A JSON-RPC id of an unusable type is answered with a server error instead of an error body
  (`A2aServer.Handle`).
- A sub-agent stays advertised after its delegate is unregistered, or under a new name after it loses its
  card (`UnregisteredDelegateStillAdvertised`, `LostCardBreaksTheName`).
- The schema sanitizer does not look into a list inside a list (`CleanThroughoutExactly`).

## Model

| member | source | states |
|---|---|---|
| Manifest.LoadManifest | caps/manifest.py:44-108 | accepts exactly the lists of well-formed entries with distinct ids, each capability showing its entry's own fields and the tier's default freshness, in order; otherwise raises the fault of the first bad entry |
| Manifest.Fault | caps/manifest.py:61-89 | an entry passes exactly when it is well formed and its id is new; otherwise the fault found is the one it has while passing every check made before that one |
| CapsState.DurationRoundTrip | caps/freshness.py:23-27 | every count and unit, with any blanks around, reads back as that many seconds |
| CapsState.DurationHasForm | caps/freshness.py:23-27 | nothing else reads: a text that does is a number and a unit of s, m, h or d, with any blanks around and between |
| CapsState.CapabilityState | caps/state.py:11-38 | each state exactly: which records are waived, proven, failed, errored, stale or expired, which of them block, and when an unreadable freshness raises |
| CapsState.TimeAloneNeverBlocks | caps/state.py:20-36 | the clock alone never turns an unwaived capability from passing the gate to blocking it |
| CapsState.CodeStaleIsExplained | caps/state.py:31-33 | a code-stale entry with a non-empty file map names, sorted, exactly the paths added, removed or modified |
| Fingerprint.ResolveRels | caps/fingerprint.py:22-54 | the sorted, duplicate-free paths of the check file and every non-artifact glob match |
| Fingerprint.CheckFileCuts | caps/fingerprint.py:27 | the file of a pytest target: all of it, or what comes before its first double colon |
| Fingerprint.ComputeFingerprint | caps/fingerprint.py:65-77 | the loop hashes the concatenation of paths and contents in sorted order |
| Fingerprint.ChangedDepsAreTheDrift | caps/fingerprint.py:80-96 | changed_deps of a recorded non-empty map is, sorted, exactly the drift between the two snapshots |
| Fingerprint.StaleIsExplained | caps/fingerprint.py:65-96 | different fingerprints force a non-empty explanation equal to the drift |
| DriftVisibility.OneLengthChangeIsSeen | caps/fingerprint.py:73-77 | on one surface, if at most one file changed length, equal fingerprints mean no drift at all |
| DriftVisibility.TwoLengthChangesCanHide | caps/fingerprint.py:73-77 | for every capability and any two existing files of its surface, two trees differing in just those files share a fingerprint |
| DriftVisibility.SeesEveryEditExactly | caps/fingerprint.py:65-77 | with the surface fixed and lengths fixed off a set of existing files, equal fingerprints rule out drift for all contents exactly when that set has at most one member |
| DriftVisibility.SeesAdditionExactly | caps/fingerprint.py:65-77 | a file added to or removed from the surface moves the fingerprint for all contents exactly when no length is free to change, or only those of files sorting after it are and no path of the surface begins with its name |
| DriftVisibility.SplittingAFileCanHide | caps/fingerprint.py:73-77 | one file split into two under the same glob, only one length changed, keeps the fingerprint, for any contents |
| Text.BlanksExactly | caps/freshness.py:23-27 | the blanks are the six ASCII ones |
| Text.AscendingUnique | caps/fingerprint.py:54 | sorted output is determined by its elements, so any sort gives the same paths |
| Verify.RunChecks | caps/cli.py:228-260 | the check loop writes the record of the last run of each id it ran, which is everything, or on a bare verify what its snapshot does not waive; it reports success exactly when all of that passed |
| Verify.RecordRun | caps/cli.py:237-252 | the entry recorded for a run: verdict, fingerprint and file map for code freshness only, detail only on non-pass, no waiver; and the state it puts the capability in, an unreadable freshness included |
| Verify.BlockingCaps | caps/cli.py:223 | the stale selection is the blocking capabilities in manifest order, raising on the first bad freshness |
| Verify.BlockingIsFilter | caps/cli.py:223 | the stale selection is the manifest list filtered by its blocking states, and raises exactly when some freshness does not read |
| Verify.Project.CmdVerify | caps/cli.py:208-274 | --capability runs the last capability of the tier with that id and writes its record over whatever stood there, waivers included, and nothing else; a bare run writes the records of the unwaived, of the tier or of its stale ones, and nothing else; the exit code is 0 exactly when what ran passed, 2 exactly for an unknown id; an unreadable freshness raises and writes nothing |
| Verify.Project.SaveMerged | caps/cli.py:267-273 | re-read and merge: each id that ran is replaced unless kept by an active waiver on disk, whatever the iteration order |
| Verify.Project.RequireCapability | caps/cli.py:140-150 | the last capability of an id, if any |
| Verify.Project.CmdAck | caps/cli.py:277-293 | writes just the waiver, field by field, for a known id; unknown ids and bad durations leave the ledger alone |
| Verify.Project.CmdStatus | caps/cli.py:153-205 | status --check exits 1 exactly when something blocks and lists the blocking ids in order |
| Verify.Project.Decide | caps/gate.py:63-105 | blocks exactly when something blocks, naming it in order, and notes exactly the time-expired; a stop already in progress is let through |
| Verify.Project.CmdGate | caps/cli.py:312-343 | the hook blocks exactly when decide does, and fails open on any error |
| StaleDischarge.UpdatesExactly | caps/cli.py:229-252 | with unique ids and no waivers, one run records exactly one entry per selected capability |
| StaleDischarge.RecordedProofExplainsStaleness | caps/cli.py:238-242 | a recorded proof found stale is explained exactly when it covered between 1 and 25 files |
| StaleDischarge.StaleRunsWhatTheGateBlocks | caps/cli.py:221-226 | verify --stale selects what the gate blocks on and status --check lists, and writes exactly those ids |
| StaleDischarge.GateAfterStale | caps/cli.py:221-274 | after verify --stale, with or without a tier, the gate names exactly what it named before and was not discharged; it raises instead exactly when a discharged freshness does not parse |
| StaleDischarge.StaleThenGate | caps/cli.py:208-343 | running verify --stale and then the gate: the gate names exactly what it was waiting for and the run did not discharge, allows exactly when that is nothing, fails open exactly on a discharged freshness that does not parse; the exit code says whether every check it was waiting for passed |
| StaleDischarge.StaleDischargesTheGate | caps/gate.py:74-90 | after verify --stale the gate allows exactly when every blocking capability's check passed, which is also when the exit code is 0 |
| StaleDischarge.AckSuspendsUntil | caps/cli.py:277-293 | after an ack its capability blocks exactly once the waiver has run out, whatever proof it had; all others block as before |
| StaleDischarge.DuplicateIdsDefeatStale | caps/manifest.py:70-72 | two capabilities under one id defeat it: both checks pass and the gate goes on blocking |
| LedgerProtocol.RunKeepsInv | caps/cli.py:229-293 | over every interleaving of verifies, acks, crashes and clock ticks, an entry has a waiver exactly when its result is waived, and a flight holds unwaived entries, stamped with its own start, for exactly the ids it went through and did not skip |
| LedgerProtocol.StepKeepsInv | caps/cli.py:229-293 | each single step keeps that invariant |
| LedgerProtocol.CrashLosesOnlyTheFlight | caps/cli.py:229-274 | a process that dies before saving changes nothing on disk |
| LedgerProtocol.DiskHoldsLastWrites | caps/cli.py:262-273 | no lost update: the disk holds for each id what the last write to that id put there, however old the loaded snapshots |
| LedgerProtocol.FlightIsItsOwnRuns | caps/cli.py:219-260 | in any run, a verify in flight is what its own check outcomes since its launch make of the snapshot it loaded, whatever other processes did |
| LedgerProtocol.CommitWritesOwnOutcomes | caps/cli.py:229-273 | at a commit in any run each id gets the record of the very outcome the process saw for its last capability of that id: with --capability whatever waiver is on disk, on a bare run unless the id was waived on the disk it loaded or is on the disk it saves to; every other id stays as found |
| LedgerProtocol.UninterruptedIsCmdVerify | caps/cli.py:208-274 | a run of launch, one event per check, and commit leaves the disk as the one-process command does, and the rest of the system as it was |
| LedgerProtocol.StepSparesActiveWaiver | caps/cli.py:265-272 | no step but an ack of the id or a --capability verify that ran it changes an active waiver |
| LedgerProtocol.WaiverSurvivesRun | caps/cli.py:262-273 | a waiver still active at the end of any run without such an override is untouched |
| LedgerProtocol.CommitRecordsUnlessWaivedAtStart | caps/cli.py:269-272 | a bare verify records a result exactly when no waiver on disk outlives its start; this differs from active-when-saving exactly for waivers that lapsed in between |
| LedgerProtocol.PassDroppedForLapsedWaiver | caps/cli.py:269-272 | an input where a passing result is dropped for a waiver that has lapsed |
| SettingsFiles.FileSystem.UnusedName | caps/backup.py:11-17 | ends for every finite directory with the first unused name |
| SettingsFiles.FileSystem.BackupFile | caps/backup.py:8-19 | copies the file under the first unused name; only that name is written |
| SettingsFiles.BackupNamesDiffer | caps/backup.py:13-17 | different suffix numbers give different names |
| SettingsFiles.FileSystem.InstallHook | caps/hookinstall.py:19-34 | a JSON file keeps its other members and other events' lists, and this event's entries of other tags in order, with the new one last; an empty or absent file gets only this event's list; the old file survives under the first unused backup name; only text that is not JSON fails, changing nothing |
| SettingsFiles.FileSystem.UninstallHook | caps/hookinstall.py:37-44 | the same, with nothing added |
| SettingsFiles.DropTagged | caps/hookinstall.py:32 | the filter loop removes exactly the entries of the tag, in order |
| SettingsFiles.InstallLeavesOneTaggedLast | caps/hookinstall.py:31-33 | one tagged entry, last; other entries in order; other events and members untouched |
| SettingsFiles.InstallAgainReplaces | caps/hookinstall.py:32 | installing again equals installing once with the newer command |
| SettingsFiles.UninstallUndoesInstall | caps/hookinstall.py:42-43 | uninstall after install leaves the original list without tagged entries |
| SettingsFiles.TagsAreIndependent | caps/hookinstall.py:19-44 | uninstalling one tag and installing another commute, on one event or two |
| DeltaBisect.Search | python/examples/data-inspector/tools.py:151-159 | on any history with different ends: ends on a version that differs from the low end while the one before it does not, in steps whose power of two is at most twice the range |
| DeltaBisect.Probe | python/examples/data-inspector/tools.py:154-158 | one halving keeps a transition in range and costs one of the logarithmically many steps |
| DeltaBisect.HalvingCostsOneStep | python/examples/data-inspector/tools.py:152-153 | halving the range lowers the number of steps it can still take |
| DeltaBisect.Log2IsExact | python/examples/data-inspector/tools.py:152 | the integer logarithm the step cap is made of |
| DeltaBisect.FindsFirstExactlyWhen | python/examples/data-inspector/tools.py:119-121 | the version the tools report is the first differing one, as documented, exactly when the midpoints above it on its search path differ too |
| DeltaBisect.FindsTheOnlyFlip | python/examples/data-inspector/tools.py:151-161 | a history that flips once in the range is reported with that flip |
| DeltaBisect.NotAlwaysTheFirst | python/examples/data-inspector/tools.py:119-121 | a five-version history where the version reported is not the first to differ |
| DeltaBisect.FindVersionInfo | python/examples/data-inspector/tools.py:163-168 | the history entry of version t is found exactly when 2t is at least the current version |
| DeltaBisect.Locate | python/examples/data-inspector/tools.py:123-168 | range defaults and clipping, the unreadable-version and logarithm errors, no-change reports, and over the range asked for a version that differs from the low end while the one before it does not |
| DeltaBisect.DeltaBisect | python/examples/data-inspector/tools.py:103-178 | explicit and default low ends report the same values: those just before and at the transition |
| DeltaBisect.DeltaBisectColumn | python/examples/data-inspector/tools.py:181-278 | the values around the transition, exactly one of them the expected one |
| TaskStorage.TaskStore.Put | python/src/apx_agent/_a2a.py:88-93 | moves or appends the entry to the end and evicts the oldest down to the bound; a negative bound fails on an empty store |
| TaskStorage.TaskStore.EvictOldest | python/src/apx_agent/_a2a.py:92-93 | the eviction loop leaves the newest max entries |
| TaskStorage.TaskStore.Find | python/src/apx_agent/_a2a.py:97 | keyed lookup |
| TaskStorage.TaskStore.GetTask | python/src/apx_agent/_a2a.py:95-102 | the task when the id is stored under the caller, otherwise nothing |
| TaskStorage.TaskStore.Reset | python/src/apx_agent/_a2a.py:104-106 | empties the store |
| TaskStorage.StoreIsHistoryWindow | python/src/apx_agent/_a2a.py:71-93 | after any puts the store is the last max distinct ids in order of their latest put, each with its latest task and owner |
| TaskStorage.RetainedExactly | python/src/apx_agent/_a2a.py:88-93 | an unsuperseded put is still stored exactly while fewer than max other ids followed |
| TaskStorage.GetAnswersFromHistory | python/src/apx_agent/_a2a.py:95-102 | get answers exactly as a scan of that history window for the caller would |
| TaskStorage.PutOnSuffix | python/src/apx_agent/_a2a.py:88-93 | entries already evicted make no difference to a put |
| A2aServer.A2aServer.RunMessageSend | python/src/apx_agent/_a2a.py:195-298 | in the thread of the message's own context or a fresh one, the agent is resumed with the decision exactly when one was sent and the thread is paused, and otherwise gets the message's text; a raising lookup fails the turn; state, status message, history and artifact are what the reply says; the task is stored last under the sender |
| A2aServer.A2aServer.Handle | python/src/apx_agent/_a2a.py:300-394 | for every request, the answer, its error code and the id it goes out under, an empty 204 when a valid request has none, a server error for an id that is neither null, string nor integer; the store changes only by a send's task |
| A2aServer.TextOfOne | python/src/apx_agent/_a2a_models.py:117-119 | of one part, its text or its data |
| A2aServer.TextOfParts | python/src/apx_agent/_a2a_models.py:117-119 | of several, the texts concatenated and the data in order |
| A2aServer.ReplyReachesArtifact | python/src/apx_agent/_a2a.py:264-279 | text and data of the agent's reply are what the one artifact carries |
| A2aServer.RunStoreIsPutHistory | python/src/apx_agent/_a2a.py:300-394 | after any run of requests the store is the one its sends make |
| A2aServer.TasksGetAfterRun | python/src/apx_agent/_a2a.py:347-364 | with fresh ids, tasks/get returns a task to its sender exactly while fewer than 100 later tasks were stored, and not-found to everyone else |
| ToolRegistry.AppAddressNamesTheApp | python/src/apx_agent/_agents.py:692-695 | a card-less peer at the usual app address is named after the app |
| ToolRegistry.PlainAddressNames | python/src/apx_agent/_agents.py:692-695 | an address whose first label has no dash is named by its last segment, which trailing slashes leave empty |
| ToolRegistry.SettleAsStated | python/src/apx_agent/_agents.py:664-695 | a peer's name, schema and text, from its card, its degraded entry or its address |
| ToolRegistry.RegisterReplaces | python/src/apx_agent/_agents.py:580-592 | a registered tool is last and alone under its name, all others in place, the version one higher |
| Comprehension.FilterKeepsOrder | python/src/apx_agent/_agents.py:584-591 | what remains after a filter, such as dropping a tool name, keeps its order |
| ToolRegistry.StepEvolves | python/src/apx_agent/_agents.py:554-602 | each operation keeps names unique, never lowers the version, and raises it whenever the list changes |
| ToolRegistry.RunEvolves | python/src/apx_agent/_agents.py:554-725 | the same over any run of registrations, removals, repairs and fetches |
| ToolRegistry.AdvertisedCallableExactly | python/src/apx_agent/_agents.py:658-725 | in any state, a peer is advertised unless it is new and its name is taken; the advertisement is callable exactly when the peer is new or a tool of that name delegates to it, and with its schema exactly when that tool has it |
| ToolRegistry.DegradedNamesKeptExactly | python/src/apx_agent/_agents.py:713-714 | the remembered startup names stay right exactly unless a card-named peer loses its card and would be called something else |
| ToolRegistry.RepairKeepsStartupName | python/src/apx_agent/_agents.py:672-681 | a degraded peer whose card turns up is advertised and callable under its startup name, and is no longer degraded |
| ToolRegistry.FirstFetchIsCallable | python/src/apx_agent/_agents.py:658-725 | for a fresh agent and distinct peers, with any cards missing, all advertisements of the first fetch are callable as advertised, under distinct new names |
| ToolRegistry.FetchKeepsDelegates | python/src/apx_agent/_agents.py:658-725 | while delegates are in place a peer's turn keeps them, and its advertisement is callable exactly under its delegate's name |
| ToolRegistry.LaterFetchIsCallable | python/src/apx_agent/_agents.py:658-725 | any later fetch in which known peers keep their names advertises only callable tools |
| ToolRegistry.RunStaysCallable | python/src/apx_agent/_agents.py:554-784 | through any run of stable fetches, repairs, and registrations and removals of other tools, everything ever advertised is callable at the end |
| ToolRegistry.EveryFetchStaysCallable | python/src/apx_agent/_agents.py:554-784 | in particular what any one fetch of such a run advertised is callable at its end |
| ToolRegistry.FetchTouchesOnlyItsUrls | python/src/apx_agent/_agents.py:660-725 | a fetch leaves alone every URL not among its own |
| ToolRegistry.UnregisteredDelegateStillAdvertised | python/src/apx_agent/_agents.py:817-823 | a materialized URL is advertised by every later fetch, and not callable exactly when no tool of the advertised name delegates to it, so never after its delegate was unregistered |
| ToolRegistry.LostCardBreaksTheName | python/src/apx_agent/_agents.py:688-695 | a peer registered under a card name its URL does not spell is advertised uncallably once its card is gone |
| ToolRegistry.SuchCardsExist | python/src/apx_agent/_agents.py:683-684 | every URL has such card names |
| LlmAgent.LlmAgent.Drop | python/src/apx_agent/_agents.py:584-591 | both lists lose exactly the functions of a name, in order |
| LlmAgent.LlmAgent.SettlePeer | python/src/apx_agent/_agents.py:664-695 | names and describes one peer from its card, its degraded entry or its URL, field by field, repairing it first |
| ToolRegistry.FetchCard | python/src/apx_agent/_agents.py:727-757 | returns the first card within three attempts; otherwise it made three or spent five seconds, and less than six plus one request |
| LlmAgent.LlmAgent.constructor | python/src/apx_agent/_agents.py:442-451 | both lists start with the given tools, in order, at version 0 |
| LlmAgent.LlmAgent.Append | python/src/apx_agent/_agents.py:554-567 | both lists grow together and the version rises |
| LlmAgent.LlmAgent.RegisterTool | python/src/apx_agent/_agents.py:580-592 | replaces by name, keeping the two lists equal |
| LlmAgent.LlmAgent.UnregisterTool | python/src/apx_agent/_agents.py:594-602 | removes by name, and says whether anything went |
| LlmAgent.LlmAgent.UpgradeSubAgent | python/src/apx_agent/_agents.py:759-784 | repairs the text of the descriptor and of every tool of its name in place, forgets the degradation, renames nothing |
| LlmAgent.LlmAgent.EnsureSubAgentTool | python/src/apx_agent/_agents.py:786-848 | registers a delegate, with its text, once per URL, refuses a taken name, and re-marks the tools of a name whose URL is already there |
| LlmAgent.LlmAgent.MakeCallable | python/src/apx_agent/_agents.py:660-711 | settles a peer and registers its delegate unless its name is taken |
| LlmAgent.LlmAgent.FetchPeer | python/src/apx_agent/_agents.py:660-723 | one turn of the fetch loop: what is advertised has the name, schema and text of the card, the degraded entry or the URL |
| LlmAgent.LlmAgent.FetchRemoteTools | python/src/apx_agent/_agents.py:618-725 | the whole fetch on the live object is FetchAll on its registry, descriptors included |
| SequentialAgent.Run | python/src/apx_agent/_agents.py:983-997 | hands the first step the messages after any instructions, each step its conversation, and returns the last result |
| SequentialAgent.Stream | python/src/apx_agent/_agents.py:999-1033 | the events are, step by step, the numbered header and then that step's chunks; between headers that adds up to every step's result in order |
| SequentialAgent.EmitStep | python/src/apx_agent/_agents.py:1021-1033 | one step appends its header, then its chunks or its whole result |
| SequentialAgent.StepAddsUp | python/src/apx_agent/_agents.py:1021-1033 | a step's events are its own numbered header first, then only chunks, which add up to its result |
| SequentialAgent.ContextShape | python/src/apx_agent/_agents.py:988-996 | step i is handed base + 2i messages, carrying all earlier results, ending in a user turn after step 0 |
| SequentialAgent.RunAndStreamAgreeExactly | python/src/apx_agent/_agents.py:983-1033 | both forms hand every step the same conversation and get the same results exactly when each step's stream adds up to its run |
| SequentialAgent.StreamEndsInRunResult | python/src/apx_agent/_agents.py:1024-1033 | then the stream without headers is the step results, the last being what run returns |
| DocReachability.OutgoingDocLinks | ctk/docs.py:192-205 | the existing targets that are relative and whose part before any anchor is a markdown file |
| DocReachability.ExistingEntrypoints | ctk/docs.py:212-216 | the scan starts from the entrypoints that exist |
| DocReachability.PopAndFollow | ctk/docs.py:218-223 | one pop collects and queues exactly the unseen links, each once |
| DocReachability.FollowLinks | ctk/docs.py:211-223 | the worklist ends and has collected exactly what some link path from an existing entrypoint reaches |
| DocReachability.AnyPopOrderFindsTheSame | ctk/docs.py:218-223 | any pop order collects the same documents, in a number of pops fixed by the result |
| DocReachability.VisitKeepsInv | ctk/docs.py:219-223 | popping any position keeps the worklist invariant |
| DocReachability.DetectOrphans | ctk/docs.py:208-240 | reports, in order, exactly the docs that are unreachable, not an entrypoint and not exempt |
| MessageTranslation.TrimForgetsExactly | python/examples/apx-builder/anthropic_proxy.py:51-58 | two results trim to the same text exactly when equal, or long with equal length and equal first 1500 characters |
| Text.JoinConcat | python/examples/apx-builder/anthropic_proxy.py:96 | joining puts the separator between parts and nowhere else |
| MessageTranslation.ToOpenAi | python/examples/apx-builder/anthropic_proxy.py:61-113 | the system prompt, then each message as it must be: plain text as it is, an assistant's texts joined and its calls in order, a user's tool results in order, clipped, and then its texts joined |
| MessageTranslation.ConvertAssistant | python/examples/apx-builder/anthropic_proxy.py:79-96 | texts joined by newlines, or none if empty; one call per tool use, in order, with its id, name and input |
| MessageTranslation.ConvertUser | python/examples/apx-builder/anthropic_proxy.py:98-111 | one tool message per tool result, in order, with its id and clipped text, then the texts joined by newlines |
| MessageTranslation.ToAnthropic | python/examples/apx-builder/anthropic_proxy.py:143-156 | the reverse conversion of one message |
| MessageTranslation.RoundTripIsNormalForm | python/examples/apx-builder/anthropic_proxy.py:79-156 | out and back is the joined text, if any, then the tool uses with the same ids, names and inputs |
| MessageTranslation.RoundTripFixesExactlyNormal | python/examples/apx-builder/anthropic_proxy.py:79-156 | a turn survives unchanged exactly when it is in normal form |
| MessageTranslation.RoundTripIdempotent | python/examples/apx-builder/anthropic_proxy.py:79-156 | a second round trip changes nothing |
| MessageTranslation.StepsKeepTheirOrder | python/examples/apx-builder/anthropic_proxy.py:71-113 | over a conversation, tool calls and tool results come out under the same ids in the same interleaved order |
| MessageTranslation.ResultsArrive | python/examples/apx-builder/anthropic_proxy.py:98-111 | over a conversation, the tool messages that go out are the tool results that came in, in order, each with its id and its own text, up to 1500 characters as it is, otherwise its first 1500 and a marker with its length; a list gives its text blocks joined by newlines |
| MessageTranslation.PendingExactly | python/examples/apx-builder/anthropic_proxy.py:98-111 | the chat-completions rule: a tool message answers a pending call, anything else waits until none is pending |
| MessageTranslation.OpenExactly | python/examples/apx-builder/anthropic_proxy.py:98-111 | the Anthropic rule: a user's list answers exactly what is open, anything else waits until nothing is |
| MessageTranslation.PairingSurvives | python/examples/apx-builder/anthropic_proxy.py:98-111 | a conversation that answers its tool uses as Anthropic requires becomes one that answers its tool calls as chat completions require |
| Enrollment.AbsorbRow | python/examples/afr-enrollment-api/search_client.py:154-155 | a row enters, replaces in place on a strictly better score, or is ignored |
| Enrollment.CandidateOf | python/examples/afr-enrollment-api/search_client.py:146-153 | a candidate shows its row's own fields, the score 0 when there is none |
| Enrollment.SeenIsFirstBest | python/examples/afr-enrollment-api/search_client.py:136-155 | the dictionary holds, per account, the fields of the first row to reach the account's highest score, and nothing else |
| Enrollment.SeenByFirstAppearance | python/examples/afr-enrollment-api/search_client.py:136-155 | accounts stand in the order their first rows came in, whichever row of theirs is kept |
| Enrollment.SortIsStable | python/examples/afr-enrollment-api/search_client.py:157 | the sort is a stable, non-increasing rearrangement |
| Enrollment.RowsOfAll | python/examples/afr-enrollment-api/search_client.py:136-144 | the rows are those of all indexes, in query order |
| Enrollment.MissingExactly | python/examples/afr-enrollment-api/search_client.py:115-122 | an index name is reported exactly when it is not configured or empty |
| Enrollment.CandidatesAreBestRows | python/examples/afr-enrollment-api/search_client.py:136-158 | one candidate per account with the fields of its first best row, ranked by score and, among equals, by whose first row came first; no row has a higher score than the first |
| Enrollment.VectorSearch | python/examples/afr-enrollment-api/search_client.py:115-158 | missing index names reported; otherwise the fan-out and sort over all indexes |
| Enrollment.EvaluateCandidates | python/examples/afr-enrollment-api/evaluator.py:41-101 | confidence is the best candidate's score, plus 0.05 up to 1 when account numbers agree; matched, with its account id, exactly from 0.70; categories by threshold |
| Enrollment.SearchAndDecide | python/examples/afr-enrollment-api/search_client.py:136-158 | the decision rests on a row whose own score no row of any index beats, of the account that came up first among equals: confidence is that score, plus 0.05 up to 1 when account numbers agree, and the account comes back exactly from 0.70 |
| Enrollment.BoostReachesOnlyTheFirst | python/examples/afr-enrollment-api/evaluator.py:67-79 | the account-number boost never helps a lower-ranked candidate, and when that changes the answer |
| NonceStore.NonceStore.PurgeExpired | python/examples/slack-agent/webhook.py:43-48 | drops exactly the expired entries |
| NonceStore.NonceStore.PutNonce | python/examples/slack-agent/webhook.py:51-54 | purges, then grants the nonce for ten minutes |
| NonceStore.NonceStore.PopNonce | python/examples/slack-agent/webhook.py:57-66 | purges, pops and answers; the expiry test after the pop is unreachable |
| NonceStore.StoreIsLiveOutstanding | python/examples/slack-agent/webhook.py:43-66 | after any run the store holds exactly the outstanding puts still alive at the last event |
| NonceStore.PopAnswersExactly | python/examples/slack-agent/webhook.py:57-66 | a user comes back exactly when the nonce's latest put was for that user, under 600 s ago, and not popped since |
| NonceStore.PopOnce | python/examples/slack-agent/webhook.py:57-60 | a popped nonce answers nothing until put again |
| NonceStore.NothingExpiredRemains | python/examples/slack-agent/webhook.py:43-60 | no event leaves an expired entry behind |
| SchemaSanitizer.StripAt | python/src/apx_agent/_agent_tool.py:62-80 | the stripped schema has an object exactly where the original had one off the dropped properties, and it is that object stripped |
| SchemaSanitizer.PathsLead | python/src/apx_agent/_agent_tool.py:74-80 | what the recursion visits: an object in a field, or directly in a field's list |
| SchemaSanitizer.NoLooseObjectRemains | python/src/apx_agent/_agent_tool.py:72-80 | no reachable object keeps an additionalProperties other than False |
| SchemaSanitizer.NothingElseChanges | python/src/apx_agent/_agent_tool.py:72-80 | only that key goes; other values, list lengths and non-object elements stay |
| SchemaSanitizer.StripIdempotent | python/src/apx_agent/_agent_tool.py:62-80 | a schema is unchanged exactly when nothing reachable is loose, and stripping twice is stripping once |
| SchemaSanitizer.CleanThroughoutExactly | python/src/apx_agent/_agent_tool.py:63 | the docstring's every holds exactly when no list inside a list hides a loose object |
| SchemaSanitizer.NestedListSurvives | python/src/apx_agent/_agent_tool.py:77-80 | an open object two lists down survives |
| SchemaNodes.Node.constructor | python/src/apx_agent/_agent_tool.py:62-80 | a dictionary built of scalars, lists and dictionaries that share nothing stands for the object of what they stand for |
| SchemaNodes.Node.StripInPlace | python/src/apx_agent/_agent_tool.py:62-80 | in place, the dictionary comes to stand for its stripped value, adding no node |
| SchemaNodes.Node.DropLoose | python/src/apx_agent/_agent_tool.py:72-73 | the deletion itself |
| SchemaNodes.Node.StripItems | python/src/apx_agent/_agent_tool.py:77-80 | the loop over a list strips exactly its dictionaries |
| SchemaNodes.Node.StripKid | python/src/apx_agent/_agent_tool.py:75-80 | recursing into one child leaves its siblings alone |

## Left out

- LedgerProtocol.Apply: each re-read, merge and save, and each ack load and save, is one step; the code does not lock them, so two processes interleaving inside that window are not modelled.
- LedgerProtocol.Launch: reading the manifest and the tier or stale selection before the load are not steps; a flight may carry any selection.
- Fingerprint.FingerprintOf: SHA-256 collisions are ruled out by construction, contents are characters rather than bytes, and glob matching, symlink resolution and path normalization are given by the tree.
- CapsState.ParseDuration: blanks and digits are the ASCII ones; durations too large for a timedelta raise a different error in the code.
- Verify.Project.CmdVerify: instants are whole seconds instead of ISO text; printing, slow-check notes and the rounding of recorded durations are not part of this model, nor is running the check itself.
- Verify.Project.Decide: finding the project root from the payload and the wording of the block message are left out.
- DeltaBisect.Search: the cap uses the exact integer logarithm; the code's floating-point logarithm can only round it up.
- DeltaBisect.Locate: SQL text, identifier validation, unreadable (vacuumed) versions in range, and versions committed during the search.
- A2aServer.A2aServer.Handle: error messages and data, tracing, and the internal-error reply for an exception before the turn starts; booleans and integral floats as ids count as the integers they become.
- A2aServer.RunAgent: the agent, its checkpointer and identity extraction are parameters; an identity lookup that raises is not modelled.
- TaskStorage.TaskStore.Put: the lock is taken as making each operation one step.
- LlmAgent.LlmAgent.FetchRemoteTools: a repair triggered by a tool call in the middle of a fetch, environment-variable URLs, scope guards, logging, and tools without a name.
- ToolRegistry.FetchCard: times are reals and each attempt's duration is given.
- SequentialAgent.Stream: sub-agents are functions of the conversation; one that keeps or changes the list it is handed is not modelled, nor are typed outputs and step policies.
- DocReachability.OutgoingDocLinks: the link pattern, path joining and normalization are given with each target; headings, anchors and the other detectors are left out.
- MessageTranslation.ToOpenAi: model, token limits, tools, temperature, usage and stop reasons; content that is neither text nor a block list.
- Enrollment.EvaluateCandidates: the rationale text, the familial-match note and rounding of the confidence, which the decision does not depend on.
- Enrollment.VectorSearch: query texts, filters, the SQL and demo paths, the remote service, and scores that are not numbers.
- NonceStore.NonceStore.PutNonce: times are reals, so the rounding of sums of floats is not modelled.
- SchemaNodes.Node.StripInPlace: dictionaries shared between two places, or containing themselves, are excluded by its footprint; JSON text gives neither.
- SettingsFiles.FileSystem.InstallHook: settings whose hooks are not lists of objects, and write errors.
- Slack signatures, OAuth exchange, deploy and lint scripts, the compiler and the chat agent: plumbing that would only add easy members.
