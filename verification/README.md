# Verification of the incident pipeline

This project models the single-writer incident pipeline of the bithound sidecar and proves what
it promises over whole runs. Observation batches reach one consumer task. The consumer applies
them to read models, evaluates diagnostic rules with hysteresis, and hands the rules' drafts to
the incident engine. Every touched incident is written through to a repository, and lifecycle
events fan out to notification attempts that a second task completes.

| file | what it holds |
|---|---|
| `Types.dfy` | subjects, drafts, incidents, observations, names |
| `Names.dfy` | the dotted-name scanner against its grammar |
| `Subjects.dfy` | subject encoding and decoding, fingerprint keys |
| `Kinds.dfy` | the kind registry and draft validation |
| `Engine.dfy` | the incident engine, its slot machine and its lifecycle language |
| `Mirror.dfy` | the incident repository, write-through, retention, crash recovery |
| `Hysteresis.dfy` | per-subject machines with pruning: independence, alternation, invisible pruning |
| `TimedRules.dfy` | the four time-debounced rules and their exact debounce |
| `TipLag.dfy` | the counting rule: counters, flap bound, flat-progress tracker |
| `RuleInputs.dfy` | what each rule sees, in terms of the observations applied |
| `ReadModels.dfy` | latest-wins projections, metric rings, the routing store |
| `Pipeline.dfy` | the consumer's processing of one batch, down to rows and dispatches |
| `FanOuts.dfy` | the consumer's fan-out of lifecycle events to attempts and dispatches |
| `RuleRuns.dfy` | over a run of batches: each rule's table, the drafts, the engine and the announcements |
| `Agreement.dfy` | rule flag, signal read model and engine map agree after every batch |
| `Histories.dfy` | the same and crash recovery over histories of batches, sweeps, crashes and restarts |
| `Collector.dfy` | the assembly of a Bitcoin Core poll, and what never follows from it |
| `Notifications.dfy` | attempt rows, fan-out, worker |
| `Protocol.dfy` | all interleavings of the two notification tasks |
| `Supervisor.dfy` | restart backoff |

Objects that the program mutates are classes whose methods are proved against a step function on
values; the theorems about runs are lemmas about those functions. Strings are byte strings (one
`char` per byte). Fresh ids, clock readings and the outcomes of storage calls and sends are
inputs. Both clocks count nanoseconds. The literal durations and stored strings are pinned by
`TimedRules.Retentions`, `TipLag.TipRetention` and `Subjects.StoredForms`.

## What turned out different from the comments

- A Transient outcome is stored as `FailedPermanent`: the worker always passes no retry time
  (`src/runtime/notification_worker.rs:132-134` says `FailedTransient`). See
  `Protocol.RowsTellTheirOrigin`.
- A lost save is retried only by a later touch of the same open incident. The save of a
  resolution is never retried (`src/runtime/consumer.rs:283-288` says the engine's state will
  retry); if the fingerprint opens again and that save goes through, the next start-up panics. `Mirror.CrashRecovery` and
  `Mirror.StartupPanicsExactly` give the exact conditions, `Mirror.LostResolutionPanics` a
  family of such runs.
- `SignalName::for_incident_kind` does not always give a legal name: a legal kind of more than
  121 bytes gives a signal name over the limit (`Names.SignalNameIsValid`).
- A failed poll's Critical health check never reaches the health read model, so the
  unreachable-node rule stays silent however long the node is down
  (`Collector.UnreachableNodeStaysSilent`).
- Scoped ids are not collision-free when a node id contains a slash: two nodes can share a stored
  id exactly when one node id continues the other after a slash
  (`Subjects.StoredIdsCollideExactly`, `Subjects.KeyCollisions`).
- The LND rules' drafts need not alternate: an Active left outstanding for a day is forgotten. They
  alternate exactly when, from each visit that finds its Active dropped, a new rule would stay
  silent (`TimedRules.TimedDraftsAlternate`); a subject that keeps firing is announced twice
  (`TimedRules.GapsAreObservable`).
- Rule flags do not survive a restart: an incident inherited open stays open until its rule has
  drafted Active once more (`Histories.AgreementAcrossRestarts`).

## Model

| member | source | states |
|---|---|---|
| Names.ParseDottedName | src/shared/parse.rs:51-105 | accepts exactly the names of the grammar of 1 to 128 bytes; each positional error points at the first byte after which no continuation is a name, with the error kind of that byte; end-of-input errors mean the input is only unfinished |
| Names.DottedIsClosed | src/shared/parse.rs:9-20 | the derivation-style grammar equals a byte-by-byte condition |
| Names.ViableIsFits | src/shared/parse.rs:63-92 | a string can be continued to a name iff each byte fits the one before it, the condition the scan checks |
| Names.SignalNameIsValid | src/observations/types/incident_signal.rs:56-66 | a legal kind plus ".signal" is legal iff the kind has at most 121 bytes |
| Subjects.UuidRoundTrip | src/shared/types.rs:166-168 | the text of a sidecar id parses back to it and has no key separator in it |
| Subjects.UuidForm | src/shared/types.rs:166-168 | it is the 8-4-4-4-12 text in lower-case hexadecimal |
| Subjects.SplitOnce | src/storage/sqlite/observation_store.rs:177-183 | splits at the first slash; fails iff there is none |
| Subjects.SubjectRoundTrip | src/storage/sqlite/observation_store.rs:132-175 | decoding a stored (kind, id) pair gives the original subject iff it is unscoped or its node id has no slash, and never fails |
| Subjects.ParsedKindHasNoBar | src/incidents/types.rs:41-45 | a parsed kind contains no key separator |
| Subjects.AsKeyInjective | src/incidents/types.rs:108-124 | storage keys are equal iff the fingerprints are, when node ids have no slash, subject ids and kinds no bar, and the dimension is not "-" |
| Subjects.StoredIdsCollideExactly | src/shared/types.rs:163-183 | subjects of two nodes can be stored under one id iff one node id continues the other after a slash |
| Subjects.KeyCollisions | src/incidents/types.rs:108-124 | without any one of those conditions there are, for all texts around the separator, two fingerprints with one key |
| Kinds.ParseEntry | src/incidents/kinds.rs:163-194 | an entry parses iff all its subject names are known; otherwise the first unknown one is reported |
| Kinds.InsertEntries | src/incidents/kinds.rs:137-161 | a catalog loads iff no subject is unknown and no name is taken, and then adds exactly its entries; otherwise the first bad entry is reported with its reason |
| Kinds.Load | src/incidents/kinds.rs:87-97 | the catalogs load iff each is sound and the user's defines no built-in kind anew; then the registry holds exactly their entries, otherwise the first bad entry is reported |
| Kinds.BitcoinKindsKeepTheirMeaning | config/default_kinds.toml:8-24 | in every registry that loads, each Bitcoin kind allows Bitcoin nodes only, no dimension, and opens at High |
| Kinds.LndKindsKeepTheirMeaning | config/default_kinds.toml:26-36 | the channel kind allows LND channels only and opens at Medium, the lag kind LND nodes only and opens at High |
| Kinds.SidecarKindsKeepTheirMeaning | config/default_kinds.toml:45-64 | the three connection kinds allow the sidecar only, one incident per collector, and open at High |
| Kinds.ValidateDraft | src/incidents/kinds.rs:114-134 | a draft passes iff its kind is registered, its subject allowed, and it has a dimension exactly when the kind does; otherwise the error says which of these fails first |
| Engine.Rebuild | src/incidents/engine.rs:73-96 | start-up succeeds iff the stored fingerprints are distinct, and then holds exactly the stored incidents; otherwise it names a duplicated fingerprint |
| Engine.IncidentEngine.constructor | src/incidents/engine.rs:90-95 | the engine starts with the given map |
| Engine.IncidentEngine.HandleRecordSignal | src/incidents/engine.rs:118-212 | one draft moves the map and emits events as the slot machine of its fingerprint says; a refused draft changes nothing |
| Engine.NonInterference | src/incidents/engine.rs:104-212 | over any interleaving, accepted or refused, the slot and the outcomes of a fingerprint are those of its own drafts alone |
| Engine.OpenIncidentIsSummary | src/incidents/engine.rs:138-207 | after any run a fingerprint is open iff a qualifying draft followed its last Cleared, and its incident (id, times, maximal severity, signals, evidence, summary) is the account of exactly those drafts |
| Engine.OutcomeIsAccount | src/incidents/engine.rs:104-212 | after any run from an empty engine a draft is refused iff it is invalid; otherwise its events are the signal as drafted, then the touched incident - the account of the drafts since the last Cleared, open or closed at this time - then Opened, Escalated iff the severity rose, or Resolved; below the floor only the note that says so |
| Engine.LifecycleLanguage | src/incidents/engine.rs:163-206 | each fingerprint's announcements are a prefix of (Opened Escalated* Resolved)*, open exactly while the slot is; escalations strictly raise the announced severity of the same incident |
| Engine.AtMostTwoEscalations | src/incidents/engine.rs:245-259 | an incident escalates at most twice |
| Mirror.IncidentRepository.Save | src/storage/memory/incident_repository.rs:35-39 | replaces the row of the incident's id |
| Mirror.IncidentRepository.LoadOpen | src/storage/memory/incident_repository.rs:24-33 | lists every non-resolved row once, oldest first |
| Mirror.IncidentRepository.SweepIncidents | src/storage/retention.rs:61-71 | without a limit nothing goes; with one, exactly the rows resolved longer ago than it or than 64 bits of nanoseconds |
| Mirror.SaveIncidentWithRetry | src/runtime/consumer.rs:289-309 | up to three tries, waiting 100 and 500 ms after the first two failures; succeeds iff a try is acknowledged, and the row is written iff a try wrote it, acknowledged or not |
| Mirror.StepTouches | src/incidents/engine.rs:151-207 | a draft touches at most one incident: the one now or formerly in its slot |
| Mirror.StepKeepsInv | src/runtime/consumer.rs:262-270 | a draft with its write-through, a sweep or a restart keeps rows and open incidents linked, rows of lost saves being older open versions |
| Mirror.CrashRecovery | src/incidents/engine.rs:46-51 | at any point of any run of drafts, lost saves, sweeps and restarts, restarting gives exactly the engine's map without a panic iff no lost save is outstanding |
| Mirror.StartupPanicsExactly | src/incidents/engine.rs:69-88 | start-up panics iff the fingerprint of a resolution whose save was lost has been reopened with a save that went through |
| Mirror.LostResolutionPanics | src/incidents/engine.rs:196-207 | opening, losing the save of the resolution and reopening makes the next start-up panic |
| Mirror.ResolvedRowsTellTheirEnd | src/incidents/engine.rs:196-207 | in every run each stored Resolved row was written when a Cleared draft closed its incident, carries that draft's time and the account the engine then had; a sweep removes it iff its cutoff has passed that time |
| Mirror.OpenRowsStay | src/storage/retention.rs:61-71 | a row still open is never swept |
| Hysteresis.SubjectsAreIndependent | src/diagnostics/rules/bitcoin/no_peers.rs:127-179 | on a monotone clock the outputs of a subject are those of its own visits alone; pruning during other subjects' visits cannot be observed |
| Hysteresis.TableIsSolo | src/diagnostics/rules/bitcoin/no_peers.rs:127-179 | an entry in the rule's table is the one its subject would have alone |
| Hysteresis.PruningIsInvisible | src/diagnostics/rules/lnd/chain_backend_lag.rs:140-199 | if every visit finds its entry still kept, or dropped while it held nothing, a rule emits exactly the drafts of the same rule without pruning |
| Hysteresis.SmallGapsAreHarmless | src/diagnostics/rules/lnd/chain_backend_lag.rs:187-199 | that is so when no subject stays untouched for the idle retention |
| Hysteresis.IdleEntriesAreRecent | src/diagnostics/rules/bitcoin/no_peers.rs:167-179 | after an evaluation every entry without an outstanding Active was touched within the retention |
| Hysteresis.DraftsAlternateExactly | src/diagnostics/rules/lnd/channel_inactive.rs:103-193 | over any run a subject's drafts alternate starting with Active iff no draft follows a gap of the active retention with an Active unanswered, iff from each visit that finds its Active dropped a new rule would stay silent |
| Hysteresis.DraftsAlternate | src/diagnostics/rules/bitcoin/rpc_unreachable.rs:129-147 | in particular when no gap reaches the retention of active entries, and always when there is none |
| Hysteresis.ClearedAnswersActive | src/diagnostics/rules/lnd/channel_inactive.rs:116-145 | in every run each Cleared directly follows its Active |
| Hysteresis.TouchMovesOwnFlag | src/diagnostics/rules/bitcoin/no_peers.rs:144-155 | an evaluation moves only its own subject's flag, exactly as its draft says |
| TimedRules.ClassifyPeers | src/diagnostics/rules/bitcoin/no_peers.rs:82-112 | fires iff networking is on and the outbound count, the network's own first, is zero; unknown iff an input is missing |
| RuleInputs.AppliedHolds | src/read_models/projections/state.rs:46-67 | after any observations the projections hold, per subject and name, the first-applied newest of them |
| RuleInputs.RpcReads | src/diagnostics/rules/bitcoin/rpc_unreachable.rs:83-93 | the condition is Firing iff the newest health checks of all four calls are Critical |
| RuleInputs.PeersRead | src/diagnostics/rules/bitcoin/no_peers.rs:82-112 | Firing iff the node's newest network state has networking on and the outbound count, its own first, else the newest peer summary's, is zero; NotFiring iff networking is off or the count is positive; Unknown otherwise |
| RuleInputs.TipReads | src/diagnostics/rules/bitcoin/tip_lag_or_ibd_stalled.rs:129-150 | the rule evaluates iff the node's newest blockchain and peer states are stored, on the sample they give |
| RuleInputs.LagReads | src/diagnostics/rules/lnd/chain_backend_lag.rs:92-136 | the rule evaluates iff both heights were reported within 90 seconds, and fires iff bitcoind is ahead by more than the threshold |
| RuleInputs.ChannelReads | src/diagnostics/rules/lnd/channel_inactive.rs:83-130 | the rule evaluates iff the channel's newest state is stored; fires while it is inactive, with the debounce of its privacy; Critical and High iff the peer is known to be online, else Warning and Medium |
| TimedRules.BitcoinRpcUnreachableRule.Evaluate | src/diagnostics/rules/bitcoin/rpc_unreachable.rs:97-150 | one evaluation is one step of the shared machine on the four health targets |
| TimedRules.BitcoinNoPeersRule.Evaluate | src/diagnostics/rules/bitcoin/no_peers.rs:119-164 | one evaluation is one step of the shared machine on the three-way classification |
| TimedRules.LndChainBackendLagRule.Evaluate | src/diagnostics/rules/lnd/chain_backend_lag.rs:92-170 | a step of the shared machine on the height gap, or nothing when a height is missing or older than 90 seconds |
| TimedRules.LndChannelInactiveRule.Evaluate | src/diagnostics/rules/lnd/channel_inactive.rs:83-149 | a step of the shared machine with the debounce of the channel's privacy and the severity of the peer's status |
| TimedRules.BitcoinNoPeersRule.PruneStale | src/diagnostics/rules/bitcoin/no_peers.rs:169-179 | keeps active entries and those touched within the hour |
| TimedRules.LndChannelInactiveRule.PruneStale | src/diagnostics/rules/lnd/channel_inactive.rs:181-193 | keeps active entries for a day and others for an hour after their last touch |
| TimedRules.ExactDebounce | src/diagnostics/rules/bitcoin/no_peers.rs:139-161 | unless a live entry was dropped, Active is emitted iff the subject fires, has fired for the debounce since the first firing after the last NotFiring, and no earlier visit of the stretch had; Cleared iff such a stretch ends; Unknown neither ends nor advances it |
| TimedRules.TimedDraftsAlternate | src/diagnostics/rules/lnd/chain_backend_lag.rs:153-199 | the Bitcoin rules alternate whatever the gaps; the LND rules iff, from each visit a day or more after an Active still outstanding, a new rule would stay silent, in particular when touched more than once a day; their Cleared is always matched |
| TimedRules.GapsAreObservable | src/diagnostics/rules/lnd/chain_backend_lag.rs:187-199 | two firing visits an hour apart never open an incident; an LND subject that keeps firing but is left alone for a day is announced Active twice, for every debounce below an hour |
| TipLag.BitcoinTipLagRule.Evaluate | src/diagnostics/rules/bitcoin/tip_lag_or_ibd_stalled.rs:129-182 | one evaluation is one step of the counting machine, or nothing when a state is missing |
| TipLag.BitcoinTipLagRule.UpdateStateAndClassify | src/diagnostics/rules/bitcoin/tip_lag_or_ibd_stalled.rs:190-224 | updates the progress tracker, then classifies |
| TipLag.HealthyNodeStaysSilent | src/diagnostics/rules/bitcoin/tip_lag_or_ibd_stalled.rs:114-122 | over any run a subject always within 1000 blocks of the tip that never meets all of initial download, progress above 0.999 and 8 peers is never drafted |
| TipLag.TipEvidenceDecides | src/diagnostics/rules/bitcoin/tip_lag_or_ibd_stalled.rs:152-182 | k consecutive evaluations less than an hour apart that meet them leave an Active outstanding; k that fail one of them leave none |
| TipLag.CountersAreTrailingRuns | src/diagnostics/rules/bitcoin/tip_lag_or_ibd_stalled.rs:162-179 | in every run, each counter of an entry in the table is the trailing run of its classification since the entry was created, capped at the 32-bit maximum, and the flag says a run of k firing evaluations has not been answered by k clear ones |
| TipLag.FlapBound | src/diagnostics/rules/bitcoin/tip_lag_or_ibd_stalled.rs:7-11 | at most n/k drafts over the first n evaluations of a subject and (n+k-1)/k over any n later ones, pruned or not |
| TipLag.TrackerIsAnchored | src/diagnostics/rules/bitcoin/tip_lag_or_ibd_stalled.rs:197-210 | in every run an entry in the table remembers the anchor of its subject's visits since it was created |
| TipLag.AnchorHolds | src/diagnostics/rules/bitcoin/tip_lag_or_ibd_stalled.rs:197-210 | every sample since the anchor lies within a billionth of it |
| TipLag.StallMeansFlat | src/diagnostics/rules/bitcoin/tip_lag_or_ibd_stalled.rs:212-217 | with 1000 blocks missing or more, an evaluation fires iff the anchor is at least the flat window old; then the samples since are pairwise within two billionths; and it fires whenever the progress has not moved for the window |
| TipLag.TipDraftsAlternate | src/diagnostics/rules/bitcoin/tip_lag_or_ibd_stalled.rs:162-179 | the drafts of a subject alternate whatever the gaps |
| ReadModels.ReadModelStore.Apply | src/read_models/store.rs:67-83 | routes an observation to the projection of its payload |
| ReadModels.ReadModelStore.ApplyState | src/read_models/projections/state.rs:46-67 | keeps the newest state per (subject, name); ties keep the old one |
| ReadModels.ReadModelStore.ApplyHealth | src/read_models/projections/health.rs:42-62 | keeps the newest check per (subject, target) |
| ReadModels.ReadModelStore.ApplySignal | src/read_models/projections/incident_signal.rs:67-87 | keeps the newest signal per (subject, name) |
| ReadModels.ReadModelStore.ApplyMetric | src/read_models/projections/metric.rs:102-119 | pushes at the back and evicts from the front down to the capacity |
| ReadModels.LatestWins | src/read_models/projections/state.rs:46-67 | each key holds the first-applied value among those of maximal time |
| ReadModels.LatestIgnoresOrder | src/read_models/projections/health.rs:42-62 | with distinct times per key the result does not depend on the order of arrival |
| ReadModels.StoreIsItsProjections | src/read_models/store.rs:69-83 | the store equals each projection fed only its own payloads; each series is the last min(capacity, n) samples of its history |
| ReadModels.UnchangedForSeesTheRun | src/read_models/projections/metric.rs:80-98 | the result is the last min(capacity, run) samples of the full history's trailing equal run |
| ReadModels.SamplesSinceSeesAll | src/read_models/projections/metric.rs:62-75 | in time order the ring answers like the full history iff no evicted sample is newer than the bound, in particular when the ring's front is not |
| Pipeline.Consumer.ProcessBatch | src/runtime/consumer.rs:96-173 | one batch moves read models, rules, engine and repository as the composed step function says, and fans its lifecycle events out in order to attempt rows and dispatches |
| RuleRuns.TablesAreRuns | src/runtime/consumer.rs:119-145 | over any run of batches each of the three rule tables is a run of that rule's machine over the batches that reach it, on what all observations applied so far say |
| RuleRuns.EngineFollowsOutputs | src/runtime/consumer.rs:147-172 | the engine of a run is the engine alone fed those machines' outputs as Critical, High drafts at the batches' times; a batch announces exactly what the engine says to its own |
| RuleRuns.OutputIsAnnounced | src/runtime/consumer.rs:147-217 | an Active output for a closed incident puts an Opened into the batch's lifecycle, Critical and at the batch's time; a Cleared output for an open one its Resolved |
| Pipeline.Consumer.AppendAndApply | src/runtime/consumer.rs:119-135 | applies the observations up to the first failed append |
| Pipeline.Consumer.RecordDraft | src/runtime/consumer.rs:147-172 | one draft through the engine, then its events in order, each lifecycle event fanned out before the next |
| Pipeline.Consumer.ProcessEvent | src/runtime/consumer.rs:243-281 | a signal goes to the read models, a touched incident to the repository with retries, a lifecycle event to the fan-out |
| FanOuts.NotifyAllIsExact | src/runtime/consumer.rs:311-370 | with fresh ids a batch's events leave one pending row for each event and each rule that wants it and whose insert goes through, and send, in event order, one dispatch per event with a row, listing those rules in order |
| Agreement.BatchMovesRecords | src/runtime/consumer.rs:137-172 | one batch moves a rule's flag, the engine's map and the signal read model by the same drafted status |
| Agreement.BatchKeepsAgreement | src/runtime/consumer.rs:137-172 | a batch keeps flag and open incident in agreement without any clock assumption, and the signal read model too when its signals are older than the batch |
| Agreement.SignalFollowsDraftExactly | src/read_models/projections/incident_signal.rs:73-77 | a draft shows in the signal read model iff no signal of the other status is stored with an equal or later time |
| Agreement.ThreeWayAgreement | src/runtime/consumer.rs:96-281 | from an empty start, after every batch of every run, flag and open incident agree for each node and Bitcoin kind; with strictly increasing batch times the signal read model agrees too |
| Histories.HistoryKeepsMirror | src/runtime/consumer.rs:262-270 | every history of batches, sweeps, crashes and restarts keeps the durable mirror's invariant |
| Histories.AgreementAcrossRestarts | src/main.rs:138-157 | at any moment of any history a raised flag means an open incident; flag and engine agree iff no open incident was inherited or the rule has raised its flag since the restart; until then an inherited incident stays open; the signal read model agrees with the flag when batch times strictly increase |
| Histories.PipelineRecovery | src/runtime/consumer.rs:283-288 | at any moment of any history, reading the repository back gives the engine's map iff no lost save is outstanding, and then lists a Bitcoin incident if its rule's flag is up, and only then once the rule has raised it or none was inherited |
| Collector.Poll | src/collectors/bitcoin_core/rpc.rs:135-319 | every successful call is reported in target order; the batch fails iff a call did, with the first failure's target as Critical health check |
| Collector.UnreachableNodeStaysSilent | src/runtime/consumer.rs:175-190 | over any run fed by this collector no Critical check enters the read model and no unreachable-node incident is ever open |
| Notifications.AttemptRepository.InsertPending | src/storage/memory/notification_attempt_repository.rs:28-37 | inserts unless the id is taken |
| Notifications.AttemptRepository.Complete | src/storage/memory/notification_attempt_repository.rs:39-58 | sets the row's outcome whatever its status was; fails iff there is no row |
| Notifications.AttemptRepository.SweepAttempts | src/storage/retention.rs:83-100 | without a limit nothing goes; with one, exactly the rows that are not pending and were attempted longer ago |
| Notifications.MatchesIsWants | src/notifications/types.rs:238-261 | a rule matches iff it is enabled, names the incident's kind or none, and its floor is not above the severity, Info below Warning below Critical |
| Notifications.RetryIsDue | src/storage/memory/notification_attempt_repository.rs:60-74 | an attempt is due for a retry iff it failed for a while and its retry time has come |
| Notifications.DispatchLifecycle | src/runtime/consumer.rs:311-370 | inserts the rows first, then sends one dispatch naming them, or none when none was inserted |
| Notifications.FanOutIsExact | src/runtime/consumer.rs:323-353 | with fresh ids exactly one pending row per matching rule whose insert succeeded, targets listed in rule order |
| Notifications.ProcessDispatch | src/runtime/notification_worker.rs:154-169 | no row comes or goes; each row holds the outcome of the last update for it that went through, whatever its status was, and is unchanged if there was none |
| Protocol.FlightsArePendingAlways | src/runtime/notification_worker.rs:137-169 | under every interleaving each id held, queued or still to be processed is there once and its row is pending |
| Protocol.RowsChangeOnce | src/notifications/types.rs:71-78 | each row changes status at most once, from pending to terminal, keeps its identity, and is removed only when terminal |
| Protocol.AttemptsAreConserved | src/runtime/consumer.rs:323-366 | a pair of an announced event and a rule offered it has a row, and only one, iff the rule is enabled, names the kind or none, has a floor not above the severity, and the insert went through; rows go only by retention |
| Protocol.PendingIsInFlight | src/runtime/notification_worker.rs:137-169 | while both tasks live, a row is pending exactly while its attempt is held, queued or still to be processed, or because its update failed; at most 256 dispatches are queued |
| Protocol.DispatchesAreExact | src/runtime/consumer.rs:319-366 | in every reachable state each dispatch being sent, queued or worked on tells one announced event and lists, in rule order, exactly the attempts of the matching rules whose insert went through, with their targets; dispatches are in event order, one for an event at most |
| Protocol.FanOutIsAPath | src/runtime/consumer.rs:311-370 | the consumer's fan-out with fresh ids is a path of the protocol's steps and hands over the same rows and dispatch |
| Protocol.WorkIsAPath | src/runtime/notification_worker.rs:154-169 | the worker's loop over a dispatch is a path of the protocol's steps and leaves the same rows |
| Protocol.WorkEndsItsAttempts | src/runtime/notification_worker.rs:154-169 | in every run, working off a dispatch gives each listed attempt, which was pending, the outcome of its own send, or leaves it pending when that update fails, and touches no other row |
| Protocol.RowsTellTheirOrigin | src/storage/memory/notification_attempt_repository.rs:60-104 | each row names its rule, incident and event kind, and its rule wants its event; none is ever FailedTransient, so nothing is retryable at any time |
| Supervisor.RestartsAreAmortised | src/runtime/supervisor.rs:122-131 | over any n cycles from any index, three times their length plus the allowance gained covers 400 n seconds |
| Supervisor.Supervise | src/runtime/supervisor.rs:93-132 | each wait is the schedule slot of the exits since the last long run, the index stays in range, and n cycles from any index take T seconds with 3T >= 400n - 900 |
| Supervisor.BoundIsTight | src/runtime/supervisor.rs:31-35 | three immediate exits meet the bound exactly |

## Left out

- HTTP, gRPC and JSON-RPC clients, senders and renderers: a send is an arbitrary outcome.
- Config loading, command line, secrets, operator API, logging: plumbing.
- SQL, migrations and JSON round trips: the in-memory repositories stand for storage.
- Task scheduling, signals and liveness: the two notification tasks are steps in any order; only safety is proved.
- The capability and heartbeat projections, and the list queries of the signal projection: repeats of the modelled ones.
- The Acknowledge and Resolve commands and suppression: unimplemented stubs.
- IEEE rounding and NaN: progress and metric values are reals.
- Message text of a notification: it does not influence any row.
- Rules that fail or panic: none of the modelled rules does, so the consumer's skip is not exercised.
- Pipeline.Consumer.ProcessBatch: the three Bitcoin rules are called one after the other instead of through a list of rule objects, and a dispatch counts as sent when it is handed to the channel; Protocol models the channel.
- Agreement.ThreeWayAgreement: from an empty start only, because rule flags do not survive a restart; Histories.AgreementAcrossRestarts says what holds after one.
- ReadModels.ReadModelStore.Apply: capability and heartbeat observations are not stored, because their projections are not modelled.
- Notifications.AttemptRepository.Complete: the lists of retryable rows and of an incident's rows are not modelled as methods; retryable rows are a set, without order or limit.
- Subjects.UuidRoundTrip: the UUID parser accepts only the hyphenated lower-case form; the library also reads other spellings.
- Collector.Poll: latency, messages and the probe window are not part of the batch; the peer, network and chain mappings are field copies.
