# Granite Controller: a Dafny model of the mutation pipeline

Granite Controller turns the last user message of a chat request into at most one operation on one
Proxmox VE virtual machine. A small language model picks a tool; Go code decides whether that choice
may run, suppresses duplicates, checks the VM's state, and calls Infrastructure Control. This project
models that Go code and proves what it guarantees, for every input, every interleaving of any number of
requests, and every answer of the model, the upstream API, the clock and the callers' cancellations.

## How the model is laid out

| file | what it models |
|---|---|
| `Text.dfy`, `Decimal.dfy` | substring search, marker removal, trimming; decimal numerals and maximal digit runs |
| `ChatInput.dfy`, `Safety.dfy`, `Tools.dfy`, `Validate.dfy` | the final-message rule, the checks before the model, the action table, the check on the tool call |
| `Gate.dfy` | both text checks together: exactly which texts that name two actions get past them |
| `Rules.dfy`, `RuleProofs.dfy` | the rules of the text gate written out marker by marker, and that the tables and loops follow them, outcome by outcome |
| `Infra.dfy`, `Api.dfy` | classification of upstream answers, the state precondition, API errors |
| `DedupStore.dfy` | the store as objects: `Entry`, `Store`, and the two critical sections of `Do` |
| `DedupLedger.dfy`, `Rate.dfy` | whole runs of the store with any number of callers and keys |
| `DedupAutomaton.dfy` | what one key promises, and the refinement of the store to it |
| `Service.dfy`, `ServiceInvariant.dfy` | any number of concurrent `Complete` calls as atomic steps, and what every step keeps |
| `ServicePrepare.dfy`, `ServiceReplies.dfy` | every outcome before the store, and what each caller is told in terms of its own requests and their answers |
| `ServiceTheorems.dfy`, `ServiceProgress.dfy`, `ServiceHistory.dfy` | the main results: safety, conservation, progress, non-interference |
| `ServiceCode.dfy` | `Complete` as code over the store object, tied to a run of the machine |
| `Uptime.dfy` | the uptime printer and a reader that inverts it |
| `ProcessManager.dfy` | the llama-server manager, its reaper, its watcher and any number of `Stop` calls |

The chain from code to theorem is: the loops and class methods equal functions on values
(`AnalyzeInput`, `ValidateToolCall`, `Store.Enter`, `Store.Finish`, `Complete`); those functions are the
steps of the machines; invariants hold in every reachable state; the theorems follow from the invariants.
Tables, codes and statuses that the code keeps in constants are stated a second time, as literals, in the results
that rest on them.
Text is a sequence of code points. A Go map that is ranged over is a set whose elements are taken in an
arbitrary order, so a method proved equal to a function is independent of the order. Time is an integer
that never goes back and starts after Go's zero time; the deduplication window is positive, as the
configuration demands (internal/config/config.go:114).

## Where the code and its documents differ

The model follows the code.

- The design asks to refuse several explicit actions in one message. The count alone misses some, for two reasons:
  it removes each group's markers before it looks for the next group, so removal can join pieces into a further
  marker that takes characters of a later one along (`Safety.SplicedActionsCountOnce`); and its shutdown group
  lacks a marker that the action table has (`Gate.UncountedActionIsRefused`). The check on the tool call makes up
  for the second. `Gate.TwoActionsAcceptedIff` says exactly which texts that name two actions are accepted: only a
  restart beside a start, when removing the restart markers leaves no shutdown or start marker; and
  `Gate.SplicedRestartIsAccepted` that there is such a text for every VM.
- The design asks to refuse negative numbers. The digit-run pattern ignores a sign, so `-5` names 5:
  `Safety.SignIsIgnored` for every text, `Gate.NegativeIdIsAccepted` for a query of every VM.
- The design shows optional seconds under an hour. The printer drops them from one minute on;
  `Uptime.SecondsAreLostPastAMinute` says exactly when nothing is lost.
- The design names the deduplication key after the tool; the code uses the action (internal/managed/service.go:80).
- The code's evidence and negation lists are longer than the design's.
- A `Stop` call that has returned leaves the child dead or another call still waiting for it
  (`ProcessManager.StopWaitsForExit`), so the controller's single call waits (`ProcessManager.SingleStopWaits`).
  A further call made after another has taken the cancel function returns at once, and only such a call does
  (`ProcessManager.LateStopReturnsAtOnce`).
- The startup loop does not look at the stopping flag. A `Stop` call that comes during startup can be followed by
  readiness, or by the failure exit that is meant for a child that ended by itself: `ProcessManager.ReadyAfterStop`
  and `ProcessManager.StopDuringStartupFails` are such runs, `ProcessManager.ReadinessReturnsIff` and
  `ProcessManager.KilledChildFailsIff` say exactly when it can happen.

## Model

| member | source | states |
|---|---|---|
| ServiceTheorems.EveryPostIsWarranted | internal/managed/service.go:48-99 | In every interleaving each POST is made for a request with a readable last message whose text the written rules grant the call: the VM is its only ID, the action and no other is asked for, it counts as one action, and it has no negation, condition or batch marker; force stop was enabled if it is a stop; the caller leads the POST's run, and its latest effect before it was a GET of that VM that found it stopped for a start and running otherwise |
| ServiceTheorems.PostsFollowTheirGet | internal/managed/service.go:81-90 | Of the caller's effects the one just before a POST is a GET of the same VM that found "stopped" for a start and "running" for any other action |
| ServiceTheorems.PostsAreUnconditional | internal/managed/safety.go:13-36 | No POST of any run has a text with one of the eleven condition, batch and sequence markers, the pair of the wait marker, or one of the nine negation markers |
| ServiceTheorems.PostNamesOneAction | internal/managed/service.go:48-99 | Every action that a POST's text names is the one posted, but for a restart whose removal takes the other markers along |
| ServiceTheorems.PreparedMutationIsWarranted | internal/managed/service.go:48-72 | A mutation gets past readiness, extraction, analysis and validation only if the final message warrants it, whatever the model answers |
| ServiceTheorems.OneGetThenOnePost | internal/managed/service.go:81-99 | A request sends at most one GET and at most one POST, the GET first |
| ServiceTheorems.FinalMessageDecidesTheCall | internal/managed/service.go:52-72 | Two requests with one final message can only ever be executed as the same action on the same VM, for any two model replies |
| ServiceTheorems.PostsAreSpaced | internal/managed/service.go:81-99 | Of two POSTs for one action and VM, an accepted or unknown earlier one is at least one window before the later |
| ServiceTheorems.PostRateIsBounded | internal/managed/service.go:81-99 | An interval of length t sees at most 1 + t / window accepted or unknown POSTs of one action on one VM |
| ServiceTheorems.FollowersShareTheirLeadersResult | internal/dedup/store.go:41-64 | A follower that is not cancelled returns its leader's value and error, marked deduplicated, for the same call; also when the entry is no longer in the map |
| ServiceReplies.QueriesReportTheirGet | internal/managed/service.go:73-79 | A replied query sent one GET of its own; its reply reports the number, name, state and uptime that this GET gave, or refuses with its error's code and 504 exactly for a timeout, and carries its own warnings |
| ServiceReplies.LeadersReportTheirOwn | internal/managed/service.go:81-108 | A leader's reply is decided by its own GET and POST: a failure's code, the state that was found, or the accepted POST, with every field of the response |
| ServiceReplies.FollowersRepeatTheirLeader | internal/managed/service.go:100-108 | A follower sends nothing and is told what its leader was told, as deduplicated, not executed and with its own warnings; a cancelled one is refused with 502 |
| ServiceReplies.OnlyFollowersAreDeduplicated | internal/managed/service.go:107-108 | A completed reply has the deduplicated flag exactly when it is a follower's, and its warnings are those of its own request |
| ServiceReplies.RejectionsAreReported | internal/managed/service.go:49-72 | A request that the checks refuse is told their error and sent nothing upstream |
| ServiceReplies.ReturnsAreTheLeadersOwn | internal/managed/service.go:81-99 | What a leader publishes, and whether it is kept, is decided by its own GET and POST |
| ServicePrepare.ProceedsIff | internal/managed/service.go:48-72 | Exactly when a request proceeds, as which call and with which warnings |
| ServicePrepare.EarlyRefusals | internal/managed/service.go:49-58 | The refusals before the analysis, in the code's order, with their codes and statuses |
| ServicePrepare.LateOutcomes | internal/managed/service.go:59-72 | From the analysis on the first refusal is the outcome, and without one the call with the request's warnings |
| ServiceTheorems.RepliesAreFaithful | internal/managed/service.go:100-108 | The cast of the stored value never fails; every successful reply is about its own action and VM; it claims execution only for its own accepted POST |
| ServiceTheorems.FailuresAreHonest | internal/managed/service.go:82-104 | A leader is refused exactly when its own GET or POST failed, with that error, and the failure is kept for later callers exactly when a POST's outcome is unknown |
| ServiceTheorems.ExecutionsAreConserved | internal/managed/service.go:98-108 | The replies with the executed flag are as many as the accepted POSTs whose sender has replied, one each, however many followers share them |
| ServiceProgress.NoRequestIsStuck | internal/dedup/store.go:37-65 | While a request is open some caller can step without arrivals, time or cancellation, every such step lowers the work left, and with no work left all have replied |
| ServiceProgress.FurtherStepsAreBounded | internal/dedup/store.go:37-65 | Without new arrivals the callers' further steps are bounded by the work left |
| ServiceHistory.HistoryDoesNotInterfere | internal/managed/input.go:21-63 | Runs whose requests differ only in history send the same GETs and POSTs, leave the same store and give the same replies up to warnings |
| ServiceHistory.PreparationIgnoresHistory | internal/managed/service.go:52-72 | The text sent to the model and the outcome of all checks depend on the model name and the last message alone |
| Service.ServiceRunsTheStore | internal/managed/service.go:81-99 | The store's part of every service run is a run of the store, so the store's theorems hold in it |
| Service.KeyIsInjective | internal/managed/service.go:80 | Two calls share a deduplication key only when action and VM agree |
| ServiceInvariant.RunKeepsInv | internal/managed/service.go:48-109 | The invariant over callers, runs, log and store holds in every reachable state |
| ServiceInvariant.StepKeepsInv | internal/managed/service.go:48-109 | Every atomic step keeps it |
| ServiceInvariant.NewPostIsSpaced | internal/managed/service.go:90-99 | A POST about to be made belongs to a later run than every earlier POST of its key, and comes a window after the accepted or unknown ones |
| ServiceCode.Complete | internal/managed/service.go:48-109 | An uninterrupted call leaves the store, gives the reply and sends the requests of a machine run that extends the given one; it blocks only on an entry in flight |
| ServiceCode.Deduplicated | internal/managed/service.go:80-108 | `Do` and the response over the store object: a follower takes the live entry's result, a leader publishes its closure's |
| ServiceCode.Lead | internal/dedup/store.go:54-64 | The unlocked closure followed by the second critical section |
| ServiceCode.Closure | internal/managed/service.go:81-99 | It posts exactly when the GET found the required state, and its result is not cached exactly after a failed GET or a POST answered with another status than 202 |
| ServiceCode.PrepareCall | internal/managed/service.go:49-72 | The checks in the code's order, with the first failing one's error |
| DedupStore.Store.Enter | internal/dedup/store.go:38-53 | Joins the key's entry if it is in flight or unexpired, otherwise installs a fresh one; the whole new store state |
| DedupStore.Store.Finish | internal/dedup/store.go:55-63 | Publishes, keeps with an expiry or deletes, closes once; the whole new store state |
| DedupLedger.SingleFlight | internal/dedup/store.go:38-63 | A key has at most one unfinished leader, its entry is the map's entry, and zero expiry marks exactly the unfinished ones of the map's entries; so a leader deletes only its own entry |
| DedupLedger.PublishedIsForever | internal/dedup/store.go:55-64 | Once an entry is closed its value, error and expiry never change, and no run's key, leader or start does |
| DedupLedger.FollowerReadsTheLeadersReturn | internal/dedup/store.go:41-47 | A follower reads exactly what the leader of the entry returned |
| DedupLedger.CachedRunsAreSpaced | internal/dedup/store.go:37-65 | Of two runs for one key the earlier is over before the later starts, and a window before it if it was cached |
| DedupLedger.CachedRateIsBounded | internal/dedup/store.go:37-65 | An interval of length t holds at most 1 + t / window cached completions of one key |
| DedupLedger.StepKeepsInv | internal/dedup/store.go:37-65 | Every critical section, read and passage of time keeps the store's invariant |
| DedupAutomaton.StoreRefinesAutomaton | internal/dedup/store.go:37-65 | Every event takes every key's view along a transition of the automaton idle, busy, held; a follower gets only what a finished run published |
| DedupAutomaton.LeadsIffFree | internal/dedup/store.go:39-50 | A caller leads exactly when the key is idle or its held result has expired |
| DedupAutomaton.OtherKeysAreUntouched | internal/dedup/store.go:37-65 | Entering or finishing one key leaves every other key's view unchanged |
| Rate.CountIsBounded | internal/dedup/store.go:57-58 | Moments a gap apart: at most 1 + t / gap in an interval of length t |
| Validate.ExecutableActionIsUnique | internal/managed/validate_granite.go:45-71 | For one text and VM ID any two accepted tool calls, under any force-stop settings, give the same call |
| Validate.SupportIsUnique | internal/managed/validate_granite.go:46-67 | A text supports at most one action |
| Validate.AcceptedIff | internal/managed/validate_granite.go:20-72 | Exactly when a tool call is accepted for an action |
| Validate.ForeignMarkersLieInsideTheMatch | internal/managed/validate_granite.go:46-61 | An accepted action's longest marker strictly contains every other action's marker in the text |
| Validate.LongMarkersDecide | internal/managed/validate_granite.go:46-61 | A four-character marker in the text leaves no other action supported |
| Validate.ForcedWordsOnlyStop | internal/managed/validate_granite.go:52-61 | Forced words can only be executed as a stop, the four-character restart only as a reboot |
| Validate.LongestIsLongest | internal/managed/validate_granite.go:46-51 | The match is a longest marker of the action that occurs in the text, or empty |
| Validate.ValidateToolCall | internal/managed/validate_granite.go:20-72 | The same call or the same error for every order in which both loops range over the table |
| Validate.FindAction | internal/managed/validate_granite.go:21-27 | The first loop finds the action of the tool name in any order |
| Validate.CheckOthers | internal/managed/validate_granite.go:52-61 | The second loop decides dominance in any order |
| Tools.EvidenceIsDisjoint | internal/managed/tools.go:25-31 | No marker is evidence for two actions |
| RuleProofs.AnalysisIsExact | internal/managed/safety.go:17-47 | Every outcome of the analysis: the four refusals with their codes and status and the success, by the numbers and the literal markers of the trimmed text |
| RuleProofs.ConditionalsAreRefused | internal/managed/safety.go:13-38 | A text with one good ID is refused as complex exactly when it has one of the eleven literal markers or both of the pair |
| RuleProofs.CountIs | internal/managed/safety.go:49-70 | The count of actions, with every marker and every removal written out |
| RuleProofs.CallIsExact | internal/managed/validate_granite.go:40-71 | Every outcome of the check on a known tool call, in the code's order, by the literal markers of the text |
| RuleProofs.BadCallIsRefused | internal/managed/validate_granite.go:21-39 | A call of another kind, with an unknown tool name or with bad arguments is refused as invalid |
| RuleProofs.DominatesIff | internal/managed/validate_granite.go:45-61 | Exactly which markers of other actions may stand beside each action |
| RuleProofs.PassesIffGranted | internal/managed/validate_granite.go:20-72 | A text gets past both checks as an action on a VM exactly when the written rules grant it |
| Safety.AnalyzeInput | internal/managed/safety.go:17-47 | The loops compute the analysis of the text, errors included |
| Safety.AnalyzeIsExact | internal/managed/safety.go:17-47 | Success with v exactly when v is the only number of the trimmed text's maximal digit runs, a positive int64, and no structure marker stands in the way |
| Safety.IdErrorsAreExact | internal/managed/safety.go:19-30 | The two ID errors, by the numbers the text names |
| Safety.StructureErrorsAreExact | internal/managed/safety.go:31-41 | The two structure errors, by the markers of the text |
| Safety.PrintedIdIsReadBack | internal/managed/safety.go:12-46 | With a printed ID between digit-free texts the analysis gives that ID unless the structure of the trimmed text refuses it |
| Safety.SignIsIgnored | internal/managed/safety.go:12-30 | A sign or any other character that is no digit, directly before a number, changes neither the ID nor either ID error |
| Safety.TrimmingKeepsTheId | internal/managed/safety.go:18-19 | Trimming changes no number that the text names |
| Safety.CountIsZeroIffNoMarker | internal/managed/safety.go:49-70 | The count is zero exactly when the text holds no marker of any group |
| Safety.NoHitsIffNoMarkers | internal/managed/safety.go:51-68 | From any group on, nothing is found exactly when what is left there holds no marker of the remaining groups |
| Safety.ResidualShrinks | internal/managed/safety.go:51-64 | What remains is a subsequence of the text, and the text itself until the first group is found |
| Safety.SplicedActionsCountOnce | internal/managed/safety.go:58-66 | A text that holds markers of two groups apart from each other and counts as one |
| Safety.ExplicitActionCount | internal/managed/safety.go:49-70 | The nested loops compute the count |
| Gate.TwoActionsAcceptedIff | internal/managed/validate_granite.go:20-72 | A text that names two actions, by markers not inside longer ones, is accepted for some tool call exactly when it has one good ID, no structure or negation marker, no markers but a restart's and a start's, and removing the restart markers leaves no later group's |
| Gate.TwoActionsPassIff | internal/managed/safety.go:31-41 | The same for a given action and VM: it passes only as a reboot of its only ID |
| Gate.OnlySplicedRestartsGetThrough | internal/managed/safety.go:49-70 | A supported text that counts once and holds another action's marker outside its own longest match is a reboot beside a start, and removing the long restart marker forms a short one |
| Gate.SupportedCountIff | internal/managed/safety.go:49-70 | The count lets a supported text pass exactly when removing the action's own group leaves no marker of a later group; it never stops a query |
| Gate.RebootCountsOnceIff | internal/managed/safety.go:52-66 | A supported reboot counts once exactly when removing both restart markers leaves no shutdown and no start marker |
| Gate.PassesIff | internal/managed/safety.go:17-47 | Exactly when a text gets past both checks as an action on a VM, by the text alone |
| Gate.OnlyThePassingCall | internal/managed/validate_granite.go:20-72 | A tool call that is accepted for a text is the one call that the text passes as |
| Gate.ForeignMarkersAreTwo | internal/managed/tools.go:25-31 | A supported text holds a marker of another action only as one of two short markers in one of two long ones |
| Gate.SplicedRestartIsAccepted | internal/managed/safety.go:58-66 | For every VM a text that names a restart and, apart from it, a start, and is accepted as a reboot |
| Gate.UncountedActionIsRefused | internal/managed/safety.go:52-57 | For every VM a text that names a shutdown and a restart and counts once; every tool call for it is refused |
| Gate.NegativeIdIsAccepted | internal/managed/safety.go:12-46 | A query of a negative ID is accepted as a query of its absolute value, for every VM |
| Text.RemoveAllKeepsApart | internal/managed/safety.go:61 | An occurrence apart from every occurrence of the removed marker survives its removal |
| Decimal.RunsAreTheMaximalRuns | internal/managed/safety.go:12-19 | The left-to-right scan finds exactly the maximal digit runs |
| Decimal.FormatRoundTrip | internal/managed/service.go:80 | Printing then parsing gives the number back |
| Text.TrimIsIdempotent | internal/managed/safety.go:18 | Trimming a trimmed text changes nothing, so trimming in both places is harmless |
| Text.TrimCutsOnlySpace | internal/managed/safety.go:18 | Trimming cuts white space off both ends, all of it, and nothing else |
| Text.RemoveAllAtFirst | internal/managed/safety.go:61 | Removal takes the first occurrence and goes on with what follows it |
| Text.RemoveAllOfAbsentMarker | internal/managed/safety.go:60-61 | Removal of a marker that does not occur changes nothing |
| Text.RemoveAllIsSubsequence | internal/managed/safety.go:61 | Removal of a marker only drops characters |
| ChatInput.ExtractInput | internal/managed/input.go:21-63 | The step-by-step extraction computes text and warnings |
| ChatInput.FinalUserText | internal/managed/input.go:64-89 | The loop joins the parts, or gives none if one is not non-empty text |
| ChatInput.OnlyTheFinalMessageCounts | internal/managed/input.go:22-36 | The text is trimmed, within the limit, and a function of the last message alone |
| ChatInput.JoinIsConcatenation | internal/managed/input.go:81-88 | Joining goes over lists of parts put together |
| ChatInput.EveryPartIsInPlace | internal/managed/input.go:81-88 | Every part's text is in the joined text between the joined texts of the parts before and after it, with nothing else |
| ChatInput.ExtractIsExact | internal/managed/input.go:21-36 | Exactly when a text is taken, that it is the whole text of the last message, trimmed, and the error otherwise |
| ChatInput.WarningsAreExact | internal/managed/input.go:37-61 | A warning is given exactly when its part of the request is present |
| ChatInput.WarningsAreInOrder | internal/managed/input.go:37-61 | No warning is given twice, and they come in one fixed order |
| Infra.GetIsExact | internal/infracontrol/client.go:50-65 | Exactly when a GET gives a VM, and the code, status, class and gateway status of each failure |
| Infra.MutateIsExact | internal/infracontrol/client.go:66-81 | Exactly when a POST is accepted, and the code, status and class of each failure |
| Infra.OutcomesArePartitioned | internal/infracontrol/client.go:66-124 | Only a 202 is an acceptance and only a transport failure leaves the outcome unknown; which of them is a gateway timeout |
| ServiceInvariant.GetIsClassified | internal/managed/state.go:10-27 | After a GET the closure may post only if the VM is in the required state; otherwise it settles with the refusal or the failure |
| Uptime.PrintUptime | internal/render/vm.go:8-30 | The conditional appends compute the printed text |
| Uptime.PrintedText | internal/render/vm.go:8-30 | The printed text, quantity by quantity, for any days, hours, minutes and seconds |
| Uptime.PrintIsReadBack | internal/render/vm.go:8-30 | Reading the text gives the seconds below a minute and the whole minutes above |
| Uptime.PrintsAlikeIffSameMinute | internal/render/vm.go:8-30 | From a minute on two uptimes print alike exactly when they agree in minutes |
| Uptime.SecondsAreLostPastAMinute | internal/render/vm.go:12-28 | Nothing is lost exactly below a minute and on whole minutes |
| ProcessManager.StopWaitsForExit | internal/granite/process.go:84-96 | When a Stop call has returned, the child is dead and the channel closed, or the call that took the cancel function has not returned |
| ProcessManager.AllReturnedMeansExited | internal/granite/process.go:84-96 | When all Stop calls have returned the child is dead and the channel closed |
| ProcessManager.SingleStopWaits | cmd/granite-controller/main.go:72-73 | The only Stop call of a run takes the cancel function and returns after the exit |
| ProcessManager.LateStopReturnsAtOnce | internal/granite/process.go:87-94 | From any state one more Stop call returns without waiting exactly when another has taken the cancel function |
| ProcessManager.StopIsPermanent | internal/granite/process.go:85-86 | Stopping lasts for the rest of the run, and so does the loss of readiness once startup is over |
| ProcessManager.StopAfterStartIsUnready | internal/granite/process.go:84-86 | A Stop call that begins after startup finds readiness off from its second access on |
| ProcessManager.ReadinessReturnsIff | internal/granite/process.go:60-78 | Readiness that Stop has turned off can come back exactly while the startup loop runs |
| ProcessManager.ReadyAfterStop | internal/granite/process.go:72-86 | A run in which Stop has returned, the child is dead and the manager is ready |
| ProcessManager.KilledChildIsNoFailure | cmd/granite-controller/main.go:56-70 | After a successful startup an exit that Stop causes never reaches the failure path; the watcher takes it exactly when no Stop call has begun |
| ProcessManager.KilledChildFailsIff | cmd/granite-controller/main.go:56-70 | A killed child can lead to the failure path exactly when startup has not succeeded |
| ProcessManager.StopDuringStartupFails | internal/granite/process.go:61-64 | A run in which Stop, made during startup, leads to the failure path |
| ProcessManager.StopNeverHangs | internal/granite/process.go:91-94 | While a Stop call is open a step of a Stop call, of the killed child or of its reaper is enabled |
| ProcessManager.FurtherStepsAreBounded | internal/granite/process.go:84-96 | Without new Stop calls the further steps of any run are bounded by the work that remains |
| ProcessManager.RunKeepsInv | internal/granite/process.go:40-96 | In every reachable state the cancel function is held or exactly one Stop call has taken it; the flags, the reaper and the watcher agree |
| ProcessManager.Manager.Stop | internal/granite/process.go:84-96 | Its accesses in order are the machine's four steps; it waits exactly when the cancel function was still held |
| ProcessManager.Manager.Reap | internal/granite/process.go:49-55 | The error is recorded and then the channel closed, as the machine's two steps |
| ProcessManager.Manager.AwaitReady | internal/granite/process.go:60-78 | The startup loop over any events ends as the first that decides says, with the machine's one step |
| ProcessManager.ReadyIffProbeFirst | internal/granite/process.go:60-78 | Startup succeeds exactly when a probe does before an exit, the deadline or the context's end |

## Left out

- HTTP clients, handlers, authentication, request IDs, logging, configuration loading, Docker and the Python scripts: plumbing without a hard property.
- JSON decoding: message contents and tool-call arguments are given by their decode result.
- Wording, emoji and the SSE encoding: a response text is modelled by what it says.
- Panics inside the closure: `Do` has no recovery, so the closure is taken to return.
- Freshness of cached results: a result is replayed within the window even if another action has changed the VM since, so nothing is claimed.
- Cancellation of a leader's context: it reaches the model as an upstream answer the environment chooses.
- Text in bytes: substring search on code points agrees with search on bytes for valid UTF-8, which is not proved.
- A failed spawn of the child process, and a Stop call before the spawn: the manager's runs begin when the child has been spawned.
- ProcessManager.Manager.Stop: describes the call up to its wait for the channel, with no other access in between; the wait and the interleavings are the machine's.
- ProcessManager.Manager.AwaitReady: takes the channel as it is when the loop begins; that it is closed while the loop runs, or that Stop comes in between, is the machine's.
- ServiceCode.Deduplicated: describes an uninterrupted pass, and gives None where the code would block; the interleavings are the machine's.
- ServiceCode.Lead: describes the closure with no other caller's critical section before the leader's second one; the interleavings are the machine's.
- ServiceCode.Complete: describes a call into which no other caller's step falls; the interleavings are the machine's.
