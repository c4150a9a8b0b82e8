# DiceFrame adventure engine: a verified model

DiceFrame runs tabletop adventures on a server. This project models the parts of it that must hold over whole runs, and
proves what they are for:

- **Adventure graphs** (`GraphModel`, `GraphValidation`, `GraphRecords`, `GraphDefaults`, `GraphTraversal`,
  `GraphProjection`, `Gates`). An arbitrary JSON-like record is validated into a well-formed graph; a bounded search
  computes what is reachable; a projection cuts the graph down to what players may see.
- **Running a graph** (`Progress`, `ProgressRuns`, `ProgressGates`, `ProgressRepeats`, `ProgressHistory`,
  `HistoryOverflow`). A progress record is changed in place by node completions under gates and exclusive choices, by
  objectives and milestones, by players' requests and by changes of the world. All runs of it are studied: what they
  reach, how often they complete a node, how they end, what their history keeps.
- **Two front ends** (`StoryDraft`, `StoryText`, `StoryRuns`, `ScriptImport`, `ScriptGraph`, `ScriptText`). A
  run-story plan and a Markdown script are compiled to graphs; the compiled graphs are related to the runs and to the
  text they came from.
- **Packages** (`PackageGraph`, `PackageRecords`, `Locales`, `Sources`). The version 1 step graph with its
  grow-until-stable search, the locale overlays, and resolving a package among several sources.
- **Rendezvous** (`Rendezvous`). The host-star signalling room, whose handlers are suspended between a check and the
  update that follows it.
- **Round settlement** (`Characters`, `Combat`, `CombatReports`, `DeathSaves`, `Economy`, `EconomyQuotes`). Attacks
  and death saves cached so that a round can be retried, and purchase planning that must not turn a bad quote into
  free goods.
- **Application actions** (`ActionRegistry`). Ownership of actions between manual registration and changing sources.

Each operation that the program performs step by step is a method, with the program's loops and early exits, proved to
do exactly what a specification function says; the theorems are about those functions and about all runs of them.
`Values` holds the JSON-like values (`str()`, `strip()`, truthiness, Python equality, the identifier grammars) and
sequence lemmas; `Reachability` is the definition of graph reachability that both searches, the views and the runs are
measured against.

To check the project, run `dafny verify dfyconfig.toml` with Dafny 4.11.

## Where the code and its documentation differ

The model follows the code. In each case the theorem says exactly when the documented behaviour holds.

- *Missing evidence never opens a gate* (gates.py). It opens a fact gate, or a status gate on a record without a
  status, that expects no value or null, and an objective gate that expects "active" of an objective nobody declares:
  `Gates.MissingEvidenceOpensIff`, and along every run of a graph `ProgressRuns.MissingEvidenceAlongRuns`. A package
  gate of each kind, accepted by the validator, is an example.
- *History keeps the last hundred events* (progress.py). A world advance appends without trimming: the window survives
  it exactly if it has room (`ProgressHistory.AdvanceWindow`), and survives a run exactly if every advance on the way
  has (`ProgressHistory.AlwaysWindowedIff`). `HistoryOverflow.AdvanceOverflows` is a run from a new record that ends
  with 101 events, and `ProgressHistory.HistoryIsBounded` says how far it can go.
- *A node is completed once.* The validator accepts a start list that repeats a node, and a run completes the node twice
  exactly if it does not end the adventure and can be completed at all: `ProgressRepeats.CompletedTwiceIff`,
  `ProgressRepeats.NodesCompleteOnceIff`, and the run `ProgressRepeats.SceneCompletedTwice`.
- *A departed peer's edges are cleared* (e2e_fake_hub.py). A completion report that resumes after its target has left or
  reconnected is still recorded: `Rendezvous.ReportsStayCurrentIff`, and a run in which such a report finishes the room.
- *A record's damage is the loss of hit points* (audit_combat_campaigns.py). Not for a blow that lands on somebody
  with no hit points left, nor for a sheet that holds more than its maximum: `CombatReports.BlowIsReportedIff` for one
  blow, `CombatReports.ReportsAddUpIff`, `CombatReports.BoundedReportsAddUpIff` and `CombatReports.RoundAudit` for a
  round, and the examples `CombatReports.FallenReportDoesNotAddUp` and `CombatReports.TrimmedReportDoesNotAddUp`.
- *A retried round tells the same story.* It leaves out the attacks of anyone felled after attacking:
  `Combat.SameStoryIff`, `Combat.RetryForgetsTheFelled`.
- *A death save is replayed after a rollback* (death_save_tracker.py). The counters "before" the roll are copied after
  they were changed in place, and the player snapshot does not contain them: `DeathSaves.RestoredSheetsReplayIff` with
  `DeathSaves.RestoredSheetLosesSuccess`, `DeathSaves.SnapshotReplayIff` with `DeathSaves.SnapshotUndoesDeath`.
- *Refreshing settles every source of actions* (application_actions.py). An exception other than the three it catches
  ends the loop: `ActionRegistry.RefreshSettlesEverySourceIff`,
  `ActionRegistry.RefreshSettlesEverySourceUnlessOneEscapes`, and the run `ActionRegistry.EscapeLeavesOldActions`.
- *A bad quantity is an error of its own* (economy_planner.py). An infinite one raises an exception that nothing there
  catches: `Economy.PurchasesAreNotLost` says when the planner returns, and `Economy.EndlessQuantityLosesThePlan` is a
  batch that loses a good purchase. Two mentions of one purchase are two offers: `Economy.OfferedOncePerMention`, and
  the batch `Economy.MentionedTwiceOfferedTwice`.
- *Synchronising plugin sources keeps sources distinct* (registry.py). The method checks nothing:
  `Sources.SyncKeepsInvIff`, `Sources.SyncTakesTwins`. Its one caller is safe (`Sources.PluginTableKeepsInv`), since
  it passes plugin sources named by the keys of a table.

## How the model states things

- How `str()` renders a value that is not a string is the parameter `show`; dictionary keys are the datatype `Key`.
- World reads and rule adapters are pure functions in `Gates.World`; a player's membership and control check is the flag
  `admitted`; the engine's "sorted order" of completed nodes is any listing of exactly those nodes.
- Dice, clocks, hashes, case folding, localised labels and recognised lines of text are parameters.
- `log` in `Progress.State`, the counters in `Rendezvous.State` and `manual` in `ActionRegistry.State` only observe; no
  branch depends on them.

## Model

| member | source | states |
|---|---|---|
| Reachability.ReachIsLeast | src/adventures/graph_v2.py:457-479 | reachability along walks is the least set that holds the starts and is closed under the edges, the reference for both searches |
| Gates.GatesRoundTrip | src/adventures/gates.py:59-107 | every list of gates that validation can return validates again to itself |
| Gates.OpenIffAllMet | src/adventures/gates.py:110-169 | a list of conditions is open if and only if every one of them, by index, is met by what the world knows and the goals reached so far, kind by kind |
| Values.EqualValues | src/adventures/gates.py:119-131 | values are equal as in Python: texts and null to themselves, numbers and truth values by number, lists and records part by part |
| Gates.MissingEvidenceOpensIff | src/adventures/gates.py:110-169 | a gate about something unknown, be it a fact, a record, a record's status, a goal nobody declares, a score or an adapter's answer, opens exactly if it is a fact gate or a gate on a missing status that expects null, or an objective gate that expects "active" |
| ProgressRuns.MissingEvidenceAlongRuns | src/adventures/gates.py:110-169 | the same at every point of every run of a graph |
| Gates.UnknownFactOpensGateWithoutValue | src/adventures/gates.py:59-169 | a valid package gate that opens in a world that knows nothing |
| Gates.StatuslessRecordOpensGate | src/adventures/gates.py:59-131 | a valid package gate on a record that has no status, open because it names no value |
| Gates.UndeclaredObjectiveOpensGate | src/adventures/gates.py:135-139 | a valid package gate on an objective nobody declares, open in every world |
| GraphValidation.ValidateTransitions | src/adventures/graph_v2.py:113-134 | reads a bounded list of transitions, stopping at the first bad one, exactly as specified |
| GraphValidation.ValidateOutcomes | src/adventures/graph_v2.py:86-110 | reads a bounded list of outcomes exactly as specified |
| GraphValidation.OutcomeRoundTrip | src/adventures/outcomes.py:43-77 | every outcome that validation can return validates again to itself |
| GraphValidation.ValidateNode | src/adventures/graph_v2.py:251-340 | accepts a node record exactly if it reads as a node in order, and returns that node |
| GraphValidation.ValidateNodes | src/adventures/graph_v2.py:250-341 | accepts a node list exactly if all nodes read, are distinct and within bounds |
| GraphValidation.ValidateChapters | src/adventures/graph_v2.py:234-248 | accepts a chapter list exactly if all read, are distinct and within bounds |
| GraphValidation.ValidateStarts | src/adventures/graph_v2.py:342-351 | accepts a start list exactly if it is non-empty, bounded and names nodes |
| GraphValidation.CheckTargets | src/adventures/graph_v2.py:353-359 | true exactly if every transition leads to a node |
| GraphValidation.CheckChoices | src/adventures/graph_v2.py:313-316 | true exactly if the choices of an exclusive node have distinct identities |
| GraphValidation.ValidateGoals | src/adventures/graph_v2.py:361-419 | accepts objectives or milestones exactly if all read, are distinct and point at nodes a viewer of theirs may see |
| GraphValidation.ValidateGraph | src/adventures/graph_v2.py:203-434 | the whole validator returns a graph exactly if the record reads as a well-formed one |
| GraphValidation.WellFormedIsFixed | src/adventures/graph_v2.py:203-434 | the record of a well-formed graph validates to the same graph |
| GraphValidation.ValidatorNormalForm | src/adventures/graph_v2.py:203-434 | the graphs the validator can return are exactly the well-formed ones, and validating its output again changes nothing |
| GraphRecords.AcceptedIff | src/adventures/graph_v2.py:203-434 | a raw record is accepted, as this graph, if and only if the graph is well formed and is what the record holds: known fields only, each of the right type and with the two visibilities only, absent fields standing for their defaults |
| GraphDefaults.DefaultsMayBeOmitted | src/adventures/graph_v2.py:203-434 | a record and the same record with any of its defaults written out, at any depth, validate to the same graph or are both refused |
| Values.StripIff | src/adventures/graph_v2.py:65-69 | stripping takes off the white space at both ends, all of it, and nothing else |
| GraphTraversal.ReachableNodes | src/adventures/graph_v2.py:457-479 | for any cap the result is reachable and has as many nodes as the cap allows; the search ends |
| GraphTraversal.ReachableInGraph | src/adventures/graph_v2.py:50-56 | on a validated graph the default cap never cuts the search: the result is the reachable set |
| GraphProjection.RedactIsFromView | src/adventures/graph_v2.py:505-602 | the redacted graph can be rebuilt from the player view alone |
| GraphProjection.RedactionInvisible | src/adventures/graph_v2.py:505-602 | deleting every secret leaves the player view unchanged |
| GraphProjection.SameViewIffSameRedaction | src/adventures/graph_v2.py:505-602 | two graphs look the same to players if and only if they agree once every secret is deleted |
| GraphProjection.SecretEditInvisible | src/adventures/graph_v2.py:505-602 | adding, dropping or rewriting a hidden node, adding or dropping an edge of or to one, a hidden chapter, goal or start, and changing any gate, outcome, reference or the world seed is invisible |
| GraphProjection.SecretsDoNotInterfere | src/adventures/graph_v2.py:505-602 | so is any series of such edits, which can replace any hidden record by others |
| GraphProjection.PlayersSeeThePublic | src/adventures/graph_v2.py:505-602 | players see exactly the public chapters, goals and starts, and every public node in order, with its whole public face, its chapter, and its transitions to public nodes |
| GraphProjection.GmViewLosesNothing | src/adventures/graph_v2.py:505-602 | the game master's view determines every field of every record |
| GraphProjection.ViewsAreClosed | src/adventures/graph_v2.py:505-602 | whatever a view mentions, targets, chapters, goals' nodes and starts, is in the view |
| GraphProjection.ViewReachability | src/adventures/graph_v2.py:505-602 | nothing is reachable in a view that is not reachable in the graph |
| Progress.Record.constructor | src/adventures/progress.py:42-54 | a new record has the start nodes active and nothing else |
| Progress.Record.AppendHistory | src/adventures/progress.py:64-68 | appends an event and keeps the last hundred |
| Progress.Record.CompleteNode | src/adventures/progress.py:94-169 | completing a node in place does what the specification says, and a refusal changes nothing |
| Progress.Record.CompleteObjective | src/adventures/progress.py:172-190 | the same for objectives |
| Progress.Record.CompleteMilestone | src/adventures/progress.py:193-211 | the same for milestones |
| Progress.Record.RequestChoice | src/webui/services/adventure_runtime.py:316-358 | the same for a player's advisory request |
| Progress.Record.AdvanceWorld | src/webui/services/adventure_runtime.py:361-431 | the same for looking at the gates of completed nodes again |
| ProgressRuns.EveryRunIsSound | src/adventures/progress.py:75-169 | along every run each mentioned node is reachable, completed nodes are distinct, and the saved-choice check never rejects a record the engine produced |
| ProgressRuns.CompletesIff | src/adventures/progress.py:94-134 | along every run a completion is refused only because the adventure ended, the node is not active or the choice is not open |
| ProgressRuns.CompletionMeasure | src/adventures/progress.py:136-169 | a completion that does not end the adventure lowers the count of active and untouched nodes by exactly one |
| ProgressRuns.RunsAreFinite | src/adventures/progress.py:94-169 | a run completes at most one node per node, plus one per repeated start |
| ProgressRuns.ExclusiveCompletionIsSound | src/adventures/progress.py:120-169 | an exclusive completion records its choice, leaves the chosen target active or completed and opens nothing else; the second look at the gates agrees with the first |
| ProgressRuns.EndingsAbsorb | src/adventures/progress.py:111-151 | after an ending nothing is active, requested or completed again over any continuation |
| ProgressGates.CompletionOpensWhatIsMet | src/adventures/progress.py:120-169 | each node a completion opens is the target of a transition it follows every condition of which is met, and every such transition leads to a node that is then active or completed |
| ProgressGates.AdvanceOpensWhatIsMet | src/webui/services/adventure_runtime.py:361-431 | the same for a world advance, over the transitions of completed nodes and the choices on record |
| ProgressGates.EveryNodeWasLetIn | src/adventures/progress.py:75-169 | along every run each active or completed node is a start node or was let in at some step by a transition every condition of which was met at that step |
| ProgressGates.RequestAcceptedIff | src/webui/services/adventure_runtime.py:316-358 | along every run a request is accepted if and only if the actor may act, the node is active, the player is shown the choice, every condition of it is met and there is room |
| ProgressGates.RequestsAfter | src/webui/services/adventure_runtime.py:316-358 | a request takes the place of the actor's earlier one for the node, a completion drops those for an exclusive node, an ending drops all, and nothing else touches them |
| ProgressHistory.CompletionIsTold | src/adventures/progress.py:136-169 | a completion is told as the node, its choice, and then the ending or the nodes it opens |
| ProgressHistory.OtherStepsAreTold | src/adventures/progress.py:172-211 | goals and world advances tell exactly what they add, and a refused step nothing |
| ProgressRuns.ListedOnceIffStartsDistinct | src/adventures/graph_v2.py:342-351 | along every run the record lists no node twice, as active or completed, if and only if the start list repeats nothing |
| ProgressRepeats.CompletedTwiceIff | src/adventures/progress.py:94-169 | some run completes a node twice if and only if the start list repeats it, it is no ending, and it asks for no choice or has one that can open |
| ProgressRepeats.NodesCompleteOnceIff | src/adventures/graph_v2.py:342-351 | every run completes each node at most once if and only if no node is like that |
| ProgressRepeats.SceneCompletedTwice | src/adventures/progress.py:94-169 | a run from a new record that completes one scene twice, on a graph the validator accepts |
| ProgressHistory.CompletionWindows | src/adventures/progress.py:64-68 | after every completion the history is the last hundred events of the full trace |
| ProgressHistory.AdvanceWindow | src/webui/services/adventure_runtime.py:415-431 | whatever tail the record holds, after a world advance it holds the window if and only if there was room for the nodes that the world then opens behind the completed ones |
| ProgressHistory.AlwaysWindowedIff | src/webui/services/adventure_runtime.py:361-431 | along a run from a new record the history is the last hundred events after every step if and only if every advance on the way has that room |
| ProgressHistory.HistoryIsATail | src/adventures/progress.py:64-68 | along every run the history is a tail of the trace, and without world advances exactly the last hundred events |
| ProgressHistory.HistoryIsBounded | src/webui/services/adventure_runtime.py:361-431 | along every run, world advances included, the history holds at most a hundred events and one for each node |
| HistoryOverflow.AdvanceOverflows | src/webui/services/adventure_runtime.py:415-431 | a run from a new record, on a graph the validator accepts, after which the history holds 101 events |
| ProgressRuns.QuietRunCoversGraph | src/adventures/progress.py:94-169 | a run with nothing left active has completed all that ungated, choice-free edges reach, and on a graph of such edges exactly what the traversal finds |
| StoryDraft.FromPlan | src/adventures/story_draft.py:10-38 | the compiler's loop drafts the specified record |
| StoryDraft.DraftValidates | src/adventures/story_draft.py:10-38 | the draft of every valid plan validates, to the plan's graph |
| StoryDraft.DraftHasPlanEdges | src/adventures/story_draft.py:13-38 | the drafted graph has exactly the plan's edges, ungated, under the renaming of scenes |
| StoryDraft.SceneIdInjective | src/adventures/story_draft.py:13-20 | generated scene, choice and objective identifiers never collide |
| StoryText.DraftTellsThePlan | src/adventures/story_draft.py:13-38 | the record holds theme, party goal and start, and for each scene its title, its objective, its successors, and a description that is prose, labelled exit and labelled hints in this order, a blank line between two, empty ones dropped and nothing else |
| StoryText.GraphTellsThePlan | src/adventures/story_draft.py:13-38 | so does the graph it validates to, node by node and goal by goal |
| StoryRuns.RunsFollowThePlan | src/adventures/story_draft.py:13-38 | every run of a draft keeps at most one node active and has completed, in order, a simple path of the plan from its start |
| StoryRuns.EveryPlanPathIsARun | src/adventures/story_draft.py:13-38 | every simple path of the plan from its start is what some run completes |
| ScriptImport.Reader.TakeLine | src/adventures/script_import.py:82-148 | the reader handles a line in place exactly as specified, errors included |
| ScriptImport.Reader.Finish | src/adventures/script_import.py:149-153 | the final loop links each scene without choices to the next scene |
| ScriptImport.ReadScript | src/adventures/script_import.py:82-157 | reading a whole script gives the specified draft or fails with it |
| ScriptImport.TakeAllKeepsOk | src/adventures/script_import.py:52-148 | after any lines: distinct identifiers, bounds, a chapter for every node, notes without choices, a current node that is a scene |
| ScriptText.NothingIsLost | src/adventures/script_import.py:52-150 | the draft has the script's title and chapters and holds exactly its scenes, each with its chapter, name, text, choices and the notes that follow it, in order, as a definition without identifiers, positions and limits gives them |
| ScriptText.GraphHoldsTheScript | src/adventures/script_import.py:149-157 | so does the graph: every node stands in its chapter and every note after its scene, with the white space around texts stripped |
| ScriptGraph.ParsedIsOk | src/adventures/script_import.py:52-157 | a script that can be read leaves a draft in order, with every link inside it |
| ScriptGraph.DraftAcceptedIff | src/adventures/script_import.py:133-164 | the validator accepts a draft if and only if each scene has at most sixteen choices, with readable captions, existing targets and identifiers that do not collide; it is then the script's graph |
| ScriptGraph.ScriptsWithoutChoicesValidate | src/adventures/script_import.py:82-164 | a script without choices always validates once it can be read |
| ScriptGraph.ScenesBeforeChoicesAreReachable | src/adventures/script_import.py:149-156 | every scene up to and including the first with choices is reachable |
| ScriptGraph.EveryScriptedSceneIsReachable | src/adventures/script_import.py:149-156 | without choices every scene is reachable |
| ScriptGraph.ScriptsCarryNoMechanics | src/adventures/script_import.py:59-74 | a draft has no gates, outcomes or references, its notes lead nowhere and players see none of it |
| PackageGraph.ReadTable | src/adventures/bundle.py:392-417 | reads a list of records into a table exactly if all read and identifiers are distinct |
| PackageGraph.CheckChapters | src/adventures/bundle.py:458-475 | true exactly if chapters list steps of their own, none twice, and every step is listed by the chapter it names |
| PackageGraph.CheckStep | src/adventures/bundle.py:477-496 | true exactly if the step's references exist and its choices are its own, none twice |
| PackageGraph.CheckChoice | src/adventures/bundle.py:497-505 | true exactly if the choice is listed by its source and leads to a step or nowhere |
| PackageGraph.FindSteps | src/adventures/bundle.py:510-519 | the grow-until-stable loop ends with exactly the steps reachable from the start |
| PackageGraph.ValidateSteps | src/adventures/bundle.py:377-522 | the checks together accept exactly the packages that meet the declared conditions |
| PackageGraph.AcceptedPackages | src/adventures/bundle.py:455-522 | in an accepted package every step is in exactly one chapter, every choice is offered by exactly one step, its source, and every step is reachable |
| PackageRecords.PackagesAreRead | src/adventures/bundle.py:385-505 | the tables, identifiers, listed steps and choices, sources, targets and start that the checks use are what the raw fields say |
| Locales.ActiveLocale | src/adventures/bundle.py:340-349 | the chosen locale is supported: the request if it is, otherwise the first of the same language, otherwise, if there is none, the default |
| Locales.Package.ApplyLocale | src/adventures/bundle.py:535-556 | applies an overlay in place exactly as specified |
| Locales.Package.Localize | src/adventures/bundle.py:258-265 | succeeds exactly if every file of every declared overlay applies to the records as they are; then every field is what the last file of the active overlay that gives it says, failing that the last one of the default overlay, failing that what it was |
| Locales.OverlayAppliesIff | src/adventures/bundle.py:535-556 | an overlay applies if and only if each of its files is sound, has a target and replaces only what may be replaced |
| Locales.PrecheckSuffices | src/adventures/bundle.py:258-265 | once every declared overlay has applied to a copy, loading under any declared locale cannot fail |
| Locales.ApplyingDependsOnRecords | src/adventures/bundle.py:535-556 | no overlay can make another one inapplicable |
| Locales.LoadingKeepsMechanics | src/adventures/bundle.py:152-160 | loading changes nothing outside the whitelisted fields, and the adventure validates to the same graph |
| Sources.Registry.Register | src/adventures/registry.py:70-76 | adds a source of a known kind with a new identity and refuses any other |
| Sources.SyncedLookup | src/adventures/registry.py:98-112 | after synchronising, plugin sources are found exactly as the new list has them, none of the old ones is left, and any other source is found as before |
| Sources.Registry.Resolve | src/adventures/registry.py:137-171 | finds a package in the named source, or wherever it is if that is one place only |
| Sources.UnqualifiedLookup | src/adventures/registry.py:160-171 | without a source a package is found if exactly one source has it, missing if none has, and a conflict that lists all of them if several have |
| Sources.SyncKeepsInvIff | src/adventures/registry.py:104-112 | synchronising keeps identities distinct if and only if the incoming sources are distinct among themselves and from those that stay |
| Sources.SyncTakesTwins | src/adventures/registry.py:104-112 | a list with two sources of one identity is taken as it is, and the second can no longer be found |
| Sources.PluginTableKeepsInv | src/webui/api.py:3227-3250 | for plugin sources named by the keys of a table, as its caller passes them, identities stay distinct |
| Sources.BindingsAreStable | src/adventures/resolver.py:75-128 | a binding finds the same package in the same source again among any sources with distinct identities that still hold it |
| Sources.BindingsTellSourcesApart | src/adventures/resolver.py:106-128 | bindings match if and only if package and source are the same |
| Sources.LookupsOnlyTurnIntoConflicts | src/adventures/registry.py:160-171 | when sources are added, an unqualified lookup keeps its answer or becomes a conflict that lists the old source; it keeps it exactly if no new source has the package |
| Rendezvous.Room.Register | scripts/e2e_fake_hub.py:187-203 | admits a known, unconnected peer to an open room and nobody else |
| Rendezvous.Room.BeginRelay | scripts/e2e_fake_hub.py:257-272 | the checks before a message is sent |
| Rendezvous.Room.FinishRelay | scripts/e2e_fake_hub.py:285-293 | the update after it was sent: records a completion report and finishes the room on the last one |
| Rendezvous.Room.Leave | scripts/e2e_fake_hub.py:240-254 | removes a peer at any moment and, while the room is open, every edge of it |
| Rendezvous.NextKeepsInv | scripts/e2e_fake_hub.py:187-293 | every uninterrupted stretch of a handler keeps the room's invariant |
| Rendezvous.SocketChanges | scripts/e2e_fake_hub.py:187-254 | a peer gets in only by registering a known token with an open, unexpired room, and out only by leaving |
| Rendezvous.RelayChanges | scripts/e2e_fake_hub.py:257-293 | relays start only between connected neighbours, with offers from the host and answers from guests |
| Rendezvous.EdgeChanges | scripts/e2e_fake_hub.py:240-293 | edges are recorded only by completion reports and dropped only with a departed end of an open room |
| Rendezvous.EveryRunIsSound | scripts/e2e_fake_hub.py:187-293 | over every interleaving recorded edges join host and guest with their senders connected while the room is open; a finished room stays finished with every edge and admits nobody |
| Rendezvous.FinishesExactlyWhenComplete | scripts/e2e_fake_hub.py:285-293 | a step finishes the room if and only if it records the last missing edge, and then every peer is connected |
| Rendezvous.ReportsStayCurrentIff | scripts/e2e_fake_hub.py:240-293 | recorded reports stay between present connections at every step except a report whose target has moved |
| Rendezvous.StaleReportFinishesRoom | scripts/e2e_fake_hub.py:240-293 | a run in which such a report finishes the room |
| Characters.BlowsKillAtThreeFailures | src/engine/character_utils.py:351-372 | any series of blows on somebody unconscious kills exactly when the failures they count for reach three, and changes nothing else before |
| Combat.AuthoritativeCheck | src/commands/combat_resolver.py:28-71 | finds a check if and only if exactly one answers the action's attack request and both name the same opponent |
| Combat.Instance.RecordResult | src/commands/combat_resolver.py:125-149 | appends a record unless its check is already recorded |
| Combat.Instance.Attack | src/engine/combat.py:164-172 | strikes the target in place and caches the outcome on the action, touching nothing else |
| Combat.Instance.ResolveCombat | src/commands/combat_resolver.py:151-279 | the loop settles the queue as specified and returns what is to be told, in order |
| Combat.SettleFollows | src/commands/combat_resolver.py:156-279 | settling an action never makes anyone able to act again, keeps all other actions and only adds records |
| Combat.BlowsFellIff | src/engine/character_utils.py:312-372 | a blow fells exactly a player left without hit points under death-save rules, who then starts a fresh count; somebody unconscious counts one failure or two exactly if a successful blow did damage |
| Combat.RetryIsHarmless | src/commands/combat_resolver.py:192-278 | retrying a settled round, with any dice, rules and surviving records, changes no hit points and no cache; it tells again exactly the attacks whose attackers can still act |
| Combat.SecondResolutionIsIdle | src/commands/combat_resolver.py:125-149 | with its records kept, a second resolution leaves the whole instance as it was |
| Combat.SameStoryIff | src/commands/combat_resolver.py:156-161 | the retry tells the same story if and only if every attacker told about can still act |
| Combat.RetryForgetsTheFelled | src/commands/combat_resolver.py:156-161 | a duel whose retry drops the first attack |
| CombatReports.BlowTakes | src/engine/combat.py:164-322 | the hit points a blow leaves and the damage it reports, for any sheet, check and amount |
| CombatReports.BlowIsReportedIff | src/engine/combat.py:164-322 | for any sheet, the reported damage is the loss of hit points if and only if the blow does none, or the target had hit points left and its maximum does not cut what remains |
| CombatReports.ReportsAddUpIff | scripts/audit_combat_campaigns.py:164-188 | for any sheets, a round's reports on a target add up to its loss of hit points if and only if they overstate as much as they trim, both reckoned from the target's sheet before each attack |
| CombatReports.BoundedReportsAddUpIff | scripts/audit_combat_campaigns.py:164-188 | for a target that starts within its maximum: if and only if no action damages it when it has no hit points left |
| CombatReports.FallenReportDoesNotAddUp | scripts/audit_combat_campaigns.py:164-188 | a round whose report on somebody fallen is three, and who loses nothing |
| CombatReports.TrimmedReportDoesNotAddUp | src/engine/combat.py:164-322 | a round whose report on somebody above their maximum is three, and who loses sixteen |
| CombatReports.SparedTargetsKeepSheets | src/commands/combat_resolver.py:151-279 | a target that no action strikes keeps its sheet |
| CombatReports.ReportsFormAChain | scripts/audit_combat_campaigns.py:164-182 | every report starts from the hit points the earlier ones on its target have left, and ends lower by its damage if and only if it does not strike somebody fallen |
| CombatReports.EverythingToldIsRecorded | src/commands/combat_resolver.py:125-149 | with a check of its own for each action, the new records are exactly what was told, in order |
| CombatReports.RoundAudit | scripts/audit_combat_campaigns.py:164-188 | the audit of a fresh round over its records: they follow the earlier ones and add up to every target's loss of hit points if and only if the blows on it overstate as much as they trim |
| CombatReports.OnlySuccessHurts | src/commands/combat_resolver.py:156-228 | hit points change only under the one successful check that answers an able attacker's action |
| DeathSaves.Character.ApplyDeathSave | src/engine/character_utils.py:382-414 | applies a roll to the sheet and changes its counters in place, where others that hold them see it |
| DeathSaves.Character.Settle | src/commands/death_save_tracker.py:25-69 | one character's turn: replay from the cache, skip, or roll and cache the counters as they are after the roll |
| DeathSaves.Table.ResolveRound | src/commands/death_save_tracker.py:16-69 | the loop gives every player the specified turn and changes no other round's cache |
| DeathSaves.SecondRunIsIdle | src/commands/death_save_tracker.py:25-53 | with the sheets kept, running the round again changes nothing, whatever the dice |
| DeathSaves.OneRollPerRound | src/commands/death_save_tracker.py:25-69 | over any number of runs, whatever happens to the sheets in between, a character's roll is never replaced |
| DeathSaves.RestoredSheetsReplayIff | src/commands/death_save_tracker.py:55-69 | with the sheets put back, the outcome is given again if and only if the roll woke the character or there were no counters before |
| DeathSaves.RestoredSheetLosesSuccess | src/commands/death_save_tracker.py:55-69 | a round after which the replay is refused and a success is gone |
| DeathSaves.SnapshotReplayIff | src/engine/round_snapshots.py:34-67 | with the sheets put back by the player snapshot, if and only if the character went on saving or there were no counters before |
| DeathSaves.SnapshotUndoesDeath | src/engine/round_snapshots.py:34-67 | a round after which the replay is refused and somebody dead is alive again |
| DeathSaves.RollDecides | src/engine/character_utils.py:382-414 | a twenty wakes with one hit point, a third failure kills before a third success stabilises, any other roll is only counted |
| DeathSaves.SavesTally | src/engine/character_utils.py:382-414 | over any series of rolls the counters are the tally of the rolls, and a character stops saving exactly at a twenty, a third success or a third failure |
| DeathSaves.FiveRollsDecide | src/engine/character_utils.py:382-414 | five rolls always decide |
| Economy.Plan.TakePurchase | src/commands/economy_planner.py:186-296 | the chain of checks makes an offer exactly if every condition of a charge holds, and a blocker otherwise |
| Economy.Plan.AppendUnpriced | src/commands/economy_planner.py:44-62 | adds a blocker unless one for the same payer, item and quantity is there |
| Economy.Plan.Normalize | src/commands/economy_planner.py:142-312 | the loop over the first eight actions plans as specified, or stops at a quantity that crashes it |
| Economy.Plan.Recover | src/commands/economy_planner.py:404-496 | recovery from the players' words does what is specified, in place |
| Economy.PurchasesAreNotLost | src/commands/economy_planner.py:142-312 | the planner returns exactly if no purchase it considers has an infinite quantity; then a purchase is offered exactly if some mention of it can be charged and blocked exactly if it was asked for and none can; so it is in exactly one list, and no blocker is repeated |
| Economy.EndlessQuantityLosesThePlan | src/commands/economy_planner.py:186-204 | a batch with one infinite quantity, of which nothing is planned |
| Economy.OfferedOncePerMention | src/commands/economy_planner.py:249-296 | no purchase is offered twice if and only if no two actions can be charged for the same one |
| Economy.MentionedTwiceOfferedTwice | src/commands/economy_planner.py:249-296 | a batch with one purchase twice, whose plan holds two equal offers |
| Economy.OffersAreSound | src/commands/economy_planner.py:249-296 | every offer is positive, within the maximum and the budget, split exactly by a deposit, and comes from a chargeable purchase |
| EconomyQuotes.PlanIsQuoted | src/commands/economy_planner.py:142-312 | the offers of a plan are, one for one and in order, what those of the first eight actions quote that meet every condition, with the quoted amount times the quantity for a unit price and the quoted amount for a total; everything else they ask for is blocked |
| EconomyQuotes.QuotesIff | src/commands/economy_planner.py:186-296 | an action is charged, with this offer, if and only if its own fields quote it |
| Economy.RecoveryOnlyBlocks | src/commands/economy_planner.py:404-496 | recovery keeps the offers, loses no purchase, keeps the lists apart, and afterwards every player whose words name an item pays for an offer or a blocker |
| Economy.RecoveryRepeatsNothing | src/commands/economy_planner.py:404-496 | recovery repeats no blocker if none was repeated before |
| Economy.PlanningFailsClosed | src/commands/economy_planner.py:142-496 | once planning returns, after both passes every purchase asked for is offered or blocked and never both, no blocker is repeated, and every offer is sound |
| ActionRegistry.Registry.Register | src/application_actions.py:112-116 | adds a valid action with a new name and refuses any other |
| ActionRegistry.Registry.Replace | src/application_actions.py:118-123 | replaces an existing action by a newer version and refuses anything else |
| ActionRegistry.Registry.RefreshSources | src/application_actions.py:137-158 | the loop refreshes the sources as specified, up to the first whose provider raises what it does not catch |
| ActionRegistry.RefreshIsAllOrNothing | src/application_actions.py:137-158 | one source's refresh, unless its provider escapes, installs exactly what it returned or leaves it with nothing and marked, and nobody else's action changes |
| ActionRegistry.RefreshSettlesWhatItReaches | src/application_actions.py:137-158 | a refresh, also one that ends early, keeps ownership in order and every action registered by hand; each source before the escaping one is in one of these two states, that one and all later ones keep what they had |
| ActionRegistry.RefreshSettlesEverySourceIff | src/application_actions.py:137-158 | after a refresh every source is settled if and only if those it did not get to were settled before |
| ActionRegistry.RefreshSettlesEverySourceUnlessOneEscapes | src/application_actions.py:137-158 | while no source is marked: if and only if no provider escapes |
| ActionRegistry.EscapeLeavesOldActions | src/application_actions.py:137-158 | a run from an empty registry in which the first provider escapes and both sources keep their old actions |
| ActionRegistry.UnregisteringKeepsInvIff | src/application_actions.py:125-126 | unregistering keeps ownership in order if and only if no source owns the name |
| ActionRegistry.EveryRunKeepsOwnership | src/application_actions.py:112-158 | along every run from an empty registry that leaves sources' names to the sources, refreshes that end early included, every action has exactly one owner |
| ActionRegistry.ReplacementIsNewer | src/application_actions.py:118-123 | a replacement is accepted if and only if the action is there in an older version, and changes nothing else |
| ActionRegistry.VersionsNeverFall | src/application_actions.py:112-158 | along every run that does not unregister it, an action registered by hand stays and its version never falls |

## Left out

- Files, HTTP, WebSockets, JSON parsing, hashing, packaging, logging and the frontend: plumbing around what is modelled.
- Saved progress records whose fields have the wrong types: the model's record is typed; the checks on choices are
  there.
- `next_candidates` and `outcomes_to_intents`: filters over what is modelled, with nothing beyond their bodies to state.
- How much damage a weapon does: dice, attributes, armour, faction and damage rules are one arbitrary number per attack.
- An action schema that cannot be deep-copied: it raises after the checks of a refresh, with part of the source's
  actions installed.
- Two actions of the queue that are the same object, and players without a character sheet: actions and sheets are
  separate values.
- Cached death saves with counters that are not two numbers: the counters are always a pair of integers.
- Amounts whose text makes the parser raise something else than a refusal, such as one of a million digits: an amount
  always parses or is refused.
- Text of messages, warnings and error codes: a refusal is a refusal; which error comes first is not modelled.
- Checks on encounter catalogs and scene entities of a version 1 package: field by field, they enter as the sets of
  known presets and references.
- Recognising script lines, purchase phrases, evidence and currency amounts: their results are inputs.
- Token secrecy, timeouts and expiry of a rendezvous room: an expired room is a flag of the step.
- The signalling messages themselves: who is told what does not influence the room's state.
- A package loader that fails because another package in the same source is broken: sources hold readable packages.
- Search, digests and descriptors of application actions: they only compute from the map of actions.
