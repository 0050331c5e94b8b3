# Verification of pidag

pidag runs a fixed graph of nodes: it expands fan-outs, validates the graph, dispatches each node to a
worker once the nodes it waits for are finished, keeps budgets, records what happens in a vault and
resumes from it.  This project models that core in Dafny and proves what it keeps over every run.

The parts, from the centre outwards:

- **The run loop** (`Loop`, `RunLoop`).  `Loop` is a transition system over the variables of the loop:
  states, counters, queue, running tasks, event log.  Which task finishes next, what it returns and
  what the budget gate answers are open, so a run is any interleaving.  `RunLoop` is the same loop as
  a class whose methods update its fields, each tied to a function of `Loop`.  `LoopInvariant`,
  `LoopFacts`, `LoopLog`, `LoopSteps`, `LoopSkip`, `LoopNotify` and `LoopRuns` hold the invariant and
  its preservation; `LoopTheorems`, `Denotation`, `LoopProgress` and `LoopTame` what follows: safety,
  stability, no lost wake-up, independence of the schedule, termination, agreement with the vault.
- **The premises** (`ShellRuns`, `Premises`).  `LoopInvariant.WellFormed` lists what the loop needs of
  a graph.  Three of its conditions are not checked by validation: that ids are unique, that a fix node
  depends on nothing but its source, and that a node in an `after` list has one dependency at most.
  Graphs that violate each are shown to be accepted.  For the latter two there is a run of shell
  commands on them that reaches a bad state, and a lemma that says exactly when the step in question
  does what it should.
- **Vault and resume** (`Events`, `Vault`, `Resume`, `Seed`, `ResumeSound`, `ResumeTheorems`,
  `RestartCounts`, `ResumeGap`, `FixGap`, `Lifecycle`).  The vault is a fold over the event stream; a
  crash is a prefix of it.  `StoredLog` and `RestartRecords` say what a restart decides and begins with
  from the stored events alone, `CounterOrder` which counters it finds.
- **What is handed out and told** (`Pieces`, `PromptMeaning`, `Announcements`, `Reports`).  Filled-in
  prompts, quorum results, event log and dispatch reports, described without the functions that compute
  them.
- **The graph** (`Graph`, `Cycle`, `TopoSort`, `Validate`, `FanOut`, `Expand`, `Unfolding`,
  `Indices`): cycle search, topological order, validation, and expansion as an unfolding.
  `ItemMeaning` says what the child of a fan-out is from its parent and item.
- **Templates, quorums, verdicts** (`Template`, `TemplateExpand`, `Quorum`, `Verdict`).
- **One dispatch** (`Budget`, `Ceilings`, `RetryLattice`, `Dispatch`, `Verification`,
  `DispatchMeaning`): the ledger of model calls, the lattice of models and attempts, the verification
  tree, and what all of it comes to in terms of the worker's replies.
- **Many dispatches** (`Workers`, `Spending`): next to each other they are one worker, whatever order
  they finish in and whatever the shared counters show them; and what all of them together, critics
  included, can spend beyond the ceiling is bounded.
- **Storage** (`KeyOrder`, `Store`, `NodeTable`): key layout and range scans of the ordered tables
  against the lists of the in-memory store.
- **The queue** (`Carousel`, `WeightedCarousel`), **the client pool** (`ClientPool`) and **the spec
  splitter** (`Markdown`, `Split`, `Annotate`, `Names`, `Ownership`, `Markers`, `TestTable`,
  `ChildSpec`, `ChildMeaning`, `RoundTrip`, `SplitTheorems`).

`Scheduler` puts the first groups together: `Execute` expands, validates and runs.

Where the source changes state step by step the model has methods and classes, proved against
functions on values; the theorems are lemmas about those functions.  What comes from outside (workers,
shell commands, the order of hash maps, which task finishes first) is a parameter or left open.

Where code and comments disagree, the model follows the code:

- A resume is meant to be the live loop with records filled in.  The blocked cascade does not release
  the nodes ordered after a blocked one (`src/scheduler/execute.rs:511-542`, with a graph and a crash in
  `ResumeGap.ResumeLosesWakeUp`), seeding a Done node releases its fix nodes as well (lines 408-416, with
  a graph and a crash in `FixGap.RestartRunsFix`), and nothing else goes wrong with the counters
  of a waiting node (`RestartCounts.RestartCountsIff`).  A seeded Done node is announced with empty output (lines 400-405,
  `Lifecycle.RestartErases`).
- The stored counters are meant to keep a breached ceiling breached after a restart
  (`src/sdd/resume.rs:194-198`).  They are those of the task joined last, not the latest, so a breach can
  be forgotten (`CounterOrder.CountersFallBehind`).
- A verify failure is reported as Failed but changes no record (`src/core/event.rs:457`), so a later
  report leaves it out (`Lifecycle.EndedRun`).
- Children of a fan-out fall back to their index on a collision, which can collide again
  (`src/core/dag.rs:495-510`, `FanOut.DistinctIffNoClash`, `FanOut.ClashingItems`).
- The parts a part waits for are recorded to make the children orderable (`src/split/mod.rs:322-328`),
  but there need not be an order (`Ownership.WaitInCircle`); there is one exactly if no ring of parts
  waits for itself (`Ownership.NoOrderIffRing`).
- Left-over carousel slots are described as one per still-pending project
  (`src/queue/execute.rs:70-71`) but go to the least served one each time (lines 138-166,
  `WeightedCarousel.Distribute`), which may be the same one again (`WeightedCarousel.LeftoversGoToOne`).
- `load_events_since` saturates at the greatest number (`src/store/redb_store.rs:578-626`,
  `Store.SinceIsFilter`).

## Model

| member | source | states |
|---|---|---|
| Scheduler.Execute | src/scheduler/execute.rs:255-274 | The whole entry point: a graph is run exactly when it expands and its expansion is valid; a refusal names a flaw that is there; with a gate that never refuses, and the premises validation leaves unchecked, the final states are the ones the expanded graph denotes, whatever the completion order. The state each task ends in is one worker's; the events it reports, budget counters among them, are open |
| Scheduler.ExecuteFresh | src/scheduler/execute.rs:311-1107 | A fresh run terminates, is a run of the transition system from an initial state, closes its log with the counts of Done and Failed nodes, and without refusals ends in the states the graph denotes; reported events, budget counters among them, are open |
| Scheduler.Conclude | src/scheduler/execute.rs:1055-1071 | The end of a run lists exactly the Failed nodes and announces how many are Done and how many Failed |
| Scheduler.ExecuteFrom | src/scheduler/execute.rs:371-1107 | On graphs without gates and `after` edges: a restart from a vault left by any number of crashes terminates, and without refusals has the same Done set and Failed set as the uninterrupted run, though its events, counters included, may differ |
| Denotation.ScheduleIndependence | src/scheduler/execute.rs:582-1053 | When the state a task ends in is a function of the dispatched node, every unrefused run, whatever events the tasks report, ends in one and the same map of states and outputs: the recursive denotation of the graph |
| Workers.StateIsBudgetFree | src/scheduler/execute.rs:1109-1383 | Two dispatches of one node next to whatever else spends from the budget end in one state, with the same attempt, model and verification failure, as long as no critic is refused a slot; only their events may differ |
| Workers.DispatchAsWorker | src/scheduler/execute.rs:1109-1383 | The dispatch of a node, model calls, retries and verification tree included, ends in the state that one function of the node gives |
| Workers.DispatchedIsFaithful | src/scheduler/execute.rs:692-707 | A run whose tasks hand back what dispatches come to is a run of that worker |
| Workers.CompletionOrderIsFree | src/scheduler/execute.rs:582-1053 | Two unrefused runs of such dispatches, in any two completion orders and with whatever values in the shared counters, end with the same states and outputs |
| Workers.ResultsAreOfWorker | src/scheduler/execute.rs:692-707 | Results that dispatches hand back are those of one worker, so what is proved of the entry points holds of them |
| Denotation.FinalsDenote | src/scheduler/execute.rs:889-1050 | The denotation meets the local equation of every node: failed source gives Blocked, passed gate source gives a skipped Done, everything released gives the worker's result, otherwise Pending |
| Denotation.StoppedRunIsPartial | src/scheduler/execute.rs:614-634 | A run the budget stops has a part of that result: no terminal record is wrong |
| Denotation.TerminalRecordIsFinal | src/scheduler/execute.rs:636-638 | In any reachable state a terminal record is already the final one, so a prompt filled in at dispatch reads final outputs only |
| Denotation.DenoteAgrees | src/core/dag.rs:247-319 | What a node ends as depends on the nodes it names in `depends_on` and `after` alone; the reference check is what makes that true of prompts |
| LoopTheorems.InitialOk | src/scheduler/execute.rs:328-366 | The invariant (counters equal counts over the graph, every record justified, log and records agree) holds of every start state |
| LoopTheorems.StepOk | src/scheduler/execute.rs:583-1052 | Every step keeps the invariant, across skip cascade and block step, and changes no terminal record |
| LoopTheorems.RunOk | src/scheduler/execute.rs:582-1053 | So does every run |
| LoopTheorems.DispatchSafety | src/scheduler/execute.rs:787-1050 | A spawned node has each dependency Done, or Failed where it is the gate source, and each `after` node terminal |
| LoopTheorems.TerminalIsFinal | src/scheduler/execute.rs:882-1050 | No continuation of a run changes a terminal record |
| LoopTheorems.PublishedOnce | src/scheduler/mod.rs:173-178 | Each terminal node is published to watchers once, and only terminal nodes are |
| LoopTheorems.NoLostWakeUp | src/scheduler/execute.rs:549-577 | When the loop exits unrefused, every Pending node has a Blocked or Pending dependency or a Pending `after` node |
| LoopTheorems.UnfinishedDescendsFromFailed | src/scheduler/execute.rs:1014-1036 | On an acyclic graph, every node left Pending or Blocked is joined by a chain of edges to a Failed one |
| LoopTheorems.NothingFailedEverythingDone | src/scheduler/execute.rs:993-1000 | If nothing failed, everything is Done |
| LoopTheorems.VaultAgreesWithReport | src/core/event.rs:268-463 | Folding the events of a fresh run gives each node the record of the report: absent iff Pending, Done, Blocked and Failed alike, Running iff its failure was a verify failure; a Done node's artifact is its output |
| LoopTheorems.PrefixIsNotAhead | src/scheduler/execute.rs:700-880 | After any prefix of the events, a terminal record is one the scheduler has reached |
| LoopInvariant.ReleaseAfterCounts | src/scheduler/execute.rs:869-879 | Lowering one `after` counter settles one release owed to the node, and the node is queued exactly when both counters reach zero |
| LoopInvariant.ReleaseDepCounts | src/scheduler/execute.rs:995-1000 | The same for the dependency counter |
| LoopInvariant.MarkCounts | src/scheduler/execute.rs:785-811 | A terminal transition owes exactly the releases of the edges it satisfies |
| LoopProgress.SpawnedOnce | src/scheduler/execute.rs:562-577 | On any graph, in any run, no node is spawned twice |
| LoopProgress.RunsAreBounded | src/scheduler/execute.rs:582-701 | No run on n ids has more than 2n(n + 2) + n + 1 steps, refused turns that push the node back included |
| LoopProgress.PopProgress | src/scheduler/execute.rs:583-686 | A turn of the ready loop lowers the measure (unspawned nodes, running tasks, queue), refused or not |
| LoopProgress.JoinProgress | src/scheduler/execute.rs:692-1052 | So does a join, however far its cascades reach |
| LoopProgress.NoDeadlock | src/scheduler/execute.rs:688-701 | A run that has not exited can take a step as soon as a running task finishes |
| LoopTame.NeverSpawnedAgain | src/scheduler/execute.rs:584-594 | On any graph, a node terminal before it was spawned is never spawned |
| LoopTame.RunTame | src/scheduler/execute.rs:582-1053 | On any graph, a run spawns nodes that were pending only, loses no log entry and never makes a decided node pending again |
| Premises.BlockKeepsAfterCount | src/scheduler/execute.rs:1039-1048 | Blocking a node keeps the `after` counter of a waiting node exact if and only if the blocked node was not terminal yet or the counter was zero already |
| Premises.BlockIsStable | src/scheduler/execute.rs:1014-1027 | Blocking leaves every terminal record alone if and only if the node was not terminal yet or is Blocked already |
| Premises.GatePremiseNeeded | src/scheduler/execute.rs:897-992 | For any three distinct ids, the graph whose fix node has a second dependency has a run, of shell commands that one passes and one fails, that reaches a state in which the skipped fix node turns from Done to Blocked |
| Premises.GateGraphAccepted | src/core/dag.rs:166-241 | That graph is expanded to itself and valid, though it violates the premise |
| Premises.AfterPremiseNeeded | src/scheduler/execute.rs:1039-1048 | For any five distinct ids, the graph with a node of two dependencies in an `after` list has a run, of failing shell commands, in which a node is spawned before one of its `after` nodes is terminal |
| Premises.AfterGraphAccepted | src/core/dag.rs:166-241 | That graph is expanded to itself and valid, though it violates the premise |
| Premises.ClashIsAccepted | src/core/dag.rs:474-577 | A fan-out over two items, of which the first reads 1 and the second has no slug, is expanded into two nodes of one id, and the result is valid |
| ShellRuns.BareHands | src/scheduler/execute.rs:1153-1214 | What a shell node of these graphs hands back is Done or Failed as its command passes or not |
| RunLoop.RunLoop.constructor | src/scheduler/execute.rs:311-366 | The variables of a fresh run |
| RunLoop.RunLoop.InitReady | src/scheduler/execute.rs:549-563 | The first queue: every node nothing holds back, once, in some order |
| RunLoop.RunLoop.Enqueue | src/scheduler/execute.rs:567-577 | `try_enqueue`, tied to the transition system |
| RunLoop.RunLoop.RecordTerminal | src/scheduler/execute.rs:785-879 | A terminal transition: state, event, publication and releases, tied to the transition system |
| RunLoop.RunLoop.SkipFrom | src/scheduler/execute.rs:897-992 | The worklist loop of the skip cascade computes the recursive cascade |
| RunLoop.RunLoop.SkipNode | src/scheduler/execute.rs:909-988 | One turn of it: the node recorded Done unless terminal, its `after` nodes released, its dependents released or pushed |
| RunLoop.RunLoop.NotifyDependent | src/scheduler/execute.rs:890-1050 | What a finished node means for one dependent |
| RunLoop.RunLoop.NotifyDependents | src/scheduler/execute.rs:888-1051 | All dependents, in list order, repeats included |
| RunLoop.RunLoop.ReportDispatch | src/scheduler/execute.rs:709-783 | The events of one dispatch translated; a breach announced once a run |
| RunLoop.RunLoop.JoinTask | src/scheduler/execute.rs:692-1052 | A joined task is one step of the transition system |
| Announcements.EverythingIsLogged | src/scheduler/execute.rs:703-783 | Over a run the log gains every start, retry, change of model and counter update the joined tasks report, each once and in order, and one breach if a ceiling was tripped or the gate refused |
| Announcements.OutcomeIsLogged | src/scheduler/execute.rs:785-865 | When a task is joined its outcome is told: output and model, or the halves of a failed verification, or its error, never empty and cut behind 8192 characters |
| RunLoop.RunLoop.TakeReady | src/scheduler/execute.rs:583-686 | A turn of the ready loop is one step of it; a refused node stays at the front |
| RunLoop.RunLoop.DrainReady | src/scheduler/execute.rs:583-686 | The ready loop ends with an empty queue or a refusal, and is a run |
| RunLoop.RunLoop.Run | src/scheduler/execute.rs:582-1053 | The loops terminate in an exit state, by a run from the start state, without refusals if the gate never refuses |
| RunLoop.RunLoop.SeedFrom | src/scheduler/execute.rs:380-563 | The start from a checkpoint: the three sets in some order, the cascade, the first queue |
| RunLoop.RunLoop.CascadeBlocked | src/scheduler/execute.rs:511-542 | The blocked cascade over the nodes in file order |
| RunLoop.StepRan | src/scheduler/execute.rs:582-1053 | Extending a run by an enabled step gives a run, and lowers the measure |
| Indices.BuildDependencies | src/scheduler/execute.rs:328-345 | The in-degrees count the edges, repeats included, and the reverse index lists a node as often as it depends |
| Indices.BuildAfters | src/scheduler/execute.rs:347-366 | The same for `after`, where the last non-empty list of a repeated id counts |
| Dag.DependentsCount | src/scheduler/execute.rs:339-345 | With unique ids a node is listed under another exactly as often as it names it |
| Quorum.ComputeQuorum | src/scheduler/execute.rs:1838-1894 | The loop over the counted ids computes the quorum's state and summary |
| Quorum.QuorumThreshold | src/scheduler/execute.rs:1838-1894 | A quorum is Done if and only if a positive number of passes is asked for and at least as many counted positions pass |
| Quorum.ResultReads | src/scheduler/execute.rs:640-662 | The result depends on the counted outputs alone |
| PromptMeaning.RunningQuorum | src/scheduler/execute.rs:1838-1894 | In every reachable state a running quorum is a finished result, told first by how many pass: it ends Done if and only if a positive min_pass of the recorded outputs counted read PASS behind blanks and as a word |
| PromptMeaning.RunningPrompt | src/scheduler/execute.rs:636-686 | In every state of a run the task of any other node is the node with its prompt filled in: text is kept, and in the place of each placeholder stands the recorded output of its node, nothing if there is none, its last 32 * 1024 characters behind a note if it is longer |
| PromptMeaning.RunningOnePlaceholder | src/scheduler/execute.rs:1390-1452 | The same for one placeholder: what stands before and behind it is kept |
| PromptMeaning.RunningTemplate | src/scheduler/execute.rs:636-686 | The same for every prompt, by any stable template it is written from |
| PromptMeaning.TakenPrompt | src/scheduler/execute.rs:636-686 | So it is whenever the ready loop takes a node, in restarts and on any graph too |
| PromptMeaning.FilledFromFinished | src/core/dag.rs:247-319 | A prompt is filled from finished nodes only, and with what they end with: no continuation of the run changes an output that has been filled in |
| Verdict.ParseCriticVerdict | src/scheduler/execute.rs:1798-1826 | The two-token loop computes the verdict |
| Verdict.PassesOnlyOnLeadingPass | src/scheduler/execute.rs:1798-1826 | A reply passes if and only if, behind blanks, it reads PASS and then ends or goes on with a character that is neither letter nor digit |
| Verdict.ReasonRead | src/scheduler/execute.rs:1798-1826 | Behind PASS or FAIL and any blanks, dashes and colons, the rest of the reply is the reason |
| Verdict.NoToken | src/scheduler/execute.rs:1798-1826 | A reply that begins with neither fails, and is its own reason |
| Template.InterpolateOutputs | src/scheduler/execute.rs:1390-1451 | The dispatch-time scanner computes the rendering of the parsed prompt |
| Template.UnparseParse | src/scheduler/execute.rs:1390-1451 | Parsing a prompt loses nothing |
| Template.RenderReadsOnlyRefs | src/scheduler/execute.rs:1390-1451 | Rendering reads the outputs of the referenced ids alone |
| TemplateExpand.ExpandOutputRefs | src/core/dag.rs:664-704 | The rewriting scanner computes the expanded template, written out |
| TemplateExpand.ParseIsStable | src/core/dag.rs:664-704 | What the scanners see as text and as placeholder contents never forms a placeholder of its own |
| TemplateExpand.ParseUnparse | src/core/dag.rs:664-704 | A stable template, written out, is scanned back as itself: rewriting keeps the token split |
| TemplateExpand.ExpansionKeepsMeaning | src/core/dag.rs:664-704 | Interpolating the rewritten prompt is the authored prompt with every reference to a parent read as the concatenated, capped outputs of its children |
| Vault.FoldAppend | src/core/event.rs:268-463 | The projection of a stream is the projection of its parts, one after the other |
| Vault.RedbSink.Emit | src/core/event.rs:268-463 | One event projected: records, artifacts, run row, counters; a verify failure changes no record |
| Vault.RedbSink.EmitAll | src/core/event.rs:268-463 | A stream of events is the fold of the projection |
| CounterOrder.JoinedCounters | src/scheduler/execute.rs:759-771 | The counters stored last are those the task joined last reports, whatever was stored before |
| CounterOrder.CountersFallBehind | src/core/event.rs:425-442 | So they can be less than what has been spent: two calls breach a ceiling, their tasks are joined in the other order, and a restart under the same ceiling begins without a breach |
| Resume.LoadCheckpoint | src/sdd/resume.rs:81-211 | The loops over the vault rows give the decision (fresh, already done, resume) and the four sets, outputs and counters of the checkpoint |
| StoredLog.DecisionIsOfLog | src/sdd/resume.rs:81-211 | Told from the events that any number of runs stored: afresh if none was submitted, done if one ended without a breach, and otherwise resumed with exactly the nodes whose last event says Done, Failed, Blocked or Running, the last text of each, and the counters stored last, none if there are none; the report of a finished run likewise |
| RestartRecords.RestoredIs | src/scheduler/execute.rs:371-470 | After any number of runs a restart has every node whose last event ended it in that state, with the last text stored for it, which later prompts are filled with; the others are pending or blocked, without text |
| StoredLog.ReopenBudget | src/scheduler/execute.rs:45-82 | A restart begins with a breach if and only if the counters stored last exceed a ceiling |
| Resume.SortRow | src/sdd/resume.rs:153-192 | A row goes to the one set its status names, with its output |
| Seed.SeedCountsStep | src/scheduler/execute.rs:408-426 | Seeding one node from the checkpoint keeps the counters exact, for graphs without gates and `after` |
| Seed.CascadeForgetsAfter | src/scheduler/execute.rs:511-542 | The blocked cascade keeps a waiting node's `after` counter exact if and only if that node does not wait for the blocked one |
| RestartCounts.RestartCountsIff | src/scheduler/execute.rs:380-563 | On any graph with unique ids and from any vault: a restart leaves pending exactly the nodes neither recorded as ended nor blocked by the cascade, and such a node's counters are exact if and only if it is no fix node of something recorded Done and not ordered after something the cascade blocks, all read off graph and vault |
| RestartCounts.RestartIsExactIff | src/scheduler/execute.rs:380-563 | The counters of the whole start state are exact if and only if no waiting node is of either kind |
| RestartCounts.FixNodeIsReady | src/scheduler/execute.rs:408-426 | A fix node with a passed source and no record is in the first queue of every restart |
| RestartCounts.RestartExists | src/scheduler/execute.rs:380-563 | Every vault has a restart, so these statements are about something |
| FixGap.RestartRunsFix | src/scheduler/execute.rs:408-426 | For any two distinct ids: a first run that skips the fix node of a passed source, cut short between the two records, is restarted into a state that dispatches the fix node next |
| FixGap.FixGraphAccepted | src/core/dag.rs:166-241 | That graph is valid and meets every premise of the run loop |
| FixGap.FirstRunNeedsFailure | src/scheduler/execute.rs:889-992 | No first run of it, however it goes, runs the fix node unless the source has failed |
| ResumeGap.ResumeLosesWakeUp | src/scheduler/execute.rs:511-542 | For any three distinct ids: with x depending on a, and n ordered after x, a first run cut short between the failure of a and the block of x is restarted into a state that exits at once, unrefused, with n pending although x is terminal |
| ResumeGap.GapGraphAccepted | src/core/dag.rs:166-241 | That graph is valid and meets every premise of the run loop |
| ResumeGap.FirstRunWakes | src/scheduler/execute.rs:1014-1048 | No uninterrupted run of it, however it goes, exits unrefused with n pending |
| ResumeSound.ResumedIsSound | src/scheduler/execute.rs:371-577 | On graphs without gates and `after` edges: the start state of a restart meets the invariant of the run loop |
| ResumeTheorems.FirstRunPrefix | src/scheduler/execute.rs:700-880 | On graphs without gates and `after` edges: after any prefix of the first run's events the vault's Done and Failed records, with their artifacts, are those of the uninterrupted run |
| ResumeTheorems.CrashedIsTrue | src/sdd/resume.rs:81-211 | On graphs without gates and `after` edges: so they are after any number of crashes and restarts |
| ResumeTheorems.RerunIsSound | src/scheduler/execute.rs:371-577 | On graphs without gates and `after` edges: in every state of a restart the invariant holds and no node the vault holds as Done has been spawned |
| ResumeTheorems.ResumeEquivalence | src/scheduler/execute.rs:371-577 | On graphs without gates and `after` edges: crashing after any prefix, any number of times, and running on gives the Done set and the Failed set of the uninterrupted run, the same outputs after one crash, and dispatches no Done node again |
| Lifecycle.CutShort | src/sdd/resume.rs:86-101 | A run cut short is resumed, and starts afresh if and only if not one event was stored |
| Lifecycle.EndedRun | src/sdd/resume.rs:99-141 | An ended run is taken as done if and only if no breach was announced; its row keeps the announced counts, its report leaves out verify failures |
| Lifecycle.RestartErases | src/scheduler/execute.rs:400-405 | A restart keeps a Done record but its artifact if and only if that was empty |
| Cycle.HasCycle | src/core/dag.rs:321-333 | True if and only if `depends_on` and `after` together have a cycle |
| Cycle.CycleSearch.Dfs | src/core/dag.rs:335-369 | Found means there is a cycle; not found leaves the stack as it was and everything below the node finished |
| Cycle.CycleSearch.Explore | src/core/dag.rs:345-366 | The same for the targets of one edge list |
| Cycle.AcyclicIffRanked | src/core/dag.rs:321-369 | On closed graphs with unique ids, no cycle means a rank that falls along every edge, and conversely |
| TopoSort.TopoSort | src/core/dag.rs:372-423 | Ok if and only if ids are unique, every dependency exists and `depends_on` is acyclic; the result is then a permutation of the ids with dependencies first |
| Validate.ValidateDag | src/core/dag.rs:166-241 | Accepts exactly the valid graphs; an error describes a flaw of the first check that fails |
| Validate.ValidateOutputReferences | src/core/dag.rs:247-319 | Accepts exactly the prompts whose every placeholder names an output of a known node waited for |
| Validate.CheckQuorum | src/core/dag.rs:177-214 | Accepts exactly the quorums that count known nodes and can both pass and fail |
| Validate.QuorumIsOpenIff | src/core/dag.rs:196-212 | The bounds on min_pass are exactly those with which some outputs make the quorum pass and some make it fail |
| Validate.QuorumsAreOpen | src/core/dag.rs:196-212 | So in a validated graph no quorum is decided before its outputs are there |
| Validate.ColonsAreReserved | src/core/dag.rs:167-175 | In a validated graph no node goes by the name of a critic, and expansion reads from a gate the source the run loop reads |
| Validate.ValidatedIsWellFormed | src/core/dag.rs:166-241 | A validated expanded graph with the unchecked premises is one the run loop is proved for, and has a rank |
| Validate.ValidSorts | src/core/dag.rs:372-423 | A validated graph can be sorted if and only if its ids are unique |
| Validate.RepeatedIdsPass | src/core/dag.rs:177-190 | Validation accepts a graph that names one node twice |
| FanOut.DistinctIffNoClash | src/core/dag.rs:495-510 | The children of a fan-out have distinct ids if and only if no item falls back to a numbered id that an earlier slug has taken |
| FanOut.ClashingItems | src/core/dag.rs:495-510 | An input that clashes: the items 1 and the empty text get one id |
| FanOut.NoNumeralsNoClash | src/core/dag.rs:495-510 | In particular when no slug is the numeral of a later index |
| FanOut.ChildrenAreNamed | src/core/dag.rs:498-508 | Every child id is the parent id, a dash, and text without dot or closing brace |
| Expand.ExpandDag | src/core/dag.rs:474-577 | Expansion succeeds exactly when no fan-out is empty and no gate names a fan-out, and is then the three-pass transformation; an error names the offending node |
| Expand.FanOutAll | src/core/dag.rs:478-519 | Every fan-out replaced by its children, the other nodes kept; refused, with the node named, exactly if some fan-out is empty |
| Expand.ExpandNode | src/core/dag.rs:495-517 | The children of one fan-out, in item order |
| ItemMeaning.ChildPlace | src/core/dag.rs:495-519 | In the expanded graph a fan-out is replaced, in its place, by its children in item order: each has its id, and prompt, models, gate and every check of its parent with the item in the place of every item placeholder; all else but references is the parent's |
| ItemMeaning.PlainPlace | src/core/dag.rs:478-519 | Any other node stays in its place, and nothing but its references changes |
| ItemMeaning.ExpandedLength | src/core/dag.rs:478-519 | There is nothing else in the expanded graph |
| ItemMeaning.SubstituteFills | src/core/dag.rs:597-602 | Putting the item in means: the pieces between the placeholders are kept, and hold none |
| FanOut.SameSlugIff | src/core/dag.rs:583-595 | Two items have one slug if and only if they differ, place by place, in the case of letters or in what is neither letter nor digit only |
| FanOut.OwnSlugIff | src/core/dag.rs:583-595 | A slug is its own slug, and a text is its own slug exactly if it is small letters, digits and dashes |
| Expand.GateNames | src/core/dag.rs:530-560 | The node a gate refers to is what stands before the first colon |
| Expand.Relink | src/core/dag.rs:524-559 | The references of one node rewritten; refused exactly if its gate names a fan-out |
| Expand.WireQuorum | src/core/dag.rs:563-571 | The counted ids that are missing appended to `after` |
| Expand.ExpandRefList | src/core/dag.rs:646-656 | A parent replaced by its children, in place |
| Unfolding.ExpansionUnfolds | src/core/dag.rs:474-577 | u depends on v after expansion if and only if their origins did, u counts v exactly if their origins did, and likewise for `after` with the counted ids of a quorum added |
| Unfolding.CyclicIffOriginCyclic | src/core/dag.rs:474-577 | The expanded graph has a cycle if and only if the authored one has, quorum edges counted |
| Unfolding.ExpandedIsFlat | src/core/dag.rs:474-577 | An expanded graph has no fan-out, and every quorum waits for what it counts |
| Unfolding.ExpandingTwice | src/core/dag.rs:474-577 | A second expansion is accepted and changes nothing |
| Unfolding.ExpandedPromptMeans | src/core/dag.rs:664-704 | The prompt of an expanded node means the prompt of its origin, read over the children |
| Budget.BudgetInner.constructor | src/scheduler/execute.rs:45-56 | The counters of the checkpoint, checked at once |
| Budget.BudgetInner.RecheckOnInit | src/scheduler/execute.rs:58-82 | A resumed run over a ceiling is breached before anything is dispatched |
| Budget.BudgetInner.Reserve | src/scheduler/execute.rs:99-118 | Granted exactly when nothing is breached and the call ceiling is not reached; a refusal is recorded as the breach |
| Budget.BudgetInner.RecordFirstUsage | src/scheduler/execute.rs:124-130 | A dispatch's first call counts its tokens and no call |
| Budget.BudgetInner.RecordExtraCall | src/scheduler/execute.rs:139-146 | A later call counts both |
| Budget.BudgetInner.RecordUsage | src/scheduler/execute.rs:148-209 | Tokens added; the breach set by the first ceiling passed, and never changed |
| Budget.CallsAreSpent | src/scheduler/execute.rs:99-146 | Over any interleaving, the calls are the starting value plus, for each granted reservation, the greater of one and the outputs its worker returned |
| Budget.TokensAreCounted | src/scheduler/execute.rs:148-209 | Every reported token is counted once |
| Budget.NoBreachNoExcess | src/scheduler/execute.rs:58-209 | As long as no breach is recorded, neither ceiling is exceeded |
| Budget.BreachIsFinal | src/scheduler/execute.rs:99-118 | A breach never changes and nothing is granted any more |
| Budget.GrantsStop | src/scheduler/execute.rs:99-118 | The grants never take the starting value beyond the ceiling |
| Budget.RefusesNothingIff | src/scheduler/execute.rs:99-209 | A budget never refuses a reservation, whatever the dispatches do, if and only if it has neither ceiling |
| Ceilings.BreachedIff | src/scheduler/execute.rs:88-209 | Over any interleaving the budget is breached if and only if it was opened above a ceiling or some request found no room, told from the calls made and tokens reported so far: a slot at the call ceiling, tokens beyond theirs or unreported, a further call beyond the call ceiling |
| Ceilings.StepBreaches | src/scheduler/execute.rs:99-209 | One request: exactly when it is refused, trips a ceiling, or costs a call |
| Spending.HandedIsJob | src/scheduler/execute.rs:1109-1383 | What a dispatch asks of the budget is what its stretches of calls ask: its own calls, and a slot and the calls of each critic it runs |
| Reports.AnswersAreReported | src/scheduler/execute.rs:1292-1311 | The counters and ceilings a dispatch reports are the budget's answers to its calls and its critics' requests, each once and in order |
| Reports.CallsAreReported | src/scheduler/execute.rs:1216-1383 | What the calls of a node report: each answer to a recorded call; on each model every attempt with an output that another follows, as a wait where it asked for one; each change from one model tried to the next |
| Reports.CourseIsReported | src/scheduler/execute.rs:1109-1383 | The same for commands, which report every attempt with an output that another follows |
| Reports.CriticsAreReported | src/scheduler/execute.rs:1670-1786 | Every critic that is run is announced under the first model it may use, and nothing else is |
| Spending.StretchIsBounded | src/scheduler/execute.rs:1216-1383 | Under one granted reservation, of a node or a critic, at most eligible models times attempts calls are recorded |
| Spending.MoveKeeps | src/scheduler/execute.rs:99-209 | However dispatches and the ledger interleave, and whatever counters a dispatch reads afterwards, each step keeps every reservation within its node's cap and each dispatch alone with its reservation |
| Spending.OverrunIsBounded | src/scheduler/execute.rs:99-209 | Over every interleaving of any dispatches on one ledger, the counters they are shown being read at any time, the calls are at most the ceiling (or a higher starting value) plus, for every granted reservation, critics' included, its eligible models times its attempts, less one |
| Dispatch.VisitModel | src/scheduler/execute.rs:1229-1377 | The retry loop on one model makes exactly the calls the rules allow and reports them in order |
| Dispatch.TryModels | src/scheduler/execute.rs:1216-1383 | The loop over the models, paid ones skipped without permission, until a visit finishes |
| Dispatch.RunCommand | src/scheduler/execute.rs:1153-1214 | The retries of a shell node |
| RetryLattice.TraceUnique | src/scheduler/execute.rs:1216-1383 | Given the worker, exactly one course of calls obeys the rules, so calls increase strictly in model and attempt |
| RetryLattice.OnlyEligibleModels | src/scheduler/execute.rs:1229-1244 | No paid model without permission; no more attempts than the policy has |
| RetryLattice.VisitEnds | src/scheduler/execute.rs:1229-1383 | The attempts on one model end with the first reply that is accepted, with its validate text found in it, that times out, that asks to wait where no waiting is configured, or that uses up the attempts |
| RetryLattice.SleptIs | src/scheduler/execute.rs:1340-1365 | Replies that all ask to wait pause for the base times 2^n - 1 in all before attempt n + 1, and not behind the last |
| RetryLattice.DispatchIsBounded | src/scheduler/execute.rs:1216-1383 | A dispatch records at most eligible models times attempts outputs |
| RetryLattice.BackoffBound | src/scheduler/execute.rs:1346-1377 | The pauses on one model add up to at most backoff_ms times 2^(attempts - 1) - 1 |
| Verification.WorkedIsDone | src/scheduler/execute.rs:1229-1383 | Before verification a node is Done if and only if its last call succeeded and its `validate` text was found |
| DispatchMeaning.DoneText | src/scheduler/execute.rs:1318-1330 | If a dispatch ends Done its output is the text of the last reply of its course, the model that of the last one tried, and the attempts its replies |
| DispatchMeaning.FailedText | src/scheduler/execute.rs:1216-1383 | If its calls fail the output is the text of the last unsuccessful reply over all models, none if there was none; a deadline, a failed pre-check and a node without models have their own messages |
| DispatchMeaning.CheckedText | src/scheduler/execute.rs:1540-1588 | What verification is given is the text of the last reply and the token captured before the work |
| DispatchMeaning.RejectedText | src/scheduler/execute.rs:1540-1588 | From the output of a failed verification the worker's text and the reason read back, if the text holds no mark and nothing is cut |
| DispatchMeaning.StartIsTold | src/scheduler/execute.rs:663-707 | A dispatch is told under the first model listed, with the attempts made on the last one tried |
| Verification.CourseIsUnique | src/scheduler/execute.rs:1109-1383 | Given the worker, a dispatch has one course: a failed pre-check, the calls of its models, or the runs of its command |
| Verification.EvalCritic | src/scheduler/execute.rs:1670-1786 | A critic with no eligible model or no budget slot is blocked, with nothing dispatched; any other is a dispatch of its own, passing only if that is Done with a passing verdict; reason, events and budget questions are exactly those of that course |
| DispatchMeaning.CriticIsShown | src/scheduler/execute.rs:1720-1760 | Every call of a critic is made with its authored prompt in which its node's placeholders hold the output judged and all others nothing, on its eligible models in order, within the node's attempts, up to the first success |
| DispatchMeaning.CriticTemplate | src/scheduler/execute.rs:1720-1760 | The same for every prompt, by any stable template it is written from |
| DispatchMeaning.LeafPassesIff | src/scheduler/execute.rs:1597-1786 | A command passes exactly if the shell, given the token, has nothing to say; a critic exactly if it was run, its last call succeeded, and the reply reads PASS behind blanks and as a word |
| DispatchMeaning.CriticSays | src/scheduler/execute.rs:1760-1826 | A critic that answers FAIL gives as reason what stands behind it |
| Verification.EvalVerify | src/scheduler/execute.rs:1597-1660 | The leaves are evaluated from the left to the end or to the first that fails; the tree passes if and only if the end is reached; the reason is the way to the failing leaf and its own reason; events come from the evaluated leaves alone, in order |
| Verification.EvalArms | src/scheduler/execute.rs:1629-1657 | The same for the arms of one level; nothing behind the first failing arm is evaluated |
| Verification.ReasonLeads | src/scheduler/execute.rs:1629-1657 | A reason names the failing arm and its kind, counted from zero, on every level on the way to the leaf |
| Verification.EvaluationIsUnique | src/scheduler/execute.rs:1597-1660 | Given worker, shell and budget answers, a tree has one evaluation and one outcome |
| Verification.ApplyVerifyCheck | src/scheduler/execute.rs:1540-1588 | A failed tree turns a Done node into a Failed one with both halves in its output; a passed one changes nothing |
| Verification.DispatchNode | src/scheduler/execute.rs:1109-1383 | State, model, attempt, events and budget questions of a dispatch are exactly those of its course and of the leaves evaluated after it |
| Verification.DoneMeansVerified | src/scheduler/execute.rs:1109-1383 | A node is Done if and only if its calls ended Done and every leaf of its tree was evaluated and passed |
| Verification.DispatchIsDetermined | src/scheduler/execute.rs:1109-1383 | One worker, one shell and one sequence of budget answers give one result |
| KeyOrder.PrefixRange | src/store/redb_store.rs:388-425 | Between a run id with NUL and with 0x01 lie exactly the keys that continue it with NUL |
| KeyOrder.PaddedOrder | src/store/redb_store.rs:288-290 | For one width, the order of zero-padded numerals is that of the numbers |
| KeyOrder.ScanUnique | src/store/redb_store.rs:497-540 | A set of keys has one sorted enumeration |
| Store.RangeIsFilter | src/store/redb_store.rs:400-412 | The range scan is the prefix filter, whatever the keys |
| Store.OwnPrefix | src/store/redb_store.rs:400-412 | Run ids without NUL do not run into each other, whatever follows |
| Store.KeyOrderIsNumeric | src/store/redb_store.rs:288-290 | Key order within a run is numeric for every u64 |
| Store.ScanOfRun | src/store/redb_store.rs:578-626 | The scan of a run from a number on yields its keys from that number on, in order |
| Store.ParsePadded | src/store/redb_store.rs:520-530 | A stored number reads back |
| Store.SinceIsFilter | src/store/redb_store.rs:578-626 | The saturated lower bound is the filter `> since` if and only if there is a next number or no event has the last one |
| Store.RangeScan | src/store/redb_store.rs:400-412 | What a range iterator yields: the sorted enumeration of the keys in range |
| Store.RedbEvents.AppendEvent | src/store/redb_store.rs:268-298 | One row and one counter step: the run's list grows by the event, the others stay; when all 2^64 numbers are used the counter has wrapped and the run's first event is overwritten |
| Store.RedbEvents.LoadEvents | src/store/redb_store.rs:497-540 | The run's list, in order |
| Store.RedbEvents.LoadEventsSince | src/store/redb_store.rs:578-626 | The numbered list from the saturated next number on |
| Store.MockEvents.AppendEvent | src/store/mod.rs:393-406 | The same append on the in-memory store; when all numbers are used it adds a second event numbered 0 |
| Store.AppendBoth | src/store/redb_store.rs:268-298 | As long as a number is left, one append to both stores keeps both valid and their lists equal |
| Store.MockEvents.LoadEventsSince | src/store/mod.rs:426-443 | The numbered list behind the given number |
| Store.AppendedIsOfRun | src/store/mod.rs:393-406 | A run's list is its own part of the log |
| Store.Replay | src/store/redb_store.rs:444-495 | Both stores, fed the same appends of any mix of runs, hold the same lists |
| NodeTable.RedbNodes.PutNodeState | src/store/redb_store.rs:354-386 | The node's last record replaced, all others kept |
| NodeTable.RedbNodes.ListNodes | src/store/redb_store.rs:388-425 | Every record of the run, each once, though node ids may hold any character |
| NodeTable.RedbNodes.TerminalSet | src/store/redb_store.rs:427-442 | Exactly the nodes whose last record is Done, Failed or Blocked, with that status |
| NodeTable.MockNodes.PutNodeState | src/store/mod.rs:350-367 | The same on the in-memory list: the old record out, the new one at the end |
| NodeTable.ListingsAgree | src/store/mod.rs:369-377 | Two listings of a run are permutations of each other |
| NodeTable.TerminalSetIs | src/store/mod.rs:379-391 | The terminal rows of a listing are the terminal last records |
| NodeTable.ReplayPuts | src/store/redb_store.rs:354-386 | Both stores, fed the same writes, hold the last record of each node of each run |
| Carousel.CarouselInterleave | src/queue/execute.rs:23-34 | The draining loop yields the entries by row and then by project |
| Carousel.InterleavingIsComplete | src/queue/execute.rs:23-34 | That order holds every entry exactly once |
| Carousel.CarouselBounded | src/queue/execute.rs:39-53 | The bounded loop yields the first `batch` entries of it |
| Carousel.RoundRobinOrder | src/queue/execute.rs:172-193 | The labelled loop yields the same order; labels erased it is the plain one |
| Carousel.LabelsDoNotMatter | src/queue/execute.rs:172-193 | Labels do not change the order |
| Carousel.Fair | src/queue/execute.rs:23-53 | In every prefix two projects that both have entries left differ by at most one |
| WeightedCarousel.WeightedCarouselBounded | src/queue/execute.rs:72-169 | The length is min(batch, pending of positive-weight projects); with weights within 1e-9 of one it is the bounded plain order; otherwise the shares' blocks, each project's entries in order, then one slot at a time to a least served project |
| WeightedCarousel.WeightedSweep | src/queue/execute.rs:111-131 | One block a project, sized by its share, at least one, while slots last |
| WeightedCarousel.SweepGives | src/queue/execute.rs:111-131 | No project gets more than its share, or one slot, or than it has; and less than both only if the batch is full, and then later ones get none |
| WeightedCarousel.ActiveAre | src/queue/execute.rs:81-88 | The projects that take part are exactly those with a positive weight and pending entries, in order |
| WeightedCarousel.LeastServedIff | src/queue/execute.rs:139-162 | The project preferred is the one least by fraction served, then by weight, then by place |
| WeightedCarousel.PickLeastServed | src/queue/execute.rs:139-162 | A project with entries left whose served ratio none with entries left undercuts |
| WeightedCarousel.Distribute | src/queue/execute.rs:133-168 | The left-over slots go to least served projects until slots or entries run out |
| WeightedCarousel.LeftoversGoToOne | src/queue/execute.rs:70-168 | An input on which they are not dealt out one a project: of two projects of equal weight with 40 and 4 entries and 8 slots, the first gets both left-over slots while the second has entries left |
| WeightedCarousel.LengthIs | src/queue/execute.rs:72-169 | As many slots as entries are used exactly when every project is exhausted |
| ClientPool.PoolIsBounded | src/backend/pi.rs:144-228 | Over every interleaving of session steps, pooled clients plus clients held or being created stay within the concurrency, and no client is in two places |
| ClientPool.NoSharedContext | src/backend/pi.rs:144-188 | A prompt meets an empty conversation or the session's own: a reused client is reset before |
| ClientPool.KeptIff | src/backend/pi.rs:144-188 | A process in the pool or with a session stays in play until a step drops it, and a step drops it exactly if its session finds it dead, fails with it, had a prompt fail on it, or is abandoned |
| ClientPool.FailedIsGone | src/backend/pi.rs:144-188 | A process on which a prompt has failed is never pooled again nor given to another session, over every later interleaving |
| ClientPool.CountStep | src/backend/pi.rs:202-228 | Every step keeps the count |
| ClientPool.PlacesStep | src/backend/pi.rs:534-558 | Every step keeps each client in one place, and no foreign conversation with an open session |
| Markdown.ExtractSection | src/split/mod.rs:738-801 | The scanner returns the trimmed lines between the first visible heading line and the next visible level-1 or level-2 heading |
| Markdown.EveryFenceCloses | src/split/mod.rs:738-801 | However the fence markers stand, no fence is open at the end: a lone marker swallows nothing |
| Markdown.OneFence | src/split/mod.rs:738-825 | Two markers of one kind hide exactly themselves and the lines between them, whatever those look like |
| Markdown.LoneMarker | src/split/mod.rs:738-825 | In a file with one marker every line is seen, the marker too |
| Markdown.HeadingIff | src/split/mod.rs:699-735 | A line ends a section if and only if it begins with one or two number signs and a blank |
| Markdown.SectionLines | src/split/mod.rs:699-706 | Without fences a section holds lines of the file, and no level-1 or level-2 heading |
| Split.ParseExitCriteria | src/split/mod.rs:48-80 | The criteria are the texts of the boxes of the section, in order; an error says whether the section or the boxes are missing |
| Split.SplitIntoNPartsOrdered | src/split/mod.rs:250-288 | Refused exactly for no parts or more parts than criteria; otherwise the contiguous parts |
| Split.PartsCover | src/split/mod.rs:250-288 | The parts are the criteria in order, each once, none empty, sizes differing by at most one |
| Split.AutoSplitSizes | src/split/mod.rs:198-208 | When a spec is split automatically every part has 4 to 6 criteria |
| ChildSpec.GenerateChildSpec | src/split/mod.rs:516-692 | The builder, asking the heuristics as it goes, writes the sections of a child spec in their order, with the part's own artifacts, the other parts', the parts it waits for, the marked architecture and the tests its criteria are about |
| ChildMeaning.PartHolds | src/split/mod.rs:516-692 | The spec of a part holds its number, its criteria counted from one and the parts it waits for; the parent's overview, requirements and guardrails; exactly its own artifacts as its scope; and the table of its tests |
| ChildMeaning.PartKnowsOthers | src/split/mod.rs:600-657 | With more than one part it holds every architecture line, marked for this part, and for each other part exactly what that one owns |
| ChildSpec.PushArchitecture | src/split/mod.rs:634-657 | The architecture carried over line by line, each marked where another part owns what it names |
| Annotate.ExtractMentionedModules | src/split/heuristics.rs:22-53 | The names with a known extension among the runs of name characters, each once |
| Names.NamedIff | src/split/heuristics.rs:22-53 | A text names exactly those runs of name characters in it that, without the dots around them, end in a known extension |
| Annotate.FindBoundedOccurrence | src/split/mod.rs:394-418 | The first occurrence that is no part of a longer name, if there is one |
| Annotate.AnnotateLine | src/split/mod.rs:425-483 | The loop over names and the loop over sorted marks yield the marked line |
| Annotate.NothingIsDropped | src/split/mod.rs:485-499 | The marked line is the line with text put in: marking drops nothing |
| Markers.MarkedLineIs | src/split/mod.rs:425-483 | A marked line is the line with a marker behind names that stand by themselves, behind whatever closes them, each listing exactly the other parts that own the name, in order; no such name is left out unless it lies within what an earlier marker stands behind |
| Annotate.MarkedIffForeign | src/split/mod.rs:420-450 | A line is left alone if and only if none of the names standing in it is owned by another part |
| SplitTheorems.MarkedLine | src/split/mod.rs:461-482 | The first marker stands behind a name, so no marked line begins a fence or turns into the heading |
| TestTable.FilterTable | src/split/mod.rs:160-193 | The two loops keep the rows of the part's own tests once each, all other lines, and add a row for every test without one |
| TestTable.NoTestIsLost | src/split/mod.rs:154-193 | In the table of a part each of its tests has exactly one row and no other test has any; the lines that are no test rows stay, in order |
| TestTable.ExtractTestName | src/split/mod.rs:109-127 | The first cell that, trimmed of blanks and backticks, begins like a test gives the name |
| TestTable.ParseTests | src/split/mod.rs:86-106 | The names in the section's lines, each once, none without the section |
| TestTable.ExtractIdentifiers | src/split/heuristics.rs:147-176 | The words of a criterion with an underscore, or long and in small letters, but no stop words, each once |
| TestTable.IdentifierIff | src/split/heuristics.rs:147-176 | These are exactly the runs of word characters that look like an identifier |
| TestTable.FindTests | src/split/heuristics.rs:58-78 | The tests whose name holds one of a criterion's words, in order |
| TestTable.CollectRelevantTests | src/split/mod.rs:133-152 | The tests of all criteria of a part, merged in order |
| TestTable.RelevantAre | src/split/mod.rs:129-152 | These are, each once, exactly the spec's tests that one of the part's criteria is about |
| SplitTheorems.PartTests | src/split/mod.rs:129-193 | From the spec to the table: a test has one row in a part if the spec lists it and a criterion of the part is about it, and none otherwise |
| SplitTheorems.TestsSurvive | src/split/mod.rs:129-193 | Over an ordered split, a test has a row in some part if and only if the spec lists it and some criterion is about it |
| Ownership.OwnedArtifacts | src/split/mod.rs:308-320 | The collecting loop and the sort give the set of artifacts the part's criteria name, in order |
| Ownership.DependsOnParts | src/split/mod.rs:329-362 | The loop over the other parts gives the list of those that create something this part names |
| Ownership.WaitsForIff | src/split/mod.rs:322-362 | A part waits for another if and only if that one has a criterion with `test -f` and an artifact both name |
| Ownership.WaitsInOrder | src/split/mod.rs:329-362 | The list is in order without a sort |
| Ownership.WaitForEachOther | src/split/mod.rs:322-362 | Two parts wait for each other if and only if each creates something that both name |
| Ownership.OrderableIff | src/split/mod.rs:322-362 | The parts can be run in some order, each behind those its metadata names, if and only if the waiting has no cycle |
| Ownership.NoOrderIffRing | src/split/mod.rs:322-362 | Read off the criteria: there is such an order if and only if there is no ring of parts, each naming something that the next one creates and names |
| Ownership.FileOrderIff | src/split/mod.rs:240-250 | The order of the numbers is one if and only if no part needs a later one |
| Ownership.WaitInCircle | src/split/mod.rs:322-362 | An input without an order: two criteria that both read test -f a.c, one a part |
| Ownership.ArtifactOwners | src/split/mod.rs:370-389 | The nested loops build the table of owners |
| Ownership.OwnersAreExact | src/split/mod.rs:364-389 | The table lists for every artifact exactly the parts whose criteria name it, in order |
| Ownership.MarkedIffOthers | src/split/mod.rs:420-450 | A line of the architecture is left alone if and only if no name that stands in it is an artifact of another part |
| SplitTheorems.PartReadsBack | src/split/mod.rs:516-692 | The spec of a part reads back as exactly the criteria it was given, in order |
| SplitTheorems.SplitRoundTrip | src/split/mod.rs:48-692 | Reading back every part of an ordered split, in part order, gives the parent's criteria |
| SplitTheorems.SplitForAuto | src/split/mod.rs:827-908 | Specs of at most 7 criteria stay whole; larger ones become parts of 4 to 6 that read back as the whole |

## Left out

- Seed.SeedCountsStep: is the step for graphs without gates and `after` edges, on which the theorems about whole restarts rest; for all graphs `RestartCounts.RestartCountsIff` says which counters a restart begins with.
- ResumeTheorems.ResumeEquivalence: is proved for graphs without gates and `after` edges; with either, `FixGap.RestartRunsFix` and `ResumeGap.ResumeLosesWakeUp` are restarts that do not do what the first run does; Blocked sets are not compared, since a restart may block transitively where the live loop blocks direct dependents only; more than one crash needs a worker whose verdict does not depend on the prompt, because outputs are erased; `retry_failed` is modelled in `Resume.LoadCheckpoint` and off in the theorem.
- LoopTheorems.UnfinishedDescendsFromFailed: says a chain leads to a failed node, not that blocking is transitive, which it is not.
- RunLoop.RunLoop.Run: the answers of the budget gate are open, so the theorems about runs hold for every ledger; ledger and dispatches are one state in `Spending`, where the order of the loop's reservations is open in turn.
- Dispatch.TryModels: the budget's answers during a dispatch are a function of the request's number, since other dispatches run in between; `Spending` ties what they grant and what they trip to the ledger.
- Workers.CompletionOrderIsFree: a critic that is refused a slot is another result, so no critic may be; `Budget.RefusesNothingIff` says when that is certain beforehand.
- Spending.OverrunIsBounded: an upper bound; reservations that fail before a first call keep their one call, as in the code.
- RetryLattice.BackoffBound: pauses are unbounded integers; the overflow of the 64-bit shift is not modelled.
- WeightedCarousel.WeightedCarouselBounded: weights are reals, served ratios exact fractions and the rounded shares arbitrary numbers.
- Carousel.RoundRobinOrder: labels are paired with entries first and the loop of the plain carousel is reused.
- ClientPool.PoolIsBounded: sessions run concurrently, so pool, sessions and semaphore are one value with a step for every stretch between two awaits, not a class.
- Store.RedbEvents.AppendEvent: a table is a map from key to row, a transaction is atomic, and an iterator finds the least key; behind the last 64-bit number the counter wraps, as in a release build, where a build with overflow checks stops; redb and bincode are not part of this model.
- NodeTable.RedbNodes.PutNodeState: the row carries the node id it is stored under, as every caller has it.
- Vault.RedbSink.Emit: writes succeed; timestamps, timings and the stored graph are left out.
- Validate.ValidateDag: errors are data that name the flaw, without the wording of the messages.
- Markdown.ExtractSection: documents are lists of lines, so line ends and the final newline are not modelled.
- ChildSpec.GenerateChildSpec: a title is written for every parent with a line, where the code writes one only if the text holds a line end (src/split/mod.rs:536), which a list of lines cannot tell; the coverage report, file names and the writing of files are left out; the round trip of the criteria is proved for every attribution of artifacts and tests, the heuristics' among them.
- Ownership.OrderableIff: says exactly when the parts can be ordered; the code neither looks for cycles in its metadata nor breaks them, so nothing is proved of what a user then does.
- TestTable.NoTestIsLost: is about the rows of the table a part is given, which `ChildMeaning.PartHolds` finds in the child; reading back through the section scanner is proved for the criteria only.
- Template.InterpolateOutputs: lengths and caps count characters, not UTF-8 bytes, and white space and letters are the ASCII ones, here and in the other text functions.
- Verification.DispatchNode: a timeout is one of the worker's replies, the shell's answer a function of command and token; MCP calls are left out.
- Tasks that panic, tokio, watch channels and the timing of the semaphore: only "some running task finishes next" is modelled.
- Grouping by module (src/split/heuristics.rs:182-249), spec names and configuration: string handling without a harder property.
- The lock file of an agent (src/agent/lock.rs): mutual exclusion rests on process liveness and file races.
- CLI, UI, RPC, A2A, MCP, rendering, workflow files and schema migration.
