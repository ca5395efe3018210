# Verified models of the agent platform

Dafny models of the parts of the platform whose correctness depends on more than one function, with proofs
about all their inputs and runs. What surrounds them (models, agents, tools, databases, clocks) is an
environment whose answers are parameters, so each theorem holds for every behaviour of it.

| modules | what they model |
|---|---|
| `Signals`, `SignalParser`, `SignalMarks`, `Plan`, `Routing` | routing signals: parsing, conflict resolution and their effect on the plan |
| `Workflow`, `WorkflowRuns`, `WorkflowGroups`, `GroupPlans`, `Repivots` | the workflow plan machine: groups, signals, repivots, over whole runs |
| `FanOut`, `FanTrees`, `FanSiblings` | recursive fan-out into child workflows |
| `EditDistance`, `ToolNames` | edit distance, tool-name repair and suggestions |
| `Chunking`, `ChunkingProperties` | the overlapping text chunker, on UTF-8 bytes |
| `Conversation`, `Compaction` | message lists, turns, sliding window, compaction boundary, pre-flight repair |
| `AgentLoop`, `AgentTurns`, `AgentLimits`, `AgentGroups`, `AgentRequests` | the streaming agent loop on its legacy (non-CWC) path: what each turn does, limits, whole tool-call groups, what it keeps of the user's requests |
| `EmbedQueue`, `EmbedRuns`, `EmbedScript`, `EmbedFailures`, `EmbedWorker`, `EmbedTick` | resumable embedding workers as a protocol over database statements |
| `RateLimit` | the in-memory token bucket |
| `StreamTracker` | per-user stream slots |
| `ArtifactIndex`, `ArtifactOrder`, `ArtifactRefs` | artifact numbering, the printed listing and the resolver of its numbers |
| `Text`, `Multisets`, `Products`, `Wrappers` | library operations the code uses, and shared facts |

Code that updates state in place is a class or a method with loops, proved equal to a specification
function; the theorems are lemmas about that function.

Where the code differs from what its names or comments promise, the code is modelled:

- a step re-queued by a repivot is marked as not repivotable, but only the original workflow is asked
  (`WorkflowRuns.RequeueMeaning`), so an agent can come back with every repivot
  (`Repivots.ComesBackEveryTime`); the bound is `MAX_REPIVOTS` (`WorkflowRuns.RunBound`);
- a prompt keeps its first retarget notice, so a later repivot does not tell such a step about the newer
  artifact (`Repivots.NamesTheNewArtifact`, `Repivots.NoticeGoesStale`);
- a chunk size smaller than a character can make the chunker run for ever (`ChunkingProperties.EndsIffFits`);
- the rate limiter reads the clock before it locks the bucket (`RateLimit.WindowBound` holds regardless,
  `RateLimit.OldReadingEarnsTwice` shows what that costs), so even a denied request can change later answers when
  its reading is old (`RateLimit.DeniedLeavesNoTrace`, `RateLimit.OldPollIsNoticed`);
- for models that are not local, compaction can summarise the request the model is working on
  (`AgentRequests.RunHoldsAsked`, `AgentRequests.DropsAtIff` and `AgentRequests.RequestIsLost`);
- a line break in a file name or description can print a reference beside something else
  (`ArtifactRefs.ListingIsGenuineIff`).

`dafny verify dfyconfig.toml` checks the whole project.

## Model

| member | source | states |
|---|---|---|
| `Signals.ResolveConflicts` | af/crates/af-agents/src/signal_parser.rs:112-136 | the three passes compute `Resolve`, whose result has one signal per (target, kind) and no target both requested and skipped |
| `Signals.Survives` | af/crates/af-agents/src/signal_parser.rs:112-136 | a signal is kept exactly when no earlier one has its target and kind and it is not a skip of a target requested anywhere in the list |
| `Signals.ResolveKeepsOrder` | af/crates/af-agents/src/signal_parser.rs:112-136 | kept signals stay in the order they arrived |
| `SignalParser.ParseSignals` | af/crates/af-agents/src/signal_parser.rs:39-65 | scanning all lines for all marks gives `Parsed` |
| `SignalParser.ParsedValid` | af/crates/af-agents/src/signal_parser.rs:68-105 | every parsed signal has a well-formed agent name and a trimmed, non-empty reason, and names its source |
| `SignalParser.SingleMark` | af/crates/af-agents/src/signal_parser.rs:39-65 | the printed form of a printable signal holds no second mark, not even across its fields |
| `SignalParser.PrintThenParse` | af/crates/af-agents/src/signal_parser.rs:15-105 | printing any list of printable signals one per line and parsing it gives the same list |
| `SignalMarks.ParsedIff` | af/crates/af-agents/src/signal_parser.rs:39-105 | from any text exactly the signals are read that stand in one of its lines in the documented form, at any mark of the line, each where it stands and in the order of the text |
| `SignalMarks.LinesMeaning` | af/crates/af-agents/src/signal_parser.rs:42-42 | the lines, put together again with their ends, are the text |
| `Plan.ApplyOneFiled` | af/crates/af-agents/src/orchestrator.rs:918-1018 | a signal leaves every group non-empty and after the current one, every step filed under its own number, and adds no group but the next |
| `Plan.ApplyOneUnique` | af/crates/af-agents/src/orchestrator.rs:918-1018 | a signal never makes an agent planned twice |
| `Plan.ApplyOneAgents` | af/crates/af-agents/src/orchestrator.rs:918-1018 | which agents are planned after each kind of signal: the target is added if known, removed, or unchanged, and nobody else moves in or out |
| `Routing.PlannedAgentsAfter` | af/crates/af-agents/src/orchestrator.rs:910-1021 | resolved signals turn the planned agents P into (P + (requested and known)) - skipped, however often agents are planned |
| `Routing.StepsAfter` | af/crates/af-agents/src/orchestrator.rs:910-1021 | the steps of each agent, group by group, after a whole round on any plan, in closed form from the set of its signals |
| `Routing.RoundIsOrderFree` | af/crates/af-agents/src/orchestrator.rs:910-1021 | on any plan, every permutation of the resolved signals leaves every agent the same steps in the same groups, prompts included |
| `Workflow.WorkflowRun.constructor` | af/crates/af-agents/src/orchestrator.rs:114-118 | the initial plan groups the steps by number |
| `Workflow.WorkflowRun.Route` | af/crates/af-agents/src/orchestrator.rs:910-1021 | one round of signals in place: the plan is `ApplySignals` and the signals reported are `Applied` |
| `GroupPlans.RoundMeaning` | af/crates/af-agents/src/orchestrator.rs:910-1021 | a resolved round, agent by agent, on any plan: who is skipped has no steps left; who was not planned is planned by a request alone, as one step with the reason as its prompt in the first planned group (the next number in an empty plan); who was planned is moved by a priority alone, its first step to that group, never a later one |
| `GroupPlans.FiresIff` | af/crates/af-agents/src/orchestrator.rs:923-1016 | a signal is reported if and only if it changes the plan |
| `GroupPlans.AppliedMeaning` | af/crates/af-agents/src/orchestrator.rs:923-1016 | so the reported signals are exactly those that changed the plan when it was their turn, in order |
| `Workflow.WorkflowRun.Repivot` | af/crates/af-agents/src/orchestrator.rs:557-626 | re-queues finished agents for a replacement artifact and retargets the plan, in place |
| `Workflow.WorkflowRun.ExecuteGroup` | af/crates/af-agents/src/orchestrator.rs:162-630 | one turn of the group loop takes the run state to `AfterGroup` |
| `WorkflowGroups.InitialMeaning` | af/crates/af-agents/src/orchestrator.rs:114-118 | under each number stand exactly the steps of that number, in the order of the workflow |
| `WorkflowGroups.StartedMeaning` | af/crates/af-agents/src/orchestrator.rs:184-400 | of a group exactly the steps start whose agents are found, each once, all parallel ones before the others, and both in order |
| `WorkflowGroups.GroupStarts` | af/crates/af-agents/src/orchestrator.rs:161-503 | the report of a group: the steps of the least number, who started of them and who timed out; completed is then exactly who started and did not, in order, behind those who had before |
| `WorkflowGroups.RunStarts` | af/crates/af-agents/src/orchestrator.rs:161-503 | over every run: the same for every report, and an agent has completed exactly as often as it started without timing out |
| `GroupPlans.OutputsJoin` | af/crates/af-agents/src/orchestrator.rs:505-510 | the signals of a group are read from all its outputs, one after the other |
| `GroupPlans.OneOutput` | af/crates/af-agents/src/orchestrator.rs:505-510 | those of one output being read from its text, with its agent as the source |
| `GroupPlans.GroupAgents` | af/crates/af-agents/src/orchestrator.rs:497-630 | who is planned after a group: (planned behind it + requested and known) - skipped, and on a repivot everyone who has completed, is not among them and whose original step, if any, allows it |
| `GroupPlans.RequeuedComeFirst` | af/crates/af-agents/src/orchestrator.rs:564-603 | a re-queued step is a copy of the agent's original step with the notice behind its prompt; it stands in the group that was first before the repivot and is first after it |
| `GroupPlans.GroupKeeps` | af/crates/af-agents/src/orchestrator.rs:605-616 | everything else planned stays in its group and order, and on a repivot gets the notice unless its prompt holds one |
| `Repivots.NoticeNames` | af/crates/af-agents/src/orchestrator.rs:600-604 | the notice names the new artifact, its file and the one it replaces |
| `Workflow.WorkflowRun.Execute` | af/crates/af-agents/src/orchestrator.rs:161-630 | the loop computes `Run`, and stops early only with an empty plan |
| `WorkflowRuns.RunInOrder` | af/crates/af-agents/src/orchestrator.rs:161-630 | over every run, executed group numbers strictly increase, planned ones come after the last executed one and are not empty, and steps are filed under their own number |
| `WorkflowRuns.RunUnique` | af/crates/af-agents/src/orchestrator.rs:161-630 | over every run from distinct agents, no agent is planned twice, through signals and repivots |
| `WorkflowRuns.RequeueMeaning` | af/crates/af-agents/src/orchestrator.rs:564-603 | who is re-queued: exactly the finished agents that are not planned and may repivot, each once; the planned steps are then the old ones, each where it was, and theirs in the next group |
| `WorkflowRuns.RunRequeues` | af/crates/af-agents/src/orchestrator.rs:497-603 | each repivot re-queues an agent at most once, and only one that ran in some group without timing out there and whose original step allows it |
| `Repivots.NamesTheNewArtifact` | af/crates/af-agents/src/orchestrator.rs:581-616 | after a repivot a planned step ends with the notice of the new artifact if and only if it was re-queued for it now or its prompt held no notice before (or ended with this very one) |
| `Repivots.FirstNoticeStays` | af/crates/af-agents/src/orchestrator.rs:605-616 | so a later repivot changes no prompt that has a notice already |
| `Repivots.NoticeGoesStale` | af/crates/af-agents/src/orchestrator.rs:605-616 | a run after which a planned step names only the older of two artifacts |
| `Repivots.ComesBackEveryTime` | af/crates/af-agents/src/orchestrator.rs:571-593 | runs in which each of up to `MAX_REPIVOTS` repivots re-queues the same agent, although its re-queued step says it cannot repivot |
| `WorkflowRuns.SignalsAddOneGroup` | af/crates/af-agents/src/orchestrator.rs:918-1018 | a round of signals adds at most one group, and only if a request was applied |
| `WorkflowRuns.RunBound` | af/crates/af-agents/src/orchestrator.rs:19-630 | executed plus planned groups never exceed initial groups + rounds that applied a request + repivots, at most `MAX_REPIVOTS` |
| `WorkflowRuns.RunEnds` | af/crates/af-agents/src/orchestrator.rs:161-630 | so every run with that many rounds ends with an empty plan |
| `WorkflowRuns.RunBalance` | af/crates/af-agents/src/orchestrator.rs:161-1021 | conservation: turns taken + planned + skips applied = originally planned + requests applied + re-queues, for every agent of every run from distinct agents |
| `FanOut.ExecuteWorkflow` | af/crates/af-agents/src/orchestrator.rs:632-862 | the recursion through child workflows builds `Tree` |
| `FanOut.SpawnChildren` | af/crates/af-agents/src/orchestrator.rs:657-842 | one batch: cap, visited set of the children, cycle check, spawning, awaiting and counting |
| `FanTrees.ChildrenMeaning` | af/crates/af-agents/src/orchestrator.rs:682-760 | exactly the artifacts of unvisited hash whose thread could be created get a child run, one each, in order, at the path of the artifact, one level down, knowing all hashes of the batch |
| `FanTrees.FansHoldBatches` | af/crates/af-agents/src/orchestrator.rs:632-862 | at every node of every tree: one fan for each batch, with the children for exactly those of its first fifty artifacts that are of an unknown hash and have a thread, in order; completed and failed are the numbers of children whose runs succeed and do not |
| `FanTrees.EveryFanIsGood` | af/crates/af-agents/src/orchestrator.rs:632-862 | at every node of every tree completed + failed = spawned <= 50, and every child is one level down, new to its parent and aware of all its siblings |
| `FanTrees.ChainsAreShortAndNew` | af/crates/af-agents/src/orchestrator.rs:632-784 | no run is deeper than `MAX_FANOUT_DEPTH`, and the hashes spawned along any chain of ancestors are pairwise distinct |
| `FanTrees.NephewsDiffer` | af/crates/af-agents/src/orchestrator.rs:670-692 | nothing below a child repeats the hash of one of its siblings in the batch |
| `FanSiblings.SiblingsRepeatIff` | af/crates/af-agents/src/orchestrator.rs:670-692 | siblings of one batch share a hash if and only if two artifacts of the capped batch do that both get a child |
| `FanSiblings.SiblingsMayRepeat` | af/crates/af-agents/src/orchestrator.rs:682-692 | a tree in which they do |
| `FanTrees.SizeBound` | af/crates/af-agents/src/orchestrator.rs:632-862 | a tree whose runs find at most b batches each is no bigger than the full tree |
| `FanTrees.FullTreeInNumbers` | af/crates/af-agents/src/orchestrator.rs:22-26 | which has 1 + n + n^2 + n^3 runs for n = 50 b |
| `EditDistance.Levenshtein` | af/crates/af-agents/src/runtime.rs:2840-2856 | the two swapped rows compute the recursive edit distance |
| `EditDistance.DistanceIsShortest` | af/crates/af-agents/src/runtime.rs:2840-2856 | that is the length of a shortest script of insertions, deletions and replacements at any positions |
| `EditDistance.ZeroOnlyForEqual` | af/crates/af-agents/src/runtime.rs:2840-2856 | it is zero exactly for equal texts |
| `EditDistance.Symmetric` | af/crates/af-agents/src/runtime.rs:2840-2856 | it is symmetric |
| `EditDistance.TriangleInequality` | af/crates/af-agents/src/runtime.rs:2840-2856 | it satisfies the triangle inequality |
| `ToolNames.FixupMeaning` | af/crates/af-agents/src/runtime.rs:2793-2836 | the repaired name case by case: registered names stay, else the unique suffix match of an undotted name, else the unique name within distance 2, else unchanged |
| `ToolNames.SuffixIff` | af/crates/af-agents/src/runtime.rs:2804-2822 | an undotted name matches itself and the names that end in it behind a dot |
| `ToolNames.FixupIdempotent` | af/crates/af-agents/src/runtime.rs:2793-2836 | repairing twice changes nothing more |
| `ToolNames.FixupIgnoresOrder` | af/crates/af-agents/src/runtime.rs:2793-2836 | the order in which the registry lists its names does not matter |
| `ToolNames.TyposAreRepaired` | af/crates/af-agents/src/runtime.rs:2824-2834 | if registered names are more than 4 edits apart, every dotted name with at most two typos is repaired to the name meant |
| `ToolNames.SuggestionsAreNearest` | af/crates/af-agents/src/runtime.rs:2860-2876 | suggestions are the nearest allowed names within the distance, each once, nearest first, and none left out is nearer |
| `ToolNames.MatchesIff` | af/crates/af-agents/src/runtime.rs:2721-2733 | a pattern allows the tool of its name, `*` every tool, and `p.*` those whose names go on behind `p.` |
| `Chunking.FloorCharBoundary` | af/crates/af-builtin-tools/src/chunking.rs:20-28 | the loop finds the greatest character boundary not past the position |
| `Chunking.CutIsBoundary` | af/crates/af-builtin-tools/src/chunking.rs:89-121 | a cut lies in its window, past its start, on a character boundary |
| `Chunking.CutMonotone` | af/crates/af-builtin-tools/src/chunking.rs:89-121 | cutting a window shifted to the right never cuts earlier, across all four classes of delimiters |
| `Chunking.EndsMonotone` | af/crates/af-builtin-tools/src/chunking.rs:41-81 | one turn of the loop never ends a chunk before the previous one, for any overlap |
| `Chunking.Progress` | af/crates/af-builtin-tools/src/chunking.rs:41-81 | each turn cuts a non-empty window of at most the chunk size, and the next start strictly increases and lies at most overlap + 3 bytes before the cut |
| `Chunking.CutWindow` | af/crates/af-builtin-tools/src/chunking.rs:41-81 | boundary and next start of one turn |
| `Chunking.ChunkText` | af/crates/af-builtin-tools/src/chunking.rs:31-85 | the loop computes `Chunked` |
| `ChunkingProperties.WindowsCutWell` | af/crates/af-builtin-tools/src/chunking.rs:41-121 | every window that ends before the text is cut behind the last paragraph break it holds, else the last line break, else the last sentence, else the last word, else at the last character that fits; the next one starts at the last boundary up to overlap bytes back, if that is progress |
| `ChunkingProperties.WhiteIff` | af/crates/af-builtin-tools/src/chunking.rs:60-61 | what counts as blank are the UTF-8 encodings of the white-space characters |
| `Chunking.FourBytesFit` | af/crates/af-builtin-tools/src/chunking.rs:20-45 | a chunk size of 4 or more fits every character of every text |
| `ChunkingProperties.WindowsTile` | af/crates/af-builtin-tools/src/chunking.rs:41-81 | windows begin at the start, strictly advance, leave no gap, overlap by at most overlap + 3 bytes and reach the end of the text |
| `ChunkingProperties.ChunksAreWindows` | af/crates/af-builtin-tools/src/chunking.rs:31-85 | the chunks are exactly the non-blank windows, in order, up to the cap |
| `ChunkingProperties.ChunksAreGood` | af/crates/af-builtin-tools/src/chunking.rs:31-85 | at most `MAX_CHUNKS` numbered chunks, each a verbatim slice of at most the chunk size on character boundaries, with increasing offsets and ends that never go back |
| `ChunkingProperties.NothingIsLost` | af/crates/af-builtin-tools/src/chunking.rs:31-85 | below the cap every non-blank character lies whole in a chunk |
| `ChunkingProperties.EndsIffFits` | af/crates/af-builtin-tools/src/chunking.rs:31-85 | the call returns when every character fits the chunk size, never when a wider one stands at an offset below the cap on chunks, and so for texts up to the cap if and only if the size is zero or every character fits; for other texts with a wider character it returns if and only if the loop reaches the cap |
| `ChunkingProperties.StallsOnWideCharacter` | af/crates/af-builtin-tools/src/chunking.rs:41-81 | size 1 and a two-byte character: the loop never ends |
| `Conversation.GroupedIsWhole` | af/crates/af-agents/src/compaction.rs:186-240 | the recursive reading of a well-grouped list agrees with the direct one: every assistant message with k calls is followed at once by k results with its ids in order, and there are no other results |
| `Conversation.MessageCosts` | af/crates/af-llm/src/request.rs:9-43 | what user texts, results and calls add to the estimate |
| `Conversation.EstimateSplits` | af/crates/af-llm/src/request.rs:9-43 | a list costs what its parts cost, and the tool descriptions once |
| `Compaction.ParseTurns` | af/crates/af-agents/src/compaction.rs:135-179 | the turns tile the body, token sums included; every turn but the first starts with a real user message and contains no other |
| `Compaction.TurnsUnique` | af/crates/af-agents/src/compaction.rs:135-179 | there is only one such way to cut a body |
| `Compaction.TailTokensAreSpan` | af/crates/af-agents/src/compaction.rs:559-566 | summing turns counts the tokens of the messages they hold |
| `Compaction.ShortestTailExists` | af/crates/af-agents/src/compaction.rs:552-583 | a shortest tail worth keeping exists as soon as any proper suffix of the turns is, and is unique |
| `Compaction.TailBoundary` | af/crates/af-agents/src/compaction.rs:552-578 | the backward walk finds `TailStart` |
| `Compaction.SlidingWindowTrim` | af/crates/af-agents/src/compaction.rs:536-592 | the pure part of the trim computes `WindowTrim` |
| `Compaction.WindowMeaning` | af/crates/af-agents/src/compaction.rs:536-655 | above its trigger it trims if and only if some proper suffix of turns has 6000 tokens, two turns and a user request, and keeps the system prompt, the memory and the shortest such suffix; without history it fails |
| `Compaction.SelectMessagesForCompaction` | af/crates/af-agents/src/compaction.rs:190-242 | the walk back from the last user message computes `CompactionEnd` |
| `Compaction.CompactionCutIsWhole` | af/crates/af-agents/src/compaction.rs:190-242 | in a grouped list it never cuts into a group, and keeps the last user message |
| `Compaction.TrimKeepsGroups` | af/crates/af-agents/src/compaction.rs:622-640 | a list rebuilt from system prompt, memory and a tail that starts outside a group is grouped |
| `Compaction.MessageList.PreflightCheck` | af/crates/af-agents/src/compaction.rs:670-732 | the repair in place: an error and no change without a system prompt, else `Repaired` |
| `Compaction.RemoveOrphans` | af/crates/af-agents/src/compaction.rs:697-729 | removing the collected positions in reverse is filtering |
| `Compaction.OrphansMeaning` | af/crates/af-agents/src/compaction.rs:697-718 | collected are exactly the tool results that no assistant message with calls precedes through tool results only, in ascending order |
| `Compaction.RepairIdempotent` | af/crates/af-agents/src/compaction.rs:670-732 | a second repair changes nothing, even where removing an orphan moves a message that looks like a memory message into its place |
| `Compaction.MemoryRecognised` | af/crates/af-agents/src/compaction.rs:104-113 | the memory message the repair injects is recognised as the start of the body |
| `Compaction.RepairKeepsGroups` | af/crates/af-agents/src/compaction.rs:670-732 | a grouped list is only ever given its memory message, and stays grouped |
| `AgentLoop.AgentRun.Judge` | af/crates/af-agents/src/runtime.rs:1812-1905 | the checks of a tool call, in order, with the state each leaves |
| `AgentLoop.AgentRun.DispatchCall` | af/crates/af-agents/src/runtime.rs:1812-2031 | one tool call, from repairing its name to pushing its one result |
| `AgentLoop.AgentRun.DispatchCalls` | af/crates/af-agents/src/runtime.rs:1812-2031 | the whole batch, without looking at the budget |
| `AgentTurns.BatchDispatches` | af/crates/af-agents/src/runtime.rs:1812-2031 | the j-th call is dispatched under its repaired name and answered with the text that came back for it |
| `AgentTurns.CallIsJudged` | af/crates/af-agents/src/runtime.rs:1816-1905 | what a call is rejected for: first for want of permission, then if the tool has been used up, then for its arguments; else it is invoked |
| `AgentTurns.CallEnables` | af/crates/af-agents/src/runtime.rs:1964-1972 | a call enables exactly the tool it discovers, if it is invoked for a local model |
| `AgentLoop.AgentRun.TrimAfterTools` | af/crates/af-agents/src/runtime.rs:2072-2186 | reinforcement, sliding window and compaction after the tools give `Trimmed`, or the failed query that ends the run |
| `AgentTurns.NextList` | af/crates/af-agents/src/runtime.rs:2072-2186 | the list for the next request: with a local model the last result nudged, then, above half the budget and with rows to mark, the system prompt, the memory and the shortest tail of two or more turns that holds 6000 tokens and a user message; with other models the reminder; and if that is above the budget, the system prompt, the memory or a summary, and everything behind the cut |
| `AgentTurns.TurnLeaves` | af/crates/af-agents/src/runtime.rs:2072-2186 | and the turn leaves that list, or ends the run when the query fails |
| `AgentTurns.EnoughIff` | af/crates/af-agents/src/compaction.rs:552-578 | the tails the window may keep, in terms of the messages they hold |
| `AgentTurns.CompactionEndIff` | af/crates/af-agents/src/compaction.rs:190-242 | compaction cuts as late as possible, not behind the newest user message and not behind a message that belongs with the next |
| `AgentLoop.AgentRun.ProcessReply` | af/crates/af-agents/src/runtime.rs:1762-2213 | the reply takes the run state to `AfterReply` |
| `AgentTurns.TurnEnds` | af/crates/af-agents/src/runtime.rs:1762-2213 | a turn that sends its request ends the run if and only if the reply fails, is a final text, is empty for the third time, or has calls after which a query fails |
| `AgentTurns.RunGoesOn` | af/crates/af-agents/src/runtime.rs:2188-2213 | over every run: it goes on only behind replies with tool calls or without text |
| `AgentTurns.SendsIff` | af/crates/af-agents/src/runtime.rs:1554-1574 | a turn sends a request if and only if fewer calls than the budget are dispatched, at most three rejections stand and quota is left; otherwise it ends the run |
| `AgentTurns.RequestIs` | af/crates/af-agents/src/runtime.rs:1527-1616 | the request holds the list and the queued texts; with a local model also the stored memory, and exactly the orphaned tool results are left out |
| `AgentLoop.AgentRun.Iteration` | af/crates/af-agents/src/runtime.rs:1527-2213 | one turn of the loop: polling, the three reasons to stop, repair, request, reply |
| `AgentLoop.AgentRun.Execute` | af/crates/af-agents/src/runtime.rs:1527-2213 | the loop computes `Run` |
| `AgentLimits.RunEnds` | af/crates/af-agents/src/runtime.rs:1527-1574 | every run ends, after at most budget + 2 requests, whatever the model answers |
| `AgentLimits.RunInvokesWithinLimits` | af/crates/af-agents/src/runtime.rs:2703-2719 | over every run no tool is invoked more often than its limit, nor one that is not permitted |
| `AgentLimits.RunStopsOnErrors` | af/crates/af-agents/src/runtime.rs:1554-1574 | every request goes out below the budget and with at most `MAX_CONSECUTIVE_ERRORS` rejections since the last invocation |
| `AgentLimits.LimitsAreReached` | af/crates/af-agents/src/runtime.rs:1812-1815 | the bound on requests is reached, and the last batch can exceed the budget |
| `AgentGroups.BatchAddsResults` | af/crates/af-agents/src/runtime.rs:1812-2031 | whatever the verdicts, a batch pushes exactly one result per call, with its id, in order |
| `AgentGroups.RunIsGood` | af/crates/af-agents/src/runtime.rs:1527-2213 | from a grouped list, every request of every run is grouped; with a local model its newest user message is the newest thing the user asked, however often the list was trimmed |
| `AgentGroups.EveryRequestIsWhole` | af/crates/af-agents/src/runtime.rs:1611-1616 | the same in direct form: in every request sent each assistant message is followed by exactly its results |
| `AgentRequests.CutIff` | af/crates/af-agents/src/compaction.rs:190-242 | in any list, compaction cuts a user message away if and only if a message from it on, before the newest user message, belongs with nothing that follows it |
| `AgentRequests.BusyCut` | af/crates/af-agents/src/compaction.rs:197-228 | when behind the newest request there are only tool calls, results and reminders and the list ends in a reminder: if and only if the request does not itself stand directly behind a tool result |
| `AgentRequests.TrimmedReal` | af/crates/af-agents/src/runtime.rs:2072-2186 | one trim with a model that is not local: the list still holds the newest request, or, exactly if it is over budget, history and summary are there and the cut lies behind the request, no message of a user at all |
| `AgentRequests.RunHoldsAsked` | af/crates/af-agents/src/runtime.rs:1527-2213 | over every such run, every request sent holds the newest thing the user wrote, exactly unless a trim since has cut it away; then it holds nothing a user wrote |
| `AgentRequests.DropsAtIff` | af/crates/af-agents/src/runtime.rs:2072-2186 | over every such run from a list that ends in a request: a turn cuts the request away if and only if the list with the reminder is over budget, there are history rows, the summary succeeds and the request does not stand behind a tool result |
| `AgentRequests.RequestIsLost` | af/crates/af-agents/src/runtime.rs:2086-2186 | for every text, a run that asks it and whose second request no longer holds any message of a user |
| `EmbedWorker.Queue.RecoverStale` | af/crates/af-db/src/embed_queue.rs:199-228 | a stale item loses an attempt and becomes pending or failed |
| `EmbedWorker.Queue.ListPending` | af/crates/af-db/src/embed_queue.rs:49-61 | only a pending item is listed, with its saved progress |
| `EmbedWorker.Queue.ClaimItem` | af/crates/af-db/src/embed_queue.rs:62-76 | claiming succeeds exactly while the item is pending |
| `EmbedWorker.Queue.CompleteItem` | af/crates/af-db/src/embed_queue.rs:98-110 | only a processing item is completed |
| `EmbedWorker.Queue.FailItem` | af/crates/af-db/src/embed_queue.rs:113-131 | only a processing item loses an attempt |
| `EmbedWorker.Queue.StoreBatch` | af/crates/af-builtin-tools/src/embed_queue.rs:114-162 | one batch: nothing, stored without saved progress, or stored and saved |
| `EmbedWorker.Queue.EmbedBatches` | af/crates/af-builtin-tools/src/embed_queue.rs:111-163 | the loop over the batches performs exactly the statements `Batches` lists |
| `EmbedWorker.Queue.ProcessSingleItem` | af/crates/af-builtin-tools/src/embed_queue.rs:70-166 | loading and resuming an item |
| `EmbedWorker.Queue.ProcessListed` | af/crates/af-builtin-tools/src/embed_queue.rs:44-68 | claiming, processing and recording one listed item |
| `EmbedTick.ProcessEmbedQueue` | af/crates/af-builtin-tools/src/embed_queue.rs:22-68 | a whole tick over all items: stale ones are recovered, the first ten pending ones listed, claimed and processed; each item goes through a run of the protocol, `TickScript`, and the count returned is that of the items completed |
| `EmbedRuns.ProgressIsStored` | af/crates/af-builtin-tools/src/embed_queue.rs:22-166 | under every interleaving of workers, crashes and recoveries, every chunk below the saved progress is stored, and a completed item has exactly its chunks stored |
| `EmbedRuns.CompletedIsFinal` | af/crates/af-db/src/embed_queue.rs:62-244 | a completed or cancelled item stays so, whatever slow workers do |
| `EmbedRuns.ClaimsAreBounded` | af/crates/af-db/src/embed_queue.rs:113-244 | an item fails for good exactly when its attempts are used up, and is claimed at most max_attempts * (retries by hand + 1) times |
| `EmbedRuns.RepeatsAreBounded` | af/crates/af-builtin-tools/src/embed_queue.rs:91-162 | with one worker at a time at most one batch of 100 is repeated per claim that was cut off between storing and saving |
| `EmbedRuns.CopiesAreBounded` | af/crates/af-builtin-tools/src/embed_queue.rs:22-166 | with any number of workers, however interleaved, no chunk is stored more often than the item was claimed, which is at most max_attempts * (retries by hand + 1) times |
| `EmbedRuns.SlowWorkerRepeats` | af/crates/af-builtin-tools/src/embed_queue.rs:26-50 | with two workers the bound for one worker fails: an item taken from a slow worker is stored by both |
| `EmbedRuns.ProgressFallsBack` | af/crates/af-builtin-tools/src/embed_queue.rs:44-90 | saved progress is not monotone: a slow worker whose item was taken begins where it had listed it |
| `EmbedScript.TickCompletes` | af/crates/af-builtin-tools/src/embed_queue.rs:22-166 | an undisturbed tick stores each missing chunk exactly once and completes the item |
| `EmbedFailures.TickFails` | af/crates/af-builtin-tools/src/embed_queue.rs:44-166 | a tick that meets an error, in loading or at the n-th batch, takes one attempt off the item, keeps exactly what was saved before, and repeats at most the one batch it stored without saving |
| `RateLimit.RateLimiter.Check` | af/crates/af-api/src/rate_limit.rs:57-96 | the bucket of the key and the answer after one request |
| `RateLimit.RateLimiter.Serve` | af/crates/af-api/src/rate_limit.rs:57-96 | a sequence of requests gives `Run` |
| `RateLimit.BurstIsLimit` | af/crates/af-api/src/rate_limit.rs:41-93 | of requests at the same time a new client gets exactly max(1, limit) through, and the next is told to wait 60 / max(1, limit) seconds |
| `RateLimit.RefillInNumbers` | af/crates/af-api/src/rate_limit.rs:75-78 | in x idle minutes a bucket gets x times the limit back, up to the limit |
| `RateLimit.WindowBound` | af/crates/af-api/src/rate_limit.rs:63-88 | over any window of any run, whatever the clock readings: a key is admitted at most max + rate times the time its bucket counts as passed since its first admission there |
| `RateLimit.OrderedWindowBound` | af/crates/af-api/src/rate_limit.rs:63-88 | so at most max + rate * T if its own requests come in clock order within T seconds, whatever the order of other keys |
| `RateLimit.OldReadingEarnsTwice` | af/crates/af-api/src/rate_limit.rs:63-79 | out of clock order a bucket can count 120 seconds in a window of 60, and admit more: a late request with an old clock reading sets the bucket back |
| `RateLimit.DeniedLeavesNoTrace` | af/crates/af-api/src/rate_limit.rs:75-88 | a denied request changes neither refill nor answer of a later one if and only if the readings of the last refill, of it and of the later one are in order, or in the opposite order, or the bucket would be full by then anyhow |
| `RateLimit.OldPollIsNoticed` | af/crates/af-api/src/rate_limit.rs:63-88 | a denied request with an old clock reading sets the bucket back, and a request is admitted that was denied without it |
| `RateLimit.PollingIsFree` | af/crates/af-api/src/rate_limit.rs:75-96 | a client that polls in vain is answered as if it had made only the requests that were admitted, if and only if the last poll leaves no trace, those before it leaving none |
| `RateLimit.OrderedIsTraceless` | af/crates/af-api/src/rate_limit.rs:63-96 | and none does when the readings of the client come in order |
| `RateLimit.ExtraRequestsNeverCost` | af/crates/af-api/src/rate_limit.rs:63-96 | in any order of the clock readings, extra requests never reduce how many requests of a client are admitted |
| `RateLimit.RetryAfterIsExact` | af/crates/af-api/src/rate_limit.rs:84-93 | after a denial the next request, whatever its clock reading, is admitted if and only if it reads at least retry_after seconds more |
| `RateLimit.KeysAreIndependent` | af/crates/af-api/src/rate_limit.rs:64-71 | each key is answered as if it had the limiter to itself |
| `StreamTracker.CountersAreGuards` | af/crates/af-api/src/lib.rs:37-76 | in every interleaving of the steps of acquire with drops, each counter equals the live guards of its user and is within the limit; the 32-bit counter never wraps |
| `StreamTracker.RefusedOnlyWhenFull` | af/crates/af-api/src/lib.rs:51-60 | a slot is granted if and only if one was free when the counter was read, whatever is dropped before the addition |
| `StreamTracker.AcquireInTurn` | af/crates/af-api/src/lib.rs:51-65 | whoever finds the map unlocked gets a slot if one is free, and leaves the map unlocked |
| `StreamTracker.ActiveStreamTracker.Acquire` | af/crates/af-api/src/lib.rs:51-65 | acquire in place, with guards dropped between the load and the addition |
| `StreamTracker.ActiveStreamTracker.DropGuard` | af/crates/af-api/src/lib.rs:72-76 | a drop releases one slot of its user |
| `ArtifactIndex.AppendArtifactContext` | af/crates/af-agents/src/prompt_builder.rs:204-295 | prompt text and index map are those of `Context` |
| `ArtifactIndex.ListedIsPermutation` | af/crates/af-agents/src/prompt_builder.rs:217-276 | for distinct ids, samples, their children and orphans are all artifacts, each once |
| `ArtifactOrder.ListedInOrder` | af/crates/af-agents/src/prompt_builder.rs:217-280 | numbers go by sample, in the order given, within one first to the sample and then to its children in order, and last to the artifacts of no sample |
| `ArtifactRefs.LineParts` | af/crates/af-agents/src/prompt_builder.rs:226-278 | every line prints number, target mark, name and description of its artifact |
| `ArtifactRefs.RefResolves` | af/crates/af-agents/src/runtime.rs:3067-3075 | a printed reference resolves to its position in the map, and beyond the list to nothing |
| `ArtifactRefs.ResolvesIff` | af/crates/af-agents/src/runtime.rs:3067-3075 | a text resolves to an artifact if and only if it is, between white space, `#` and a numeral of its position, perhaps with a plus sign |
| `ArtifactRefs.PrintedReferencesResolve` | af/crates/af-agents/src/prompt_builder.rs:204-295 | for distinct ids, every artifact has a line in the text that starts with its number, and that number, and no other, resolves to it |
| `ArtifactRefs.ListingIsGenuineIff` | af/crates/af-agents/src/prompt_builder.rs:226-293 | the lines of the listing that print a reference are exactly those of the artifacts if and only if no name or description printed holds a line break followed by what looks like such a line |
| `ArtifactRefs.EveryPrintedReference` | af/crates/af-agents/src/prompt_builder.rs:204-295 | under that condition, every reference a line of the listing starts with resolves to the artifact whose line it is |
| `ArtifactRefs.TargetResolves` | af/crates/af-agents/src/prompt_builder.rs:282-292 | for distinct ids, the number named as the thread's target, and no other, resolves to the target |
| `ArtifactRefs.UnknownTarget` | af/crates/af-agents/src/prompt_builder.rs:226-292 | for distinct ids, a target that is not among the artifacts leaves the prompt as without a target |
| `ArtifactRefs.DescriptionForgesALine` | af/crates/af-agents/src/prompt_builder.rs:245-251 | a description that prints `#1` beside something else |

## Left out

- Chunking.ChunkText: stated for chunk sizes that no character of the text exceeds, because otherwise the call may not return; `ChunkingProperties.EndsIffFits` covers the other sizes, and only where every wider character stands at or behind the cap is its condition the loop's own state.
- AgentGroups.RunIsGood: starts from a grouped list, because a history loaded from the database need not be one (the repair removes orphaned results but does not add missing ones); the part about the newest user message needs a list that has one at the start, and a queued message counts from the turn that polls it.
- EmbedRuns.ProgressIsStored: about one item, as items share nothing; enqueueing the same chunks again after a failure or cancellation makes a new item, and the age that makes an item stale is not measured.
- UTF-8: the text of the chunker is any sequence of bytes whose continuation bytes come at most three in a row and that starts with none, which is weaker than UTF-8; white space is recognised by its encodings.
- Widths: group numbers, token counts and attempt counters are unbounded; only the stream counters wrap around.
- Floating point: tokens of the rate limiter are real numbers, the trigger of the sliding window is half the budget rounded down, and the compaction budget is a parameter.
- AgentRequests.DropsAtIff: for queued texts that do not read like the runtime's own messages; without that, `AgentRequests.RunHoldsAsked` with `AgentRequests.CutIff` gives the condition on the list.
- The non-streaming loop `send_message`: the same dispatch without the queue of user messages, reading calls out of text as well.
- The compaction before the first request: it is the one modelled after tool calls, applied to the initial list.
- The CWC path and its bridge: the optimiser is an external crate.
- Redaction, quotas beyond yes or no, JSON Schema checks, argument repair, tool execution, model backends, event channels and logging: answers of the environment.
- Wording of memory digests, summaries, nudges and error messages, beyond the prefixes the code itself looks for.
- Agreement between list positions and database sequence numbers (`map_index_to_seq` is modelled as it is), and delivery of every queued message: the refreshed history can move the polling mark past one.
- The order in which hash maps list parents of fan-out batches, how artifacts are grouped into batches, and the concurrency of sibling runs, which share nothing but the database.
- Concurrency of the parallel steps of a group: their outputs arrive in any order, given by the environment.
- The Postgres variant of the rate limiter, and the HTTP layer around both.
- Authentication, routes, UI, sandbox and external tools.
