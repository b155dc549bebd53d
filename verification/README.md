# Verified model of the coding-agent extensions

The repository is a set of extensions for a terminal coding agent. This project models the parts of
it that keep state or read a language, and proves what they promise, with Dafny 4.11. The functions
say what an operation computes; the classes and methods run the way the program does, field by field
and loop by loop, and are proved to do exactly that; the lemmas say what it means for a reader.

| files | part of the system |
|---|---|
| `Prelude.dfy`, `Sorting.dfy` | white space, optional values, sequences, the stable sort |
| `TodoGraph.dfy`, `TodoState.dfy`, `TodoInvariant.dfy`, `TodoEdits.dfy`, `TodoEffects.dfy`, `TodoTool.dfy`, `TodoWidget.dfy`, `TodoWidgetCounts.dfy`, `TodoWidgetOrder.dfy` | the todo list: its cycle check, its reducer and the invariant of every reachable list, what each call does and when it is refused, its log, its widget |
| `Minimap.dfy`, `MinimapTexts.dfy`, `MinimapFocus.dfy`, `MinimapReplies.dfy`, `MinimapInvariant.dfy`, `MinimapContents.dfy`, `MinimapRestore.dfy`, `MinimapReads.dfy`, `MinimapEngine.dfy`, `MinimapRuns.dfy`, `MinimapEffects.dfy` | the sidebar's record: levels of compacted history, saving and restoring, and the engine that updates it while requests are cancelled, fail or arrive late |
| `BookkeepingGrammar.dfy`, `Bookkeeping.dfy` | the recogniser for programs that only keep the todo list |
| `Inspect.dfy`, `InspectRefusals.dfy`, `InspectScanner.dfy`, `InspectWriting.dfy` | the shell splitter behind read-only commands |
| `Runs.dfy`, `RunsMeaning.dfy`, `RunsCalls.dfy`, `RunsTimes.dfy`, `RunFeed.dfy` | runs of tool calls, built from finished messages and from streams |
| `Selection.dfy`, `SelectionLayout.dfy`, `SelectionCopy.dfy` | mapping wrapped rows back to logical lines, and copying them |
| `Peers.dfy`, `Inbox.dfy`, `InboxRun.dfy`, `InboxOrder.dfy`, `InboxSends.dfy` | addressing other sessions, and the inbox of their messages |
| `LedgerData.dfy`, `Ledger.dfy`, `LedgerRuns.dfy`, `LedgerEffects.dfy`, `DirectoryProposal.dfy` | the permission ledger, and proposals of directory access |

`dafny verify dfyconfig.toml` checks the whole project.

## Main results

- **Todo list.** `ReachableInv`: every list that calls and pauses can lead to has an acyclic
  dependency graph, tombstones included, well nested groups with derived status, and active tasks
  with different owners. The iterative cycle check is exact (`WouldCycle`, `CycleCheckExact`), a
  refused call changes nothing, and the log always replays to the list in memory (`Tool`).
  `CreateAccepted`, `UpdateAccepted` and `DeleteAccepted` say exactly which calls go through, and
  `CreateEffect`, `UpdateEffect` and `DeleteEffect` what they leave of every task, said of the list
  before and after and not of how it is computed.
  Compact drawing keeps to its budget and never shows a child without its group;
  `NothingUncounted` says exactly when it counts every row that it does not show.
- **Minimap.** `LevelCaps`: no level ever holds more than six entries although a fold compacts one
  level at most, by a phase invariant over the four counts. `ApplyConserves`, `ApplyPlaced` and
  `NoRepeatsExactly` are about what entries count, where they stand and when they repeat.
  `RunTiles` and `RunUsage`: over every interleaving, applied batches tile the message stream, and
  usage is what the calls begun and reported come to. `SaveAccepted`: no save is ever rejected, and
  when exactly it is read back as it was. `LatestIsShown` and `NotedIsServed`: headline and focus are
  those of the last usable reply, and no notification is lost.
- **Parsers.** `RecognisesExactly` ties the token recogniser to a grammar and to an interpreter of
  its programs. `WrittenReadsBack`: a command written with plain, escaped and quoted words, comments
  and harmless redirections splits into exactly what is meant. `SplitLinesExactly` says which lines
  compose with every next one. `AcceptedIsHarmless` and
  `AcceptedSubstitutesNothing` say what is never let through, wherever text is read plainly or
  between double quotes.
- **Runs.** `RunsAreUnbroken`, `CallsFollow` and `FailedAsSaid` say which calls share a run, which
  thinking goes with a call and when it is drawn as failed, in terms of what the session held and in
  what order. `StreamMessage`: feeding a
  message as it streams leaves the same runs as adding it when it is finished.
- **Copying.** `MappedFaithful`: mapped rows spell the logical lines. `LaidOutIsMapped`: every layout
  wrapped at white space is mapped. `CopyWholeBlock`: copying it all gives the lines back.
- **Sessions.** `PrintedIdResolves`: when a printed short id parses back, exactly. `RunInOrder`:
  the inbox reorders, loses and repeats nothing but what a control drops while it is held, and
  `DuplicateExactly` says what counts as a duplicate. `SentAsItShould` says, over every run, exactly
  which messages start a turn and which are sent as a steer.
- **Permissions.** `RestoreUndoesSnapshot`: saving and restoring loses nothing. `ApprovalGrants` and
  `ApprovalOnly`: an approval grants what it names, to its owner, and nothing else. `IssuedOnceExactly`
  says over every run when a denial id is issued again: when calls are blocked under a record older
  than what was issued, as after going back to an earlier branch (`IssuedTwice`).
  `ProposalStaysWithin`: an accepted proposal grants each directory once, at its own path or the
  file's folder inside it, and never takes writing away; a row may raise reading to writing.

## Conventions

Text is a sequence of Unicode scalar values, where the program counts UTF-16 code units: outside the
basic plane lengths and cuts differ, and halves of a character do not exist. Numbers are unbounded, and
white space is what `trim` and `\s` take for it. Randomness, clocks and answers of the host are
parameters of the step that reads them. Where a type has more fields than the model, those left out are
never read by what is modelled.
Methods that take a ghost parameter take it only to say in their contract what the values are read as.

Places where the code differs from its comments or from what one would expect, and the model
follows the code:

- The comment on `idPrefixes` promises the shortest prefix that no other id shares. When an id is
  itself a prefix of another, its short form is the whole id and the other one does share it. It still
  resolves, since whole ids are looked up first (`ShortIdSeparates`, `PrintedIdResolves`).
- A control that empties the held queue does not stop the timer; the next flush does. The timer is on
  whenever something is held (`HeldIsTimed`), not only then.
- The widget's last line counts missing group headers only when no task is missing
  (`NothingUncounted`, `CountsAddUpExactly`, `HeadersUncounted`). This is about `widgetRows` as it is
  exported: the tool itself draws everything, or a selection of at most five tasks without groups
  (packages/extensions/pi-custom/src/tools/todo.ts:160-170).
- Restoring an older ledger record, or none, gives out ids again (`IssuedOnceExactly`, `IssuedTwice`).
- Cleaning cuts after trimming, so a text cut right behind a space keeps it until it is read back
  (`SaveAccepted`, `CutBehindSpace`). The bullets of a version 1 opening are joined after cleaning, so
  empty ones leave extra spaces until then (`OpeningFits`, `OpeningChanges`).

## Model

| member | source | states |
|---|---|---|
| TodoGraph.SearchFrom | packages/extensions/pi-custom/src/tools/todo-state.ts:70-83 | The work-list search, started from any ids, answers true exactly when one of them reaches the task by zero or more dependencies. It ends because each turn shrinks the unvisited ids or the list. |
| TodoGraph.WouldCycle | packages/extensions/pi-custom/src/tools/todo-state.ts:70-83 | The check as written searches the graph that already holds the new edges, yet its answer is about the old graph: true exactly when an added dependency already reaches the task. |
| TodoGraph.AcyclicExtended | packages/extensions/pi-custom/src/tools/todo-state.ts:225-229 | Adding dependencies that do not reach the task keeps an acyclic graph acyclic. |
| TodoGraph.CyclicExtended | packages/extensions/pi-custom/src/tools/todo-state.ts:225-229 | Adding a dependency that reaches the task always closes a cycle, so the guard refuses nothing that could be kept. |
| TodoState.GroupingError | packages/extensions/pi-custom/src/tools/todo-state.ts:126-136 | No error exactly when every live task passes the grouping rules, checked in list order. |
| TodoState.DependencyError | packages/extensions/pi-custom/src/tools/todo-state.ts:166-170 | When no error is found, every dependency names a listed task and none is the task itself. |
| TodoState.Dedup | packages/extensions/pi-custom/src/tools/todo-state.ts:177 | The same ids, each once. |
| TodoState.RunReduce | packages/extensions/pi-custom/src/tools/todo-state.ts:138-320 | The reducer as it runs, with the search inside, returns what the reduction function specifies for every state and every call. |
| TodoInvariant.GroupingChecked | packages/extensions/pi-custom/src/tools/todo-state.ts:126-136 | With unique ids the grouping check passes exactly on well nested lists: live parents are live top-level groups, groups have no dependencies, nothing depends on a group. |
| TodoInvariant.ProgressMeaning | packages/extensions/pi-custom/src/tools/todo-state.ts:97-107 | A group's status is the fold of its live children: completed if there are some and all are, in progress if any is completed or in progress, pending otherwise. |
| TodoInvariant.DerivingKeepsChildren | packages/extensions/pi-custom/src/tools/todo-state.ts:109-116 | Deriving never changes which live children a group has, nor those children, in a well nested list. |
| TodoInvariant.DeriveGroupsDerives | packages/extensions/pi-custom/src/tools/todo-state.ts:109-116 | After deriving, every live group has the status its children give it. |
| TodoInvariant.DeriveGroupsIdempotent | packages/extensions/pi-custom/src/tools/todo-state.ts:109-116 | Deriving again changes nothing. |
| TodoInvariant.DerivingRestores | packages/extensions/pi-custom/src/tools/todo-state.ts:109-116 | Deriving completes the whole invariant once structure, nesting and exclusivity hold. |
| TodoInvariant.NewTaskAcyclic | packages/extensions/pi-custom/src/tools/todo-state.ts:166-180 | A created task is reached by nobody, so its dependencies cannot close a cycle. |
| TodoInvariant.CreateKeeps | packages/extensions/pi-custom/src/tools/todo-state.ts:163-184 | Creating keeps ids unique and below the next id, dependencies known and acyclic (tombstones included) and active work exclusive. |
| TodoInvariant.CycleCheckExact | packages/extensions/pi-custom/src/tools/todo-state.ts:225-229 | In a state that satisfies the invariant, an update is refused for a cycle exactly when committing it would leave one. |
| TodoInvariant.GraphAfterUpdate | packages/extensions/pi-custom/src/tools/todo-state.ts:218-229 | An update changes the dependency graph at the updated task and nowhere else. |
| TodoInvariant.UpdateKeepsStructure | packages/extensions/pi-custom/src/tools/todo-state.ts:185-260 | An update that is not refused keeps ids unique, every dependency known and the graph acyclic. |
| TodoInvariant.YieldingExcludes | packages/extensions/pi-custom/src/tools/todo-state.ts:143-155 | Returning conflicting tasks to pending leaves the active task and those with other owners as the only active ones. |
| TodoInvariant.UpdateKeepsExclusive | packages/extensions/pi-custom/src/tools/todo-state.ts:138-158 | After an update and the exclusivity rule, any two active tasks have different owners. |
| TodoInvariant.DeleteKeeps | packages/extensions/pi-custom/src/tools/todo-state.ts:302-311 | Deleting leaves a tombstone that keeps its id and dependencies, so structure and exclusivity stay. |
| TodoInvariant.ActionKeeps | packages/extensions/pi-custom/src/tools/todo-state.ts:160-320 | Every action, before grouping is checked and status derived, keeps structure and, after the exclusivity rule, exclusive work. |
| TodoInvariant.EmptyInv | packages/extensions/pi-custom/src/tools/todo-state.ts:51 | The empty list satisfies the invariant. |
| TodoInvariant.ReduceKeeps | packages/extensions/pi-custom/src/tools/todo-state.ts:138-158 | One call keeps the whole invariant, and a refused call changes nothing. |
| TodoInvariant.PauseKeeps | packages/extensions/pi-custom/src/tools/todo-state.ts:119-124 | Pausing keeps the whole invariant and leaves no task active. |
| TodoInvariant.ReachableInv | packages/extensions/pi-custom/src/tools/todo-state.ts:119-158 | Every list that any run of calls and pauses leads to from the empty one satisfies the whole invariant: acyclic dependencies, well nested groups, derived status, exclusive work. |
| TodoInvariant.NextFollows | packages/extensions/pi-custom/src/tools/todo-state.ts:160-311 | An action by itself touches no task but the one it names, and moves that one only along legal transitions. |
| TodoInvariant.CallFollows | packages/extensions/pi-custom/src/tools/todo-state.ts:138-260 | What one call can do to each task: only legal transitions, tombstones stay, groups stay groups, completion carries evidence, acceptance criteria stay, an unnamed task is at most returned to pending, and positions never change. |
| TodoInvariant.StartingExcludes | packages/extensions/pi-custom/src/tools/todo-state.ts:143-155 | After any successful call, two different active tasks have owners that are not blank and differ after trimming. |
| TodoEdits.DependencyErrorExact | packages/extensions/pi-custom/src/tools/todo-state.ts:166-170 | No dependency is refused exactly when each names another task that is listed and live. |
| TodoEdits.CreatedExactly | packages/extensions/pi-custom/src/tools/todo-state.ts:163-170 | A task is created exactly when it has a subject, a completion check unless it is a group, and live dependencies. |
| TodoEdits.CreatedReadsBack | packages/extensions/pi-custom/src/tools/todo-state.ts:171-183 | The new task is found under an id that was not in use, pending, without evidence, with exactly the dependencies asked for; all other tasks stay. |
| TodoEdits.UpdatedExactly | packages/extensions/pi-custom/src/tools/todo-state.ts:185-229 | An update goes through exactly when its task exists, nothing about the task stands against it, what it adds are other live tasks and no cycle is left. |
| TodoEdits.UpdatedLinks | packages/extensions/pi-custom/src/tools/todo-state.ts:218-229 | The dependencies after an update, as a set: the old ones but for those removed, and those added, even if both. |
| TodoEdits.UpdatesCommute | packages/extensions/pi-custom/src/tools/todo-state.ts:230-251 | Two updates of a task that are about different things come to the same in either order, so neither touches what only the other asks for. |
| TodoEdits.ChangesCompose | packages/extensions/pi-custom/src/tools/todo-state.ts:241-249 | Two changes of metadata come to a single one in which the later value of a key counts, nulls included. |
| TodoEdits.ChangeUndone | packages/extensions/pi-custom/src/tools/todo-state.ts:241-249 | Some second change takes a change of metadata back exactly when no key that it is about held a null. |
| TodoEdits.UpdateTwice | packages/extensions/pi-custom/src/tools/todo-state.ts:218-259 | The same update again changes nothing, but for the order of dependencies that it both removes and adds. |
| TodoEdits.LinksReordered | packages/extensions/pi-custom/src/tools/todo-state.ts:218-229 | With an id that is both removed and added the order does change. |
| TodoEdits.UpdateResult | packages/extensions/pi-custom/src/tools/todo-state.ts:143-157 | An update that goes through leads to the committed list, then the exclusivity rule around the updated task, then derived status. |
| TodoEdits.OthersKeepWorking | packages/extensions/pi-custom/src/tools/todo-state.ts:143-155 | Another active task is returned to pending exactly when the updated one is active and their owners do not differ; it goes on unchanged otherwise. |
| TodoEdits.DeletedForever | packages/extensions/pi-custom/src/tools/todo-state.ts:119-260 | Over every run, a deleted task stays deleted, at its place and under its id, whatever follows that does not clear the list. |
| TodoEdits.DeletedForGood | packages/extensions/pi-custom/src/tools/todo-state.ts:302-311 | A deleted task stays as a tombstone with all else it had, and cannot be deleted again. |
| TodoEffects.CreateEffect | packages/extensions/pi-custom/src/tools/todo-state.ts:163-184 | A creation that goes through appends exactly the task asked for, pending and under the next id, and changes nothing else but the status that groups show. |
| TodoEffects.CreateAccepted | packages/extensions/pi-custom/src/tools/todo-state.ts:126-184 | A creation goes through exactly when what it asks for has a subject, a completion check unless it is a group, dependencies that are listed and live, and nests. |
| TodoEffects.UpdateEffect | packages/extensions/pi-custom/src/tools/todo-state.ts:138-260 | After an update that is not refused the task found under the id has the requested status, subject, description, active form, owner, parent, kind, trimmed criteria, trimmed evidence, dependencies and metadata, or its old ones where none were asked for; a group has the status of its children; every other task stays, but for those that yield. |
| TodoEffects.UpdateAccepted | packages/extensions/pi-custom/src/tools/todo-state.ts:126-229 | An update goes through exactly when what it asks for may be asked of the task, what it adds is listed and live and does not wait for the task, and the list still nests. |
| TodoEffects.MovesListed | packages/extensions/pi-custom/src/tools/todo-state.ts:53-58 | The legal moves are the seven of the table. |
| TodoEffects.EveryMoveReached | packages/extensions/pi-custom/src/tools/todo-state.ts:53-58 | Each of them is made by some call: in every list of the invariant the call is accepted, and the task then has that status. |
| TodoEffects.AskableExactly | packages/extensions/pi-custom/src/tools/todo-state.ts:185-217 | What may be asked of a task, before others are looked at, said as one condition. |
| TodoEffects.DeleteEffect | packages/extensions/pi-custom/src/tools/todo-state.ts:302-311 | A deletion leaves a tombstone in its place, and nothing else changes but what groups show. |
| TodoEffects.DeleteAccepted | packages/extensions/pi-custom/src/tools/todo-state.ts:302-307 | A deletion goes through exactly when it names a task that is listed and live. |
| TodoEffects.ClearAndReadEffect | packages/extensions/pi-custom/src/tools/todo-state.ts:261-320 | Clearing leaves the empty list and the first id, and listing or getting changes nothing; getting fails exactly without a listed id. |
| TodoEffects.PauseEffect | packages/extensions/pi-custom/src/tools/todo-state.ts:119-124 | Pausing returns exactly the tasks in progress to pending, and nothing else changes but what groups show. |
| TodoEffects.RefusalMeans | packages/extensions/pi-custom/src/tools/todo-state.ts:138-320 | Whatever call is refused, the error names what is wrong with it. |
| TodoEffects.UpdateErrorMeans | packages/extensions/pi-custom/src/tools/todo-state.ts:185-217 | Whatever reason is reported against an update of a task is so, said of the task and what was asked. |
| TodoEffects.DependencyErrorMeans | packages/extensions/pi-custom/src/tools/todo-state.ts:166-170 | The dependency reported is one that was asked for and is missing, deleted or the task itself. |
| TodoEffects.GroupingErrorMeans | packages/extensions/pi-custom/src/tools/todo-state.ts:126-136 | The grouping error reported is broken by a live task of the list. |
| TodoTool.Replay | packages/extensions/pi-custom/src/tools/todo-state.ts:323-336 | The backwards scan of the log returns the last recorded list, derived, or the empty one. |
| TodoTool.ReplayedInv | packages/extensions/pi-custom/src/tools/todo-state.ts:323-336 | Any branch of a written log replays to a list that satisfies the invariant. |
| TodoTool.ReplayedLast | packages/extensions/pi-custom/src/tools/todo-state.ts:323-336 | Replay gives back the last recorded list itself, whatever follows that is not a todo entry. |
| TodoTool.Tool.Execute | packages/extensions/pi-custom/src/tools/todo.ts:231-247 | One call moves the list as the reducer says and logs the resulting list even when it was refused; a refused call leaves the list as it was, and a log that replays to the list in memory still does. |
| TodoTool.Tool.PauseWork | packages/extensions/pi-custom/src/tools/todo.ts:107-112 | Pausing appends exactly one entry when something was active and nothing otherwise; nothing is active afterwards and the log still replays to the list. |
| TodoTool.Tool.Append | packages/extensions/pi-custom/src/tools/todo-state.ts:330-331 | Entries that are not the tool's own do not disturb the replay. |
| TodoTool.Tool.Load | packages/extensions/pi-custom/src/tools/todo.ts:114-128 | Loading any branch adopts its replayed list, and with pausing leaves nothing active and says so in the log; a branch that the tool wrote leaves the list valid and replaying. |
| TodoWidget.Select | packages/extensions/pi-custom/src/tools/todo-state.ts:388-409 | The budgeted loop over the ordered blocks draws the first rows, up to the budget, of all the rows the blocks offer. |
| TodoWidget.WidgetRows | packages/extensions/pi-custom/src/tools/todo-state.ts:355-449 | The widget without a width draws a heading, the selected rows and, when rows were left out, the last line: task counts if a task is missing, and else the number of headers. |
| TodoWidget.LineCap | packages/extensions/pi-custom/src/tools/todo-state.ts:386-389 | Compact drawing takes at most `max(3, maxLines)` lines. |
| TodoWidget.FinishedGroup | packages/extensions/pi-custom/src/tools/todo-state.ts:405 | In a reachable list a finished group has only finished children, so filtering finished rows never drops a header and keeps a child. |
| TodoWidget.DrawnHeadersPrecede | packages/extensions/pi-custom/src/tools/todo-state.ts:399-409 | In a reachable list no child row is drawn without its group's header row above it. |
| TodoWidget.HeadersInLines | packages/extensions/pi-custom/src/tools/todo-state.ts:366-449 | The same of the lines themselves. |
| TodoWidget.OverflowDrawsUnfinished | packages/extensions/pi-custom/src/tools/todo-state.ts:403-409 | When rows are left out, no drawn row is finished, and if there was room left no unfinished row is missing. |
| TodoWidgetCounts.VisibleRows | packages/extensions/pi-custom/src/tools/todo-state.ts:365-378 | The rows, said of the tasks: top-level tasks that show, headers of groups unless all children are hidden (or the group is and nothing unfinished shows), and the showing children of expanded groups. No other row is drawn or counted. |
| TodoWidgetCounts.HeadingAdds | packages/extensions/pi-custom/src/tools/todo-state.ts:381-384 | The completed, active and pending tasks of the heading are all the live tasks that are not groups. |
| TodoWidgetCounts.DrawnOnce | packages/extensions/pi-custom/src/tools/todo-state.ts:363-409 | No row is drawn twice, and rows drawn and rows left out are together the visible ones. |
| TodoWidgetCounts.NothingUncounted | packages/extensions/pi-custom/src/tools/todo-state.ts:440-447 | What the last line counts and the rows drawn add up to the visible rows exactly when not both a task and a group header are left out; when both are, precisely the headers go uncounted. |
| TodoWidgetCounts.LeftOutExactly | packages/extensions/pi-custom/src/tools/todo-state.ts:399-409 | Left out are exactly the visible rows that are finished and those unfinished ones for which, in the order of rank, there is no room. |
| TodoWidgetCounts.CountsAddUpExactly | packages/extensions/pi-custom/src/tools/todo-state.ts:386-447 | Said before anything is drawn: under overflow the counts add up exactly when what is finished or finds no room are not both tasks and headers. |
| TodoWidgetCounts.HeadersUncounted | packages/extensions/pi-custom/src/tools/todo-state.ts:440-447 | They do not for a list that four calls reach, given to the drawing function itself: of two groups with a task each one row is drawn in three lines, and a header is neither drawn nor counted. |
| TodoWidgetCounts.RankedAlikeInOrder | packages/extensions/pi-custom/src/tools/todo-state.ts:397-402 | Blocks that rank alike, and children of a group that rank alike, come in the order of the list. |
| TodoWidgetCounts.LeastRankMeaning | packages/extensions/pi-custom/src/tools/todo-state.ts:394-396 | A group ranks as its best live child, and with finished work when it has none. |
| TodoWidgetCounts.WorkFirst | packages/extensions/pi-custom/src/tools/todo-state.ts:397-409 | An unfinished row is left out only behind drawn rows: every drawn row's block ranks at least as urgent as its own. |
| TodoWidgetOrder.RankedByUrgency | packages/extensions/pi-custom/src/tools/todo-state.ts:390-396 | One task ranks before another exactly when it is in progress and the other is not, or is pending and the other completed, or both are pending and only the other waits for something. |
| TodoWidgetOrder.UrgentFirst | packages/extensions/pi-custom/src/tools/todo-state.ts:397-409 | A row is left out only behind rows of blocks that have something no less urgent for each unfinished thing its own block has. |
| TodoWidgetOrder.DrawnInOrder | packages/extensions/pi-custom/src/tools/todo-state.ts:397-409 | Rows are drawn in that order, and so are the children of a group. |
| TodoWidgetOrder.HeadingMeans | packages/extensions/pi-custom/src/tools/todo-state.ts:380-384 | The heading has the numbers of live tasks that are no groups, completed, in progress, pending and all, and says whether something unfinished shows. |
| TodoWidgetOrder.SummaryMeans | packages/extensions/pi-custom/src/tools/todo-state.ts:440-447 | The last line has the numbers of unfinished and of completed tasks that show but are not drawn, or, if there are none, that of the headers. |
| TodoWidgetOrder.LineCount | packages/extensions/pi-custom/src/tools/todo-state.ts:386-449 | How many lines there are: none, or a heading and all rows when they fit, or as many unfinished rows as fit between the heading and the last line. |
| Minimap.HistoryCompaction | packages/extensions/pi-minimap/src/state.ts:67-73 | The loop over the levels finds the oldest three positions of the lowest level that holds six, and the level above it. |
| Minimap.CompactedLevel | packages/extensions/pi-minimap/src/state.ts:67-73 | The level compacted is the lowest full one; there is none exactly when no level is full. |
| Minimap.DuplicateOf | packages/extensions/pi-minimap/src/state.ts:642-645 | The first kept entry whose normalised text is that of the new beat, for any normalisation. |
| MinimapInvariant.CompactedSplit | packages/extensions/pi-minimap/src/state.ts:676-681 | Compaction replaces three neighbouring entries of the lowest full level by one entry of the next level, in place, and touches nothing around them. |
| MinimapInvariant.CompactedKeepsLevels | packages/extensions/pi-minimap/src/state.ts:676-681 | Compaction keeps the levels within 1 to 4 and non-increasing, and makes the history two shorter when some level is full. |
| MinimapInvariant.FullHistoryCompacts | packages/extensions/pi-minimap/src/state.ts:60-73 | By pigeonhole a history of more than twenty entries has a full level. |
| MinimapInvariant.ApplyWellFormed | packages/extensions/pi-minimap/src/state.ts:623-696 | From any accepted snapshot an update keeps history within 24, recent within 6 and the levels in order. |
| MinimapInvariant.UpdatesWellFormed | packages/extensions/pi-minimap/src/state.ts:623-696 | So does any number of updates. |
| MinimapInvariant.FoldKeepsPhase | packages/extensions/pi-minimap/src/state.ts:669-683 | The phase that ties the four level counts together is kept by a fold, although it compacts only one level. |
| MinimapInvariant.VersionOneStarts | packages/extensions/pi-minimap/src/state.ts:485-492 | What is restored from a version 1 record is well formed and in phase. |
| MinimapInvariant.LevelCaps | packages/extensions/pi-minimap/src/state.ts:623-696 | From the empty snapshot or a version 1 one, no level ever holds more than six entries, however many updates follow. |
| MinimapInvariant.CompactedConserves | packages/extensions/pi-minimap/src/state.ts:673-680 | Compaction keeps the total of omitted events. |
| MinimapInvariant.FoldConserves | packages/extensions/pi-minimap/src/state.ts:669-683 | So does a whole fold. |
| MinimapInvariant.ApplyConserves | packages/extensions/pi-minimap/src/state.ts:629-693 | An update changes the total of omitted events by exactly the batch's count when a beat is recorded, minus those of the entries dropped. |
| MinimapInvariant.ApplyPlaced | packages/extensions/pi-minimap/src/state.ts:623-696 | Along history and recent the entries' first messages strictly increase in the transcript, and each entry ends between its start and the last message read; an update of later messages keeps this. |
| MinimapContents.ReviseContents | packages/extensions/pi-minimap/src/state.ts:649-664 | A revision keeps exactly the entries that are not dropped, in order, each as it was but for the one revised. |
| MinimapContents.QuietContents | packages/extensions/pi-minimap/src/state.ts:649-668 | Without a beat the kept entries stay as they are and nothing is folded. |
| MinimapContents.ReplacedContents | packages/extensions/pi-minimap/src/state.ts:649-668 | A beat that replaces an entry rewrites it: text, tone and end are new, the kind if one is given, the time unless it read like the beat already, counts add up and the beginning stays; the other kept entries stay as they are, in order. |
| MinimapContents.AddedContents | packages/extensions/pi-minimap/src/state.ts:669-693 | A new beat comes last, with all the batch and the summary say; the kept entries stay in order, but when there are six the three oldest become one in the history, after a compaction. |
| MinimapContents.NoRepeatsExactly | packages/extensions/pi-minimap/src/state.ts:642-664 | From entries that do not read alike, a beat leaves such entries exactly when no other kept entry reads like it; unless the reply chose what to replace, it always does. |
| MinimapRestore.ReadBatchCovers | packages/extensions/pi-minimap/src/state.ts:363-376 | A batch covers everything unread: it runs from the first to the last unread message, and its events and omitted count add up to their number. There is none exactly when nothing is unread; when the last id read is gone, everything is unread. |
| MinimapRestore.SampledIds | packages/extensions/pi-minimap/src/state.ts:366-370 | The events are all the unread messages, or when there are too many the first two and the latest. |
| MinimapTexts.CleanTidies | packages/extensions/pi-minimap/src/state.ts:100-106 | Cleaning leaves a text within the limit, with no control character and no white space but single spaces, and none in front. |
| MinimapTexts.CleanAgain | packages/extensions/pi-minimap/src/state.ts:100-106 | Cleaning such a text again takes away a space that it was cut behind, and nothing else. |
| MinimapTexts.CutBehindSpace | packages/extensions/pi-minimap/src/state.ts:504 | A headline whose space falls on its last place is cut behind it, and reads back one shorter. |
| MinimapTexts.JoinedTidy | packages/extensions/pi-minimap/src/state.ts:490 | Cleaned texts joined by spaces have single inner spaces and none in front exactly when no text before the last is empty or ends in a space. |
| MinimapFocus.ParsedFits | packages/extensions/pi-minimap/src/state.ts:514-545 | Whatever topics a focus is read from, it has one or two, with cleaned texts of at most 64 characters and at most three subtopics each, shared out so that sharing them again changes nothing. |
| MinimapFocus.FocusAgain | packages/extensions/pi-minimap/src/state.ts:514-545 | Reading a parsed focus again gives the same exactly when none of its texts is empty or was cut behind a space. |
| MinimapReplies.ParsedIsClean | packages/extensions/pi-minimap/src/state.ts:566-621 | Whatever a reply holds, the summary it stands for has clean texts within their limits, a focus as above and a known kind, and a reply that only adds brings the texts that a fold asks for. |
| MinimapReplies.ApplyFits | packages/extensions/pi-minimap/src/state.ts:623-696 | Applying such a summary leaves every text of the record within its limit, and times, kinds and levels that restoring keeps; where the history was tidy it stays so. |
| MinimapContents.FoldsHaveTexts | packages/extensions/pi-minimap/src/state.ts:592-602 | Whatever is folded away or compacted gets a text of its own: a reply without one is accepted only when it leaves room. |
| MinimapContents.PlaceMeans | packages/extensions/pi-minimap/src/state.ts:635-641 | A beat goes in the place it names, or else in that of the first kept entry that reads like it, or is new. |
| MinimapContents.MergeMeans | packages/extensions/pi-minimap/src/state.ts:669-675 | Three entries become one from the first to the last, at the last one's time, a recap if one of them is, with their counts added up. |
| MinimapRestore.RestoreBranch | packages/extensions/pi-minimap/src/state.ts:438-512 | The backwards scan returns the latest saved record that is accepted, with its texts cleaned again, a version 1 opening made of its bullets and the focus read again, or the empty one. |
| MinimapRestore.OpeningFits | packages/extensions/pi-minimap/src/state.ts:485-491 | The bullets of an accepted version 1 opening, cleaned and joined, are within the history's limit, and have single inner spaces and none in front exactly when no bullet before the last is cleaned to nothing or cut behind a space. |
| MinimapRestore.RestoredOne | packages/extensions/pi-minimap/src/state.ts:438-512 | Whatever one record holds, what is read back of it is within all limits, in phase if it is of version 1, and tidy exactly when it is of version 2 or its opening is. |
| MinimapRestore.RestoredWellFormed | packages/extensions/pi-minimap/src/state.ts:438-512 | Whatever records a branch holds, what is restored is within all limits; if all are of version 1 it is also in phase. |
| MinimapRestore.OpeningChanges | packages/extensions/pi-minimap/src/state.ts:485-491 | Bullets of which the first is empty leave an opening with a space in front; once saved, it reads back without it. |
| MinimapRestore.SaveAccepted | packages/extensions/pi-minimap/src/state.ts:438-512 | A record that the engine saves is never rejected, whatever older records the branch holds, and is restored with its texts cleaned and its focus read again: exactly itself if and only if that changes none of them. |
| MinimapRestore.TidyReread | packages/extensions/pi-minimap/src/state.ts:472-481 | Of a tidy record, reading back takes away spaces that texts were cut behind, and changes nothing else but the focus. |
| MinimapRestore.ApplyAdvances | packages/extensions/pi-minimap/src/state.ts:667-695 | Applying a batch that covers the messages after the cursor keeps the record sound and moves the cursor to the end of that batch. |
| MinimapReads.CleanKeepsWords | packages/extensions/pi-minimap/src/state.ts:100-106 | Cleaning keeps the words of a text and their order, until the text is cut. |
| MinimapReads.ReplyTexts | packages/extensions/pi-minimap/src/state.ts:606-621 | The texts of a reply are taken over cleaned, and a reply without a headline gets one from its topics. |
| MinimapReads.ReplyMarks | packages/extensions/pi-minimap/src/state.ts:606-621 | Its tone and positions are taken over as they are, and its kind if it is one of the six. |
| MinimapReads.ReplyRefused | packages/extensions/pi-minimap/src/state.ts:576-605 | A reply is refused exactly when a text is too long, it gives neither headline nor focus, names positions that cannot be, or lacks a text that a fold needs. |
| MinimapReads.FocusMeans | packages/extensions/pi-minimap/src/state.ts:514-549 | A focus is the first two topics that say something, with the first of their subtopics that do, in four lines: of two topics the first leaves a line to the second if that has subtopics. |
| MinimapReads.RestoresExactly | packages/extensions/pi-minimap/src/state.ts:384-512 | Restoring takes a record exactly when its messages are on the branch, its texts and lists within their limits, its usage possible and its levels in order. |
| MinimapReads.RestoredIsReadBack | packages/extensions/pi-minimap/src/state.ts:438-512 | Each entry of a record is read back in its place, cleaned, without a time, kind or level that is none, and so are headline, focus and how far it had read. |
| MinimapReads.FirstIsReadBack | packages/extensions/pi-minimap/src/state.ts:472-512 | A version 1 record begins with its opening at the highest level and goes on with its chapters at the lowest, each read back in the same way. |
| MinimapReads.BatchReads | packages/extensions/pi-minimap/src/state.ts:305-382 | A batch has the unread ids in order, or of too many the first two and the latest, counts the rest, and has the last message's time. |
| MinimapEngine.Record.ApplySummary | packages/extensions/pi-minimap/src/state.ts:623-696 | The update in place equals the specified one field by field; an invalid revision is refused before any field changes. |
| MinimapEngine.Engine.Handle | packages/extensions/pi-minimap/src/engine.ts:70-241 | Any event takes the engine, field by field, to the state that the step function gives. |
| MinimapEngine.RunEngine | packages/extensions/pi-minimap/src/engine.ts:51-241 | Over every list of events the engine is, field by field, where the run of the step function is. |
| MinimapRuns.TiledSum | packages/extensions/pi-minimap/src/engine.ts:167-207 | Batches that tile a stretch of the stream have events and omitted counts that add up to its length. |
| MinimapRuns.RunSound | packages/extensions/pi-minimap/src/engine.ts:70-241 | Every interleaving keeps the record and all saves acceptable, a request about the messages right after the cursor, and no notification lost while the panel shows. |
| MinimapRuns.LoadedSound | packages/extensions/pi-minimap/src/engine.ts:51-68 | An engine over a record that stands in its stream, with texts within their limits and usage that restoring accepts, starts sound. |
| MinimapRuns.SavesAreRestored | packages/extensions/pi-minimap/src/engine.ts:229-233 | Every save of a run, whatever record it started from, is given back by restoring with its texts cleaned again, and exactly if and only if that changes none. |
| MinimapRuns.RunTidy | packages/extensions/pi-minimap/src/engine.ts:229-233 | From a tidy record every save of a run is tidy. |
| MinimapRuns.StepApplies | packages/extensions/pi-minimap/src/engine.ts:191-208 | The record changes only at a result that is applied, and then the cursor moves over exactly that request's batch. |
| MinimapRuns.RunTiles | packages/extensions/pi-minimap/src/engine.ts:109-227 | Over every interleaving, the batches applied cover the stream from where the record stood to where it stands, one after another, without gap or overlap; their events and omitted counts add up to the distance. |
| MinimapRuns.RunStream | packages/extensions/pi-minimap/src/engine.ts:109-118 | The stream is what it was and the messages that came, those without an id of their own left out. |
| MinimapRuns.RunUsage | packages/extensions/pi-minimap/src/engine.ts:165-190 | Over every interleaving, usage is what the calls that began and those of them that reported come to, whatever became of their results. |
| MinimapRuns.RunBalances | packages/extensions/pi-minimap/src/state.ts:410-414 | From empty usage, requests are the calls begun, requests less the unknown are the calls that reported tokens or a cost, and the unknown stay between 0 and the requests. |
| MinimapRuns.Cancels | packages/extensions/pi-minimap/src/engine.ts:70-92 | Hiding a panel that shows, switching models, disposing and running out of time supersede the request in progress. |
| MinimapRuns.CancelledForGood | packages/extensions/pi-minimap/src/engine.ts:191-199 | A superseded request stays so until it ends, whatever happens meanwhile, showing again included. |
| MinimapRuns.SupersededChangesNothing | packages/extensions/pi-minimap/src/engine.ts:175-199 | A superseded result changes neither the record nor the cursor, but its tokens are counted. |
| MinimapRuns.RefreshedExactly | packages/extensions/pi-minimap/src/engine.ts:109-136 | A free and visible engine sends a request exactly when something is unread and it was forced, is catching up, saw a boundary or has five messages; the request is about exactly the unread messages, a recap exactly when catching up or about more than eight, and nothing unread ends the catching up. |
| MinimapRuns.HiddenBeginsNothing | packages/extensions/pi-minimap/src/engine.ts:109-110 | A hidden engine begins nothing until it is shown. |
| MinimapRuns.DisposedRests | packages/extensions/pi-minimap/src/engine.ts:229-241 | A disposed engine neither records nor saves anything any more. |
| MinimapEffects.SummaryTakenOver | packages/extensions/pi-minimap/src/state.ts:629-694 | A summary is taken over exactly when it names entries that are there and none in two ways, and then headline, focus and cursor are its own, whichever branch is taken. |
| MinimapEffects.StepTakesOver | packages/extensions/pi-minimap/src/engine.ts:191-208 | The record changes only at a result of a request that was not superseded, whose reply is a good one; then headline and focus are the reply's, the cursor is the batch's end, and what results is saved. |
| MinimapEffects.LatestIsShown | packages/extensions/pi-minimap/src/engine.ts:109-227 | Over every run, headline and focus are those of the last summary taken over, or those of the start. |
| MinimapEffects.NotedIsServed | packages/extensions/pi-minimap/src/engine.ts:70-136 | Over every run, after each notification to a panel that stays shown the engine looks whether something is to be sent, or still has a timer or a request to wait for. |
| MinimapEffects.FlagsFollow | packages/extensions/pi-minimap/src/engine.ts:70-108 | The panel shows what it was told last, a disposed engine shows nothing more, and each switch changes the model. |
| MinimapEffects.RequestFollows | packages/extensions/pi-minimap/src/engine.ts:153-226 | A request ends when it resolves or is rejected, whatever comes of it, a rejected one changes nothing that is kept, and only the first report that its call began counts it. |
| MinimapEffects.RunKeepsUp | packages/extensions/pi-minimap/src/engine.ts:165-233 | Over every run that does not dispose of the engine, whatever changed in record or usage since the start has been saved, as it is now. |
| MinimapEffects.RunTotals | packages/extensions/pi-minimap/src/engine.ts:175-187 | Over every run, tokens and costs are those at the start and those of all reports, added up. |
| BookkeepingGrammar.ProgramRoundTrip | packages/extensions/pi-permissions/src/auto/bookkeeping.ts:59-75 | Completeness: every program of the grammar within the limits is read back from its printing. |
| BookkeepingGrammar.ProgramSound | packages/extensions/pi-permissions/src/auto/bookkeeping.ts:59-75 | Soundness: whatever is read is a program within the limits, and its printing is the token list. |
| BookkeepingGrammar.StatementRoundTrip | packages/extensions/pi-permissions/src/auto/bookkeeping.ts:59-72 | The same for one statement followed by anything. |
| BookkeepingGrammar.StatementSound | packages/extensions/pi-permissions/src/auto/bookkeeping.ts:59-72 | A statement that is read is good, and its printing is what was consumed. |
| BookkeepingGrammar.CallRoundTrip | packages/extensions/pi-permissions/src/auto/bookkeeping.ts:28-58 | A good call, shown or not, is read back whatever follows. |
| BookkeepingGrammar.CallSound | packages/extensions/pi-permissions/src/auto/bookkeeping.ts:28-58 | A call that is read has distinct keys, an action, and an id exactly when the action needs one. |
| BookkeepingGrammar.IdsRoundTrip | packages/extensions/pi-permissions/src/auto/bookkeeping.ts:63-64 | A list of 1 to 128 safe ids is read back. |
| Bookkeeping.RecognisesExactly | packages/extensions/pi-permissions/src/auto/bookkeeping.ts:4-75 | A token list has a kind exactly when it is the printing of a good program that makes 1 to 256 calls, and the kind is coordination exactly when one of them deletes. |
| Bookkeeping.PrintInjective | packages/extensions/pi-permissions/src/auto/bookkeeping.ts:4-75 | No two programs print alike, so the kind depends on the program alone. |
| Bookkeeping.CallsAdded | packages/extensions/pi-permissions/src/auto/bookkeeping.ts:68-73 | One more statement adds to the counter the calls it would make, and to the flag whether it deletes. |
| Bookkeeping.Recogniser.Take | packages/extensions/pi-permissions/src/auto/bookkeeping.ts:19 | Takes one token if it is next, and nothing otherwise. |
| Bookkeeping.Recogniser.Sequence | packages/extensions/pi-permissions/src/auto/bookkeeping.ts:20 | Succeeds exactly when the tokens are next, and takes them. |
| Bookkeeping.Recogniser.PositiveId | packages/extensions/pi-permissions/src/auto/bookkeeping.ts:21-26 | Takes exactly a safe positive literal. |
| Bookkeeping.Recogniser.ReadProperty | packages/extensions/pi-permissions/src/auto/bookkeeping.ts:36-51 | Reads one property as the grammar does, and refuses one whose key was seen. |
| Bookkeeping.Recogniser.ReadInner | packages/extensions/pi-permissions/src/auto/bookkeeping.ts:31-53 | Reads the object of one call as the grammar does; whether it names an id follows its properties. |
| Bookkeeping.Recogniser.ReadCall | packages/extensions/pi-permissions/src/auto/bookkeeping.ts:28-58 | Reads one call exactly when the grammar does, and remembers deletions. |
| Bookkeeping.Recogniser.ReadIds | packages/extensions/pi-permissions/src/auto/bookkeeping.ts:63-64 | Reads the ids of a loop exactly when the grammar does, and counts them. |
| Bookkeeping.Recogniser.ReadLoop | packages/extensions/pi-permissions/src/auto/bookkeeping.ts:61-68 | Reads a whole loop exactly when the grammar does. |
| Bookkeeping.Recogniser.ReadStatement | packages/extensions/pi-permissions/src/auto/bookkeeping.ts:59-73 | Each turn of the main loop reads further into the same program, or the token list is no program. |
| Bookkeeping.BookkeepingKind | packages/extensions/pi-permissions/src/auto/bookkeeping.ts:16-75 | The cursor-driven recogniser returns exactly the specified kind for every token list. |
| Bookkeeping.GoodCallMeans | packages/extensions/pi-permissions/src/auto/bookkeeping.ts:28-58 | A call is good exactly if it lists and names no todo, or gets or deletes one that it names, before or after the action: a literal id from 1 to the greatest safe integer, or in a loop its variable. |
| Bookkeeping.GoodLoopMeans | packages/extensions/pi-permissions/src/auto/bookkeeping.ts:61-68 | A loop is good exactly over 1 to 128 such ids with a good call in it. |
| Bookkeeping.CallMeans | packages/extensions/pi-permissions/src/auto/bookkeeping.ts:28-58 | A call does what it names to the todo that it names, in a loop to that of the turn. |
| Bookkeeping.ProgramMeans | packages/extensions/pi-permissions/src/auto/bookkeeping.ts:59-75 | A program makes one call for each that stands alone and for each id of a loop, and deletes exactly if one of its calls does. |
| Inspect.SegmentsNonEmpty | packages/extensions/pi-custom/src/ui/inspect.ts:44-48 | No program in the result is empty. |
| Inspect.SplitExtends | packages/extensions/pi-custom/src/ui/inspect.ts:96-136 | From any state of the scanner, what precedes a newline splits as it does alone, and the rest as if it stood alone, unless it ends on a backslash that escapes nothing. |
| Inspect.SplitLines | packages/extensions/pi-custom/src/ui/inspect.ts:96-136 | Two lines split into the programs of the first followed by those of the second, unless scanning the first ends on a backslash that escapes nothing; they are refused exactly when the second is. |
| Inspect.SplitLinesExactly | packages/extensions/pi-custom/src/ui/inspect.ts:96-136 | A line that splits composes with every next line exactly when scanning it does not end on a backslash that escapes nothing; if it does, it composes with no line of one letter. |
| Inspect.DanglesEnds | packages/extensions/pi-custom/src/ui/inspect.ts:68-72 | Only a line whose last character is a backslash can end so; an escaped, quoted or commented one does not. |
| Inspect.BackslashJoins | packages/extensions/pi-custom/src/ui/inspect.ts:101-103 | A line that ends in a backslash is joined to the next: two one-letter words become one. |
| Inspect.InspectionLines | packages/extensions/pi-custom/src/ui/inspect.ts:340-344 | Where the first line does not end on such a backslash, two lines are an inspection exactly when each that runs anything is one and some line does; for two lines that both do, exactly when both are. |
| Inspect.WordsUnquote | packages/extensions/pi-custom/src/ui/inspect.ts:51-94 | A printed list of words is read back, whatever follows. |
| Inspect.QuotingRoundTrip | packages/extensions/pi-custom/src/ui/inspect.ts:51-136 | Printing any programs with every word in single quotes, separated by newline, semicolon, `&&`, `\|\|` or `\|`, splits into exactly those programs and words. |
| InspectRefusals.RedirectionRead | packages/extensions/pi-custom/src/ui/inspect.ts:139-151 | Any redirection operator with any quoted target is read as one operator and one target, and judged by both. |
| InspectRefusals.RedirectionAccepted | packages/extensions/pi-custom/src/ui/inspect.ts:139-151 | A redirection after some words is passed over exactly when it reads, copies a descriptor or writes into a sink, and its target is no argument; otherwise the whole command is refused, whatever follows. |
| InspectRefusals.SubstitutionRefused | packages/extensions/pi-custom/src/ui/inspect.ts:64-67 | A substitution, a backtick or a parenthesis right behind words or after a blank is refused, whatever follows, on the first line or after any lines that are accepted. |
| InspectRefusals.AcceptedIsHarmless | packages/extensions/pi-custom/src/ui/inspect.ts:96-151 | Wherever the main loop stands in a command that is accepted, no substitution or subshell begins, and a redirection writes nowhere but into a sink. |
| InspectRefusals.AcceptedSubstitutesNothing | packages/extensions/pi-custom/src/ui/inspect.ts:51-151 | In a command that is accepted no substitution begins anywhere in text that is read plainly or between double quotes, in words as in the targets of redirections. |
| InspectRefusals.QuotedSubstitution | packages/extensions/pi-custom/src/ui/inspect.ts:73-91 | Substitutions are refused inside double quotes too, and are plain text inside single ones. |
| InspectWriting.WrittenReadsBack | packages/extensions/pi-custom/src/ui/inspect.ts:30-151 | However a command is written, in words of plain, escaped, single-quoted and double-quoted characters and continued lines, with blanks, separators, comments and redirections that write nothing between them, it splits into exactly the programs and words that are meant. |
| InspectWriting.WordScanned | packages/extensions/pi-custom/src/ui/inspect.ts:51-94 | Any such word is read as it was meant wherever a word may begin, a number sign or dollar inside it included. |
| InspectWriting.NumberSign | packages/extensions/pi-custom/src/ui/inspect.ts:107-108 | Where a word may begin a number sign drops exactly the text up to the next newline; inside a word it is part of it. |
| InspectWriting.RedirectionScans | packages/extensions/pi-custom/src/ui/inspect.ts:119-151 | A redirection to any such word, in any state of the scanner, is passed over exactly when it writes nothing, with a descriptor before it; otherwise the scanner stops and the command is refused. |
| InspectWriting.HarmlessMeans | packages/extensions/pi-custom/src/ui/inspect.ts:146-151 | What writes nothing: reading, copying or closing a descriptor, and writing into one of three places but for an operator that also reads. |
| InspectScanner.SingleByIndex | packages/extensions/pi-custom/src/ui/inspect.ts:73-79 | Slicing up to the next single quote found by index is reading it character by character. |
| InspectScanner.Scanner.Double | packages/extensions/pi-custom/src/ui/inspect.ts:80-91 | The loop over a double-quoted string reads what the specification reads and leaves the index after it. |
| InspectScanner.Scanner.Piece | packages/extensions/pi-custom/src/ui/inspect.ts:64-94 | One quoted string, escape or character, read off the index. |
| InspectScanner.Scanner.Word | packages/extensions/pi-custom/src/ui/inspect.ts:51-61 | One word, read off the index. |
| InspectScanner.Scanner.Operator | packages/extensions/pi-custom/src/ui/inspect.ts:140-141 | An operator of at most three characters. |
| InspectScanner.Scanner.Redirection | packages/extensions/pi-custom/src/ui/inspect.ts:139-151 | Accepts a redirection exactly when it writes nowhere but into a sink. |
| InspectScanner.Scanner.Comment | packages/extensions/pi-custom/src/ui/inspect.ts:107-108 | Skips to the end of the line. |
| InspectScanner.Turned | packages/extensions/pi-custom/src/ui/inspect.ts:96-134 | One turn of the main loop does what one step of the specification does, state and rest included. |
| InspectScanner.RunSplit | packages/extensions/pi-custom/src/ui/inspect.ts:30-136 | The index-driven splitter returns what the specification returns for every command. |
| Runs.Mark | packages/extensions/pi-custom/src/ui/group.ts:191-199 | The first call of that id becomes the marked one, and every other call stays as it is. |
| Runs.AddPartSound | packages/extensions/pi-custom/src/ui/group.ts:144-178 | Adding any part keeps every call in one run and once in it, runs named after their first call, joined and standalone calls apart, and only the last run open. |
| Runs.SetFailedSound | packages/extensions/pi-custom/src/ui/group.ts:191-199 | So does marking a call. |
| Runs.AddMessageSound | packages/extensions/pi-custom/src/ui/group.ts:125-141 | So does adding any whole message. |
| Runs.LoadSound | packages/extensions/pi-custom/src/ui/group.ts:109-122 | Loading any branch gives sound runs, all closed. |
| Runs.OneHeaderPerRun | packages/extensions/pi-custom/src/ui/group.ts:418-431 | Exactly one call of each run draws its header, the first. |
| RunsMeaning.BranchFold | packages/extensions/pi-custom/src/ui/group.ts:109-141 | Loading a branch goes through its parts, breaks and failures one at a time, in order. |
| RunsMeaning.NewToModel | packages/extensions/pi-custom/src/ui/group.ts:156-157 | A call is taken exactly when no call of its id came before. |
| RunsMeaning.RunsAreUnbroken | packages/extensions/pi-custom/src/ui/group.ts:109-178 | What runs mean: two calls that fold are in the same run exactly when no prose, no call that stands alone and nothing else drawn came between them. |
| RunsCalls.CallsFollow | packages/extensions/pi-custom/src/ui/group.ts:109-199 | A call that folds stands with its own name and arguments, with exactly the thinking since the call or break before it, each thought trimmed and the blank ones left out, and as failed exactly when that was said of it last. |
| RunsCalls.FailedAsSaid | packages/extensions/pi-custom/src/ui/group.ts:125-199 | In terms of the branch: it is failed exactly when the last entry from its own on that says how it went says so, a tool result with an error or a message with that call that failed or was aborted. |
| RunsCalls.CallsInOrder | packages/extensions/pi-custom/src/ui/group.ts:144-178 | All calls that join stand in the runs in the order in which they came. |
| RunsCalls.EntryMeans | packages/extensions/pi-custom/src/ui/group.ts:109-141 | What an entry of the branch does: an assistant's parts happen in order, and exactly the entries that draw something else end the run. |
| RunsTimes.RunsTook | packages/extensions/pi-custom/src/ui/group.ts:144-178 | Over whatever happens, live or loaded, a run took the thinking before each of its calls, as far as it was measured, and is marked when some was not; thinking that led to no call of it is left out. |
| RunsTimes.LivePartsFold | packages/extensions/pi-custom/src/ui/group.ts:144-178 | Feeding a live message's parts with their times is what happens at those moments. |
| RunFeed.AddPartSame | packages/extensions/pi-custom/src/ui/group.ts:144-178 | A part and a later version of it, with any thinking times, change two models that differ only in times alike. |
| RunFeed.EndAssistantSame | packages/extensions/pi-custom/src/ui/group.ts:185-189 | So does the end of a message. |
| RunFeed.GrownText | packages/extensions/pi-custom/src/ui/group.ts:152-155 | Prose that has begun breaks the run as the finished prose will. |
| RunFeed.RunModel.Add | packages/extensions/pi-custom/src/ui/group.ts:144-178 | The update in place of one part is the specified one. |
| RunFeed.RunModel.End | packages/extensions/pi-custom/src/ui/group.ts:185-189 | The end of a message marks the calls of a failed one and closes the run. |
| RunFeed.RunModel.AddFinished | packages/extensions/pi-custom/src/ui/group.ts:125-141 | The update in place of a whole message is the specified one. |
| RunFeed.RunModel.LoadBranch | packages/extensions/pi-custom/src/ui/group.ts:109-122 | Rebuilding from a branch gives the specified model, which is sound and closed. |
| RunFeed.LiveFeed.Feed | packages/extensions/pi-custom/src/ui/group.ts:336-340 | The loop feeds the next parts up to a bound, each once and in order, with the time measured for it by then. |
| RunFeed.LiveFeed.Update | packages/extensions/pi-custom/src/ui/group.ts:313-327 | Any event of the stream keeps that relation to the finished message, and lets the feed reach exactly as far as it should. |
| RunFeed.LiveFeed.End | packages/extensions/pi-custom/src/ui/group.ts:329-334 | Ending the message leaves the model as adding the finished one at once would have, but for times, which are those measured. |
| RunFeed.StreamMessage | packages/extensions/pi-custom/src/ui/group.ts:297-341 | Over every stream whose earlier parts are final and whose text only grows, feeding and ending a message leaves the model as adding the finished message would have, up to times; each part is fed once, in order, at the first event that reaches it, with the time measured between its own events by then. |
| Selection.IndexOf | packages/extensions/pi-custom/src/ui/selection-content.ts:24 | The first occurrence from an offset on. |
| Selection.HangEnd | packages/extensions/pi-custom/src/ui/selection-content.ts:21 | The maximal prefix of white space and bars. |
| Selection.MappedRowShown | packages/extensions/pi-custom/src/ui/selection-content.ts:18-30 | The text kept for a row is what its line shows from the row's first column on, up to white space at the end. |
| Selection.StepTracks | packages/extensions/pi-custom/src/ui/selection-content.ts:15-32 | One row keeps the mapped rows spelling the finished lines and the used part of the current one. |
| Selection.MappedFaithful | packages/extensions/pi-custom/src/ui/selection-content.ts:11-35 | Whenever the rows are mapped, the rows of each line spell that line exactly, every line has rows, in order, and only the padding rows have none. |
| SelectionLayout.FitIsNext | packages/extensions/pi-custom/src/ui/selection-content.ts:23-27 | A fit that skips only white space ends where the next piece of the line ends. |
| SelectionLayout.QuotedPieceFits | packages/extensions/pi-custom/src/ui/selection-content.ts:21-28 | A continuation row behind quote bars is matched, once its bars are dropped, up to exactly where its piece ends. |
| SelectionLayout.PieceFits | packages/extensions/pi-custom/src/ui/selection-content.ts:20-29 | The row of the next piece is matched up to exactly where that piece ends. |
| SelectionLayout.LaidOutIsMapped | packages/extensions/pi-custom/src/ui/selection-content.ts:11-35 | Mapping succeeds on every layout that wraps lines at white space, with any hanging indent, or with bars before text that does not itself start with one. |
| SelectionCopy.MapRows | packages/extensions/pi-custom/src/ui/selection-content.ts:11-35 | The loop maps the rows as specified, and faithfully. |
| SelectionCopy.FindFit | packages/extensions/pi-custom/src/ui/selection-content.ts:23-27 | The first candidate that fits. |
| SelectionCopy.CopyContentRows | packages/extensions/pi-custom/src/ui/selection-content.ts:108-130 | The copying loop over any rows, selected columns and stale or foreign rows copies what the specification copies. |
| SelectionCopy.JoinedIsTold | packages/extensions/pi-custom/src/ui/selection-content.ts:122 | What the rows of a line hold is the white space its first row skips, then what is copied of it. |
| SelectionCopy.SelectedColumns | packages/extensions/pi-custom/src/ui/selection-content.ts:117-123 | Of a row of the block exactly the characters that stand in selected columns are copied, in order; they go on with the line copied last exactly when it is of the same line of the same block. |
| SelectionCopy.CopyRows | packages/extensions/pi-custom/src/ui/selection-content.ts:108-129 | Copying the first rows of a block copies, for each line they reach, what those rows tell of it. |
| SelectionCopy.CopyWholeBlock | packages/extensions/pi-custom/src/ui/selection-content.ts:108-130 | Copying a whole mapped block gives its lines joined by newlines, each but for the blank start that its first row skips. |
| SelectionCopy.ForeignRow | packages/extensions/pi-custom/src/ui/selection-content.ts:124-126 | Of a line that is not the block's own, or no longer, the selected characters are copied as a line of their own without white space at the end. |
| SelectionCopy.CopiedWhenOwn | packages/extensions/pi-custom/src/ui/selection-content.ts:113-129 | There is something to copy exactly when some selected line is the block's own. |
| SelectionCopy.JoinNext | packages/extensions/pi-custom/src/ui/selection-content.ts:129 | Copied lines are joined by one newline each, in order. |
| Peers.IdPrefixes | packages/extensions/pi-custom/src/intercom/peers.ts:59-74 | The nested loops give every id its short form. |
| Peers.CountShared | packages/extensions/pi-custom/src/intercom/peers.ts:62-68 | The longest prefix an id shares with another. |
| Peers.MostShared | packages/extensions/pi-custom/src/intercom/peers.ts:62-68 | An upper bound on what is shared with every other id, reached by one of them. |
| Peers.ShortIdSeparates | packages/extensions/pi-custom/src/intercom/peers.ts:69-71 | A short id is a prefix of its own id only, unless it is that whole id, even when one id is a prefix of another; it has at least 8 characters and stops at a dash, at the end or as soon as it may. |
| Peers.ShortIdNeeded | packages/extensions/pi-custom/src/intercom/peers.ts:68-69 | Another id shares everything up to the last character a longer short id needs. |
| Peers.PrintedIdResolves | packages/extensions/pi-custom/src/intercom/peers.ts:166-180 | With distinct ids, the printed short id of a session resolves to it exactly when it is its whole id or no other session is named like it. |
| Peers.PrintedIdWithPi | packages/extensions/pi-custom/src/intercom/peers.ts:187-191 | So does the short id behind `pi:`. |
| Peers.PrintedIdAlone | packages/extensions/pi-custom/src/intercom/peers.ts:187-201 | The bare short id does exactly when, besides, the session's own name and a Claude session's name are not both like it. |
| Peers.ClaudeIdResolves | packages/extensions/pi-custom/src/intercom/peers.ts:155-160 | A Claude session's id in the roster resolves to it, as long as nothing else goes by what follows the prefix. |
| Peers.PiMeans | packages/extensions/pi-custom/src/intercom/peers.ts:166-180 | Among pi sessions an id counts first, then a name, then the beginning of an id; a name or a beginning that fits several is refused, and one that fits nobody names nobody. |
| Peers.ClaudeMeans | packages/extensions/pi-custom/src/intercom/peers.ts:155-164 | The same among Claude sessions, where an address counts as an id and a beginning that fits several names nobody. |
| Peers.BehindClaude | packages/extensions/pi-custom/src/intercom/peers.ts:190 | Behind `claude:` only Claude sessions are looked at, for what follows and then for the whole. |
| Peers.BehindPi | packages/extensions/pi-custom/src/intercom/peers.ts:191 | Behind `pi:` only pi sessions are. |
| Peers.BehindUds | packages/extensions/pi-custom/src/intercom/peers.ts:192 | An address is looked for among Claude sessions, as a whole. |
| Peers.BareNameMeans | packages/extensions/pi-custom/src/intercom/peers.ts:193-200 | A bare name that both rosters have, and that is no pi id, is refused; else pi sessions come before Claude sessions. |
| Prelude.PlacesDrop | packages/extensions/pi-custom/src/intercom/runtime.ts:528-532 | Dropping the q-th waiting arrival removes exactly that one and keeps the others in order. |
| Prelude.TrimMeans | packages/extensions/pi-custom/src/tools/todo-state.ts:163-176 | Trimming takes away the white space at both ends of a text, and nothing else. |
| Inbox.PositionOf | packages/extensions/pi-custom/src/intercom/runtime.ts:530 | The first held message of that id. |
| Inbox.KeysDiffer | packages/extensions/pi-custom/src/intercom/runtime.ts:444 | Senders whose ids hold no NUL have keys of their own. |
| InboxRun.Intercom.Handle | packages/extensions/pi-custom/src/intercom/runtime.ts:209-232 | Any event takes the inbox, field by field, to the state that the step function gives. |
| InboxRun.RunSession | packages/extensions/pi-custom/src/intercom/runtime.ts:209-579 | Over every list of events the inbox is, field by field, where the run of the step function is. |
| InboxOrder.RefusedWasTaken | packages/extensions/pi-custom/src/intercom/runtime.ts:442-454 | Over every run and by any clock, an arrival is refused as a duplicate only if the same message was taken before and has not been more than an hour old at any arrival since. |
| InboxOrder.RepeatIsRefused | packages/extensions/pi-custom/src/intercom/runtime.ts:442-454 | Over every run and by any clock, it is refused if such a message is among the last thousand taken. |
| InboxOrder.SeenBounded | packages/extensions/pi-custom/src/intercom/runtime.ts:447-452 | Over every run never more than a thousand messages are remembered. |
| InboxOrder.SeenIsAccepted | packages/extensions/pi-custom/src/intercom/runtime.ts:442-454 | Where the clock does not go back, what is remembered are the last thousand accepted messages, but for those older than an hour. |
| InboxOrder.DuplicateExactly | packages/extensions/pi-custom/src/intercom/runtime.ts:442-454 | Where the clock does not go back, an arrival is refused as a duplicate exactly when one of the last thousand accepted brought the same message within the hour. |
| InboxOrder.AcceptedApart | packages/extensions/pi-custom/src/intercom/runtime.ts:442-454 | The same message is accepted twice only more than an hour, or more than a thousand accepted messages, apart. |
| InboxOrder.StepQueue | packages/extensions/pi-custom/src/intercom/runtime.ts:209-579 | Any event but a control leaves what was injected and what is held, read as one list, as it is, or adds the message that arrives at its end. |
| InboxOrder.RunInOrder | packages/extensions/pi-custom/src/intercom/runtime.ts:209-579 | Over every run, what was injected followed by what is held are the messages that reached the inbox, in order, but for those dropped: each by a control of its own that named it and found it held, and each control that found one dropped it. |
| InboxOrder.ArrivedIsReaching | packages/extensions/pi-custom/src/intercom/runtime.ts:442-526 | Where the clock does not go back, the messages that reach the inbox are the accepted arrivals that no ask waits for. |
| InboxOrder.HeldIsTimed | packages/extensions/pi-custom/src/intercom/runtime.ts:555-561 | Whatever is held, the timer runs. |
| InboxOrder.FlushedLeaves | packages/extensions/pi-custom/src/intercom/runtime.ts:566-579 | What a flush leaves held waits for a reason: a human comes first and one message went, or none may go, or the session is busy with nobody to steer for. |
| InboxOrder.TurnsAreSpaced | packages/extensions/pi-custom/src/intercom/runtime.ts:586-607 | Over every run, by any clock past the epoch, messages start turns at least ten seconds apart until the agent begins. |
| InboxSends.SentAsItShould | packages/extensions/pi-custom/src/intercom/runtime.ts:586-615 | Over every run, by any clock past the epoch: a message is sent as a steer exactly when the session answered busy or its setting does not let it start a turn, and starts a turn exactly when otherwise no message sent since the agent last began started one within ten seconds. |
| InboxSends.ArrivalEffect | packages/extensions/pi-custom/src/intercom/runtime.ts:548-564 | A message that reaches the inbox is held exactly behind others, or when the session is busy and cannot take a steer, and is sent at once otherwise. |
| InboxSends.TakenEffect | packages/extensions/pi-custom/src/intercom/runtime.ts:442-454 | A repeated message, and one an ask waits for, changes nothing but what is remembered. |
| InboxSends.FlushesWhen | packages/extensions/pi-custom/src/intercom/runtime.ts:218-223 | When the agent starts, and when the timer fires, held messages are sent from the front exactly as long as the session takes them; a timer with nothing held stops. |
| InboxSends.TurnEndEffect | packages/extensions/pi-custom/src/intercom/runtime.ts:209-216 | Where a human comes first, the end of a finished turn of a running agent sends exactly one held message as a steer, unless the session is idle or has input waiting; any other end of a turn changes nothing. |
| InboxSends.QuietEffect | packages/extensions/pi-custom/src/intercom/runtime.ts:225-230 | The end of the agent is remembered. |
| InboxSends.ControlEffect | packages/extensions/pi-custom/src/intercom/runtime.ts:528-534 | A control drops the first held message of its id and no other. |
| LedgerData.IdReadsBack | packages/extensions/pi-permissions/src/denials.ts:154 | A denial's id reads back as its number, so ids of different numbers differ. |
| LedgerData.NumberedHighest | packages/extensions/pi-permissions/src/denials.ts:300-301 | The highest number among the kept denials is one below the next id. |
| LedgerData.PutTable | packages/extensions/pi-permissions/src/denials.ts:207 | Setting a key changes the grant of that key and no other. |
| LedgerData.MapOfDistinct | packages/extensions/pi-permissions/src/denials.ts:299 | A map made of grants with keys of their own is the list itself. |
| LedgerData.NewestFirstTable | packages/extensions/pi-permissions/src/denials.ts:283-286 | Listing grants newest first only reorders them. |
| LedgerData.NewestFirstStable | packages/extensions/pi-permissions/src/denials.ts:283-286 | Grants made at the same time are listed in the order they were made. |
| LedgerData.MapOfLast | packages/extensions/pi-permissions/src/denials.ts:299 | The grant that is kept under a key is the last one of the list. |
| Ledger.GrantKeysDiffer | packages/extensions/pi-permissions/src/denials.ts:116-122 | Where no part holds a NUL, calls have the same key only if they are the same call of the same owner, so what a child was granted reaches no one else. |
| Ledger.RestoreUndoesSnapshot | packages/extensions/pi-permissions/src/denials.ts:292-302 | Restoring a snapshot gives back the same denials, grants by key, rejected calls and next id, and saving again saves the same. |
| Ledger.RestoredIsKeyed | packages/extensions/pi-permissions/src/denials.ts:296-302 | Whatever record is restored, grants have keys of their own, rejected keys are digests, at most 50 denials are kept and the next id is none of theirs. |
| Ledger.RecordNumbered | packages/extensions/pi-permissions/src/denials.ts:153-155 | A new denial takes the next id, ids stay consecutive from the newest down, and at most 50 are kept. |
| Ledger.WithoutTable | packages/extensions/pi-permissions/src/denials.ts:272-281 | Deleting by a condition removes exactly the grants it picks. |
| Ledger.PermissionLedger.Reject | packages/extensions/pi-permissions/src/denials.ts:138-143 | A rejected denial is marked, its call counts as rejected, and nothing else changes. |
| Ledger.PermissionLedger.ClearRejected | packages/extensions/pi-permissions/src/denials.ts:145-149 | Forgets every rejection, and says whether there was one. |
| Ledger.PermissionLedger.Record | packages/extensions/pi-permissions/src/denials.ts:153-159 | The denial is the newest, under an id none of the others has. |
| Ledger.PermissionLedger.Dismiss | packages/extensions/pi-permissions/src/denials.ts:193-196 | Only an open denial is dismissed. |
| Ledger.PermissionLedger.ApproveDirectory | packages/extensions/pi-permissions/src/denials.ts:202-209 | Sets the directory's grant, unless the owner is unknown. |
| Ledger.PermissionLedger.ApproveSimilar | packages/extensions/pi-permissions/src/denials.ts:243-250 | Sets the grant of the call's scope if it has one, and then similar calls are granted. |
| Ledger.PermissionLedger.RememberScope | packages/extensions/pi-permissions/src/denials.ts:237-241 | Sets a grant for each directory and one for the call, unless a file alone was asked for. |
| Ledger.PermissionLedger.DeleteWhere | packages/extensions/pi-permissions/src/denials.ts:272-281 | The deleting loop leaves exactly the grants the condition does not pick, in order. |
| Ledger.PermissionLedger.ClearSimilar | packages/extensions/pi-permissions/src/denials.ts:272-281 | Every scoped approval of a call ends, and directories and exact grants stay. |
| Ledger.PermissionLedger.RefreshSaved | packages/extensions/pi-permissions/src/denials.ts:228-234 | The saved grants are replaced by those of the store. |
| Ledger.PermissionLedger.RefreshedSaved | packages/extensions/pi-permissions/src/denials.ts:228-234 | The saved grants are then those of the store's records and no others, each record has one, and no other grant is gone. |
| Ledger.PermissionLedger.Approve | packages/extensions/pi-permissions/src/denials.ts:171-191 | Refuses exactly missing, incomplete, policy-denied and unowned denials; otherwise lifts the rejection, adds the grants and approves the open denials of the same call, which is then granted, by its scope if it has one or exactly. |
| Ledger.PermissionLedger.Lift | packages/extensions/pi-permissions/src/denials.ts:174-175 | After an approval the call does not count as rejected. |
| Ledger.PermissionLedger.ApprovalGrants | packages/extensions/pi-permissions/src/denials.ts:176-186 | An approval grants each directory it names, or else the scope of a shell command that has one, to its owner, or else the exact call; it loses no grant, and every new grant belongs to the denied call's owner. |
| Ledger.PermissionLedger.Revoke | packages/extensions/pi-permissions/src/denials.ts:288-290 | Removes the grant of that key and no other. |
| Ledger.PermissionLedger.Snapshot | packages/extensions/pi-permissions/src/denials.ts:292-302 | What is saved gives the ledger back: restoring it has the same denials, next id and rejected calls, and the same grants by key. |
| Ledger.PermissionLedger.Restore | packages/extensions/pi-permissions/src/denials.ts:296-302 | Taking over a record gives the specified ledger; its own snapshot leaves it valid with the same grants by key and the same next id. |
| LedgerRuns.Handle | packages/extensions/pi-permissions/src/denials.ts:122-302 | Any event keeps the ledger valid and where the count of numbers says, a blocked call alone takes an id, and every record saved gives back its number. |
| LedgerRuns.RunLedger | packages/extensions/pi-permissions/src/denials.ts:153-302 | Over every run, with any earlier save or none restored at any point, the ids issued are exactly those counted, and the kept denials are numbered down from the next id. |
| LedgerRuns.IssuedEach | packages/extensions/pi-permissions/src/denials.ts:153-155 | One number is issued for each blocked call, and the ids are distinct exactly when the numbers are. |
| LedgerRuns.CountGapless | packages/extensions/pi-permissions/src/denials.ts:292-302 | No number is ever skipped, and no save is ahead of what was issued. |
| LedgerRuns.IssuedOnceExactly | packages/extensions/pi-permissions/src/denials.ts:153-302 | Over every run no id is issued twice exactly when no call is blocked while the record last restored is behind the numbers issued by then. |
| LedgerRuns.RestoredIdsNew | packages/extensions/pi-permissions/src/denials.ts:296-302 | After a restore all ids issued are new exactly when the record's next number is not below the first one never issued. |
| LedgerRuns.IssuedTwice | packages/extensions/pi-permissions/src/denials.ts:296-302 | Going back to a branch without a record, or to one saved earlier, the next id is one that was issued already. |
| LedgerEffects.RejectionsDiffer | packages/extensions/pi-permissions/src/denials.ts:131-136 | Rejections are about the same text exactly when they have the same owner and the same reusable scope, or are the same call in the same folder. |
| LedgerEffects.DirectoryKeysDiffer | packages/extensions/pi-permissions/src/denials.ts:204-205 | Directory grants have the same key exactly for the same directory and access, the same owner and the same workspace. |
| LedgerEffects.RememberedOnly | packages/extensions/pi-permissions/src/denials.ts:237-250 | A combined approval grants its directories, the scope of the call if it covers that, and nothing else; a child whose session is unknown is granted nothing. |
| LedgerEffects.ApprovalOnly | packages/extensions/pi-permissions/src/denials.ts:171-191 | An approval grants nothing but its directories and what goes with them, or else the scope of a shell command, or else the exact call, to its owner. |
| LedgerEffects.ApprovedAlike | packages/extensions/pi-permissions/src/denials.ts:187-189 | Of the open denials exactly those of the same call and the same owner are approved with it. |
| LedgerEffects.LiftedOnly | packages/extensions/pi-permissions/src/denials.ts:174-175 | It lifts the rejection of the call, in the folder it was blocked in or else the session's, and no other. |
| LedgerEffects.RestoresWhatWasSaved | packages/extensions/pi-permissions/src/denials.ts:296-302 | Of any record the digests, the newest fifty denials and the last grant of each key are taken over. |
| DirectoryProposal.Candidates | packages/extensions/pi-permissions/src/directory-proposal.ts:12-19 | One candidate for each directory, with its path and access: folder 0 is its own path, folder 1 the file's folder if that is another one inside it without control characters, and there is no other. |
| DirectoryProposal.ValidateDirectoryProposal | packages/extensions/pi-permissions/src/directory-proposal.ts:22-42 | Accepts exactly proposals with one granting row for each candidate and none named twice, and returns what the rows grant, in order. |
| DirectoryProposal.AcceptedIsBijection | packages/extensions/pi-permissions/src/directory-proposal.ts:25-38 | By pigeonhole every candidate is granted by exactly one row. |
| DirectoryProposal.GrantedWithin | packages/extensions/pi-permissions/src/directory-proposal.ts:31-39 | A row grants one of its candidate's own folders and never takes writing away. |
| DirectoryProposal.ProposalStaysWithin | packages/extensions/pi-permissions/src/directory-proposal.ts:12-42 | For the directories a call asked for, each is granted once, at its own path or the file's folder inside it, and writable where it was to be written. |
| DirectoryProposal.GrantsExactly | packages/extensions/pi-permissions/src/directory-proposal.ts:28-39 | A row grants exactly the access it names, at the folder it names of the candidate it names, where writing is not taken away and reading is not narrowed to executing. |

## Left out

- Todo: the texts of results and errors (errors are values of a datatype), `list` and `get` output, review reminders, fading of finished tasks, and the wording of widget rows. A missing `blockedBy` and an empty one are the same here.
- TodoWidget.WidgetRows: drawing with a width wraps rows over several lines and is not modelled; without one each row is one line.
- TodoWidget.DrawnHeadersPrecede: a group under a group, which no reachable list has, ranks as an ordinary task.
- Minimap: the text of messages, excerpts, redaction and the prompt; replies and records are taken as decoded JSON, without the entries of a wrong type; normalisation of texts is an arbitrary function.
- MinimapRestore.SaveAccepted: the enabled and model fields of a record are left out; counts are unbounded where the decoder asks for safe integers.
- MinimapEngine.Engine.Handle: delays are not modelled, only which timers are set and that they can fire at any time; a start reported after its request is over, and the `error` text, are left out.
- Bookkeeping.BookkeepingKind: starts from the token list; the lexer and the limit of 8192 characters are left out.
- Inspect.InspectionLines: the test of one program is any predicate; the tables of known readers are left out.
- RunFeed.StreamMessage: the model equals that of the finished message but for thinking times, since a finished message has none; revisions, arguments replaced when a call starts, hidden thinking, expansion and summaries are left out.
- Selection.MappedFaithful: every character is one column wide and rows hold no terminal sequences; the caches of the native renderer and the walk over its layout are left out.
- Peers.PrintedIdResolves: lower case is any function of the name; the rows of the roster and directories are left out.
- InboxRun.RunSession: sockets, the broker, receipts, the reply tracker, session replacement and the text of injected messages are left out; one session, from its start.
- InboxOrder.DuplicateExactly: asks for a clock that does not go back between arrivals; by any clock `RefusedWasTaken` and `RepeatIsRefused` leave open only what more than a thousand messages taken since, of which some were forgotten for their age, push out.
- LedgerData.IdReadsBack: ids are read back as decimal digits; other spellings that `Number` accepts (signs, exponents, hexadecimal, blanks) count as 0 here, and numbers are unbounded.
- Ledger.PermissionLedger.Approve: scopes of calls, canonical JSON, the SHA-256 digest and the wording of grants are arbitrary functions, the digest giving 64 hexadecimal digits; storage of directories and queries by path are left out.
- LedgerRuns.RunLedger: the records restored are those the session saved, or none; of any other record `RestoredIsKeyed` alone speaks.
- DirectoryProposal.Candidates: the file's folder and whether a path lies inside another are parameters; resolving paths is left out.
- Model catalogues, drawing and key handling, goals, background jobs, side conversations, voice input, notifications and scripts.
