# Verification of the StateCore memory engine

StateCore keeps one memory per scope: an append-only registry of facts, linked by
`supersededBy` and `retiredAt`, and per-facet lists of lines shown to readers. Three writers
compete for it. `remember` and `forget` are short transactions on the latest snapshot. A digest
copies a snapshot, works on the copy for minutes with facts, routed events and consolidations
proposed by a language model, and commits a new snapshot that must carry over what happened
meanwhile. This project models those writers and proves what the engine promises its callers
over every run: notes are not lost, forgotten texts do not return, and a model cannot touch what
a caller wrote. Around that core it models the deterministic merge of event deltas and its
change log, the reading of audit chains, and the fast or bounded forms the engine relies on: a
TTL cache, budget packing, prompt bounding, chunking and cursor paging.

## How it is organised

Each operation has a specification function on values, the laws are lemmas about those
functions, and code that updates a state object or loops is a method on a class or over
sequences proved to compute its function. The `…Outcomes` modules, `CommitRecord` and `MergeRuns`
say what an operation comes to in terms of entries, lines, positions and keys alone, without
the functions that compute it.

| files | subject |
|---|---|
| `FactRegistry`, `RegistryLaws`, `NoteOutcomes`, `LedgerWrites` | the registry mutators and the note write path, what every mutator keeps, what a note write comes to, and the same code in place |
| `DigestFacts`, `FacetConsolidation`, `MemoryFacts`, `DigestWork`, `DigestFactsLaws`, `FactOutcomes`, `DigestWrites` | what a digest may do to the ledger, its laws, what each fact and event comes to, and the same code in place |
| `Handoff`, `HandoffLaws`, `CommitRecord` | carrying concurrent notes into a commit, and what it records on each entry |
| `ScopeStore`, `ScopeTheorems`, `DroppedHistory`, `Reactivation`, `NoteRuns`, `EmbeddedStore` | the protocol as a state machine over (latest snapshot, forgotten keys, digest in flight), its theorems over all runs, and the transactions themselves |
| `NoteLines`, `CapLines`, `CapOrder`, `CommitLines`, `LineRuns` | when an active note holds a line: after one write, after the cap's evictions, after a commit, over all runs; and the order of those evictions |
| `RegistryHistory`, `Provenance`, `LinkRuns` | bounding history, reading chains, and whether chains stay complete over all runs |
| `StateMerge`, `StateMergeLaws`, `MergeOutcomes`, `MergeRuns`, `StateMergeWrites` | the deterministic merge, its change log, what each delta does to each field, the merge as a run, and the merge in place |
| `BoundedTtlCache`, `RetrieveBudget`, `PackOutcomes`, `CharBudget`, `Stage2Chunks`, `EventPaging` | caches, budgets and paging |
| `Options`, `Seqs` | optional values and the list operations the sources call |

## What is assumed

* The text functions (trimming, canonical form, the display-key hash, the fuzzy matchers,
  stripping of internal ids) are arbitrary functions gathered in `Lexicon`; the patterns, prefixes
  and similarity scores of the merge are arbitrary functions gathered in `Reader`. The hash may
  collide. One canonical form stands for the two normalisers with the same definition.
* A facet pack is seen through its accessors (`Pack`). The run theorems about loss assume that no
  event type routes to the notes facet and that the default pack and the tenant's pack display
  notes in the same group (`PackFits`); those about the cap assume it is at least 1.
* Ids drawn by a step are new and, within one consolidation, distinct (`Lawful`). Nothing else is
  assumed of the model's output, of the interleaving, or of the stored registry beyond unique ids.
* A transaction is one atomic step, and a digest runs at most once at a time. A digest may start
  from the snapshot or, as the worker's rebuild does, without reading the forgotten keys and from
  no state at all (`apps/worker/src/main.ts:464-523`).

## What turned out not to hold

Each of these comes with an input that shows it and the exact condition under which it does hold.

* The first note of a scope is written without consulting the forgotten keys
  (`apps/mcp/src/embedded.ts:192-193`), and a first digest is not filtered by the keys forgotten
  since it began (`apps/mcp/src/digest-write.ts:36-44`). `FirstNoteLeaks` and `FirstDigestLeaks`
  exhibit the two; `StaysCleanIffNoLeak` says there are no others and `FirstDigestCleanIff` when a
  first digest is clean; any later note write or commit heals the scope (`WritingHeals`,
  `CommittingCleans`).
* An active note can be left without a line. `retireFact` also matches entries with no facet
  (`packages/core/src/digest/fact-registry.ts:84`), and evicting or revising a line stamps the
  first entry with its text, which need not be the note (`FacetlessEntryIsRetiredInstead`,
  `CommitCanLoseALine`). `NoteShownIff` and `CommitLosesIff` say exactly which writes and commits
  do that. Dropping history can also make a consolidated note without a line pass for a caller's
  (`BeginShownIff`, `HistoryRevealsANote`). `ShownRunIff` says that a run keeps every caller note
  shown if and only if it has none of these steps.
* Resolving a risk removes a volatile line without logging it
  (`packages/core/src/digest/merge.ts:917-924`), so the change log explains the volatile context
  exactly when that does not happen (`VolatileExplainedIff`, `OmissionHappens`).
* The header of `packages/core/src/handoff.ts` says that an id in the latest snapshot and not in
  the pipeline can only be a concurrent write, unless it was forgotten. Loading a state drops
  inactive entries beyond 500, so it can also be history that was dropped (`DroppedNoteReturns`,
  `DroppedNotesReturn`), and a full rebuild starts with no entries at all (`RebuildAdoptsOldNote`);
  the commit appends such notes again. `CommitAdoptsOnlyNewsIff` says that the header is right
  exactly of digests and rebuilds whose start leaves out no unforgotten note, and `StartMisses`
  what each start leaves out.
* Retirement is final for notes (`NoNoteComesBack`), not for entries without a facet, which a
  digest's copy may hold active while a note write evicts them: `ComesBackIff` says exactly when
  one comes back, `DecisionComesBack` shows it.
* A commit can cut a note's history off: it takes over the link to a revision that it does not
  adopt because the revision was forgotten (`ForgottenRevisionDangles`). `ClosedRunIff` says that
  links stay closed over a run if and only if no commit does that.

## Model

| member | source | states |
|---|---|---|
| ScopeTheorems.NoNoteIsLost | packages/core/src/handoff.ts:117-196 | from any stored scope, after any interleaving of remember, forget and digest steps with any model output: at a commit every caller note that is active and not forgotten is in the new snapshot, still active or retired as `cap_evicted` at that moment and only because more caller notes were held than the cap; the notes fit the cap |
| LineRuns.NoNoteLosesItsLine | packages/core/src/handoff.ts:117-196 | the same, and the line with the note: after the commit an active caller note holds a line of `profile.notes` if and only if the commit does not lose it, which is decided by the digest copy and the latest registry alone |
| ScopeTheorems.ForgottenStaysForgotten | apps/mcp/src/embedded.ts:401-430 | in every run of a scope that has a snapshot, no forgotten text holds a notes line or backs an active note, across forget, heal on write, refused re-adds and commits of digests begun before the forget |
| ScopeTheorems.StaysCleanIffNoLeak | apps/mcp/src/embedded.ts:182-202 | for every step from a clean store whose first commit, if it is one, finds the copy pruned: the store stays clean if and only if the step is neither a first note whose text is forgotten nor a first commit whose copy holds a key forgotten since its digest began |
| ScopeTheorems.FirstNoteLeaks | apps/mcp/src/embedded.ts:192-193 | the first leak is real: forget a key in an empty scope, then remember its text; the note is active although forgotten |
| ScopeTheorems.PruningCleans | packages/core/src/digest/pipeline.ts:220-225 | the pruning a digest ends with leaves of every facet exactly the lines, and of the active entries exactly those, whose key is not among the forgotten keys it read at its start; so the notes are clean of them |
| ScopeTheorems.FirstDigestCleanIff | apps/mcp/src/digest-write.ts:36-44 | for a whole run, from pruning through any forgets to the first commit: the scope ends clean if and only if no key forgotten since the digest began matches a line or an active note of the pruned copy |
| ScopeTheorems.FirstDigestLeaks | apps/mcp/src/digest-write.ts:36-44 | the second leak is real: a first digest extracts a note, prunes, the note is forgotten, and the commit writes it |
| ScopeTheorems.WritingHeals | packages/core/src/digest/fact-registry.ts:281-307 | writing any non-blank note leaves no forgotten text active, whatever the store held before |
| ScopeTheorems.CommittingCleans | packages/core/src/handoff.ts:177-186 | a commit over a snapshot leaves no forgotten text active, whatever the digest or the snapshot held |
| ScopeTheorems.CommitUndoesNothing | packages/core/src/handoff.ts:159-183 | a notes entry inactive in the snapshot re-read at commit is absent or inactive in what is committed |
| ScopeTheorems.NoNoteComesBack | packages/core/src/handoff.ts:159-183 | once inactive, a notes entry is never active again in any run |
| Reactivation.ComesBackIff | packages/core/src/handoff.ts:159-183 | in every run, for an entry of any facet: a step brings it back into the active set if and only if it is a commit whose copy holds it active, it is no note, and the cap of that commit does not evict it anew |
| Reactivation.CommitReactivatesIff | packages/core/src/handoff.ts:159-194 | the same for one commit, judged by the copy, the latest registry and the forgotten keys |
| Reactivation.DecisionComesBack | packages/core/src/digest/fact-registry.ts:80-90 | it happens: a decision without a facet is evicted by a note written and then forgotten while a digest runs, and is active again after the commit |
| ScopeTheorems.StatementsNeverChange | packages/core/src/digest/fact-registry.ts:55-154 | over every run, an id keeps its content, kind, facet, confidence, date and evidence for good |
| ScopeTheorems.NotesStayOnRecord | packages/core/src/handoff.ts:124-127 | over every run in which it is not forgotten, a caller note stays in the registry of every later snapshot |
| ScopeTheorems.NotesWithinCap | packages/core/src/digest/fact-registry.ts:378-384 | over every run the notes never exceed a cap of at least 1 once they fit it |
| DroppedHistory.CommitAdoptsOnlyNewsIff | packages/core/src/handoff.ts:117-130 | in every run from the start of a digest or of a rebuild, full or not, to its commit: every entry the commit adopts was written in between if and only if the start left out no note but forgotten ones |
| DroppedHistory.AdoptsOnlyNewsIff | packages/core/src/handoff.ts:124-127 | the same for any two registries, the later grown from the earlier, and any ids the digest holds: the adopted entries are news if and only if every note of the earlier registry it does not hold is forgotten |
| DroppedHistory.StartMisses | packages/core/src/digest/state.ts:189-200 | what a start leaves out: a copy of the snapshot the inactive notes beyond the last 500 inactive entries, a full rebuild every note |
| DroppedHistory.IdleCommitAdoptsNothingIff | packages/core/src/handoff.ts:159-180 | with nothing written in between, a commit adopts nothing if and only if every inactive note beyond the last 500 inactive entries is forgotten |
| DroppedHistory.DroppedNotesReturn | packages/core/src/handoff.ts:177-180 | every unforgotten note dropped at the start is appended again after the copy, unchanged |
| DroppedHistory.DroppedNoteReturns | packages/core/src/digest/state.ts:189-200 | it happens: over 501 retired notes a digest that begins and commits at once drops the oldest and appends it again as if it were new |
| DroppedHistory.RebuildAdoptsOldNote | apps/worker/src/main.ts:464-523 | and without any history to drop: a full rebuild over one note adopts that note at its commit, although it was written before the rebuild began |
| ScopeStore.SoundRun | apps/mcp/src/digest-write.ts:26-31 | the two-state invariant behind the run theorems: the digest copy and the latest snapshot agree on the statement of every shared entry, and a live unforgotten caller note in the snapshot is live in the copy if the copy has it |
| ScopeStore.SoundStep | apps/mcp/src/digest-write.ts:26-31 | every step keeps that invariant |
| ScopeStore.CarriedHolds | packages/core/src/handoff.ts:157-184 | before the cap is applied, a commit holds every live unforgotten caller note of the snapshot, still recognised as a caller note |
| LineRuns.ShownRunIff | packages/core/src/digest/fact-registry.ts:310-384 | over every run, every active caller note, legacy ones included, holds a line at all times, in the snapshot and in the digest copy, if and only if no step is a note write that displaces one, a commit that loses one, or a start that makes a note without a line pass for one |
| LineRuns.ShownStepIff | packages/core/src/digest/fact-registry.ts:310-384 | the same for one step of any kind |
| LineRuns.BeginShownIff | packages/core/src/digest/fact-registry.ts:184-193 | the copy a digest starts from shows every caller note if and only if no note without a line comes to pass for a caller's because its consolidated sources are beyond the history that is kept |
| LineRuns.HistoryRevealsANote | packages/core/src/digest/fact-registry.ts:184-193 | it happens: a note consolidated from two sources passes for a caller's behind 500 later inactive entries |
| LineRuns.WorkKeepsShown | packages/core/src/digest/merge.ts:364-523 | no digest step, whatever the model said, leaves a note active without its line |
| NoteLines.NoteShownIff | packages/core/src/digest/fact-registry.ts:281-405 | writing a note leaves every other note shown if and only if it displaces none: the line it revises or pushes out is not the only one with the text of a note that stays active |
| NoteLines.EvictionShownIff | packages/core/src/digest/fact-registry.ts:80-90 | evicting a line leaves every note shown if and only if another line has its text, or no active entry of the notes facet or of no facet with that text comes before a note with it |
| NoteLines.RevisionShownIff | packages/core/src/digest/fact-registry.ts:347-356 | revising a line leaves every note shown if and only if another line has its text, or no active notes entry with that text comes before a note with it |
| NoteLines.RoomShownIff | packages/core/src/digest/fact-registry.ts:378-382 | the same for the slot a new note takes: nothing happens below the cap, and a blank oldest line leaves without retiring anything |
| NoteLines.FacetlessEntryIsRetiredInstead | packages/core/src/digest/fact-registry.ts:80-90 | displacement is real: evicting a note retires an earlier active entry with no facet and the same text, and the note stays active with no line |
| CapLines.PushedOutIff | packages/core/src/handoff.ts:188-194 | over the whole eviction loop: a shown note ends active without a line if and only if at least as many evictable entries of its text come before it as its text has lines, and the lines after its last one that still have a caller note behind them fill the facet |
| CapOrder.CapKeeps | packages/core/src/handoff.ts:188-194 | the lines the eviction loop leaves, read off the lines and entries it starts from: each line has a place in the order of eviction, and those beyond the number to take stay |
| CapOrder.CapTakesIff | packages/core/src/handoff.ts:188-194 | over the whole loop: an active entry of the notes facet or of none is retired if and only if the line it goes with leaves, which is the line of its text with as many such lines before it as there are such entries before the entry |
| CommitLines.CarriedLines | packages/core/src/handoff.ts:157-184 | the walk leaves the copy's lines, less one per overtaken note, followed by the arrivals not yet among them |
| CommitLines.JoinLosesIff | packages/core/src/handoff.ts:165-183 | a note has no line after the walk if and only if overtaken notes with its text are as many as its lines and no arrival has its text |
| CommitLines.CommitLosesIff | packages/core/src/handoff.ts:157-194 | a commit ends with a note active and without a line if and only if the walk takes its last line or the cap pushes it out, in terms of the two ledgers joined |
| CommitLines.CommitCanLoseALine | packages/core/src/handoff.ts:188-194 | it happens: with a cap of 1, a note that arrived while the digest ran evicts the line of another note whose text a decision without a facet also has |
| NoteRuns.NoteLedgerInvariant | packages/core/src/digest/fact-registry.ts:281-405 | from an empty scope, after any sequence of remember and forget: notes are pairwise distinct up to normalisation, at most cap many, in one-to-one correspondence with the active entries, and every note has at most one predecessor, always older |
| NoteRuns.NoteHistories | packages/core/src/provenance.ts:11-46 | after any sequence of remember and forget, the provenance of a note is the same chain whichever version is asked for, and what a digest starting then would answer is a suffix of it |
| EmbeddedStore.Scope.Remember | apps/mcp/src/embedded.ts:182-202 | the transaction as it runs is the Remember step of the protocol, and answers the text replaced that `NoteOutcomes.NoteRevises` and `NoteOutcomes.NoteTakesSlot` state |
| EmbeddedStore.Scope.Forget | apps/mcp/src/embedded.ts:407-421 | the transaction as it runs is the Forget step |
| EmbeddedStore.Scope.ReadForDigest | packages/core/src/digest/merge.ts:645 | a digest starts from a normalised copy of the snapshot, as the DigestBegin step |
| EmbeddedStore.Scope.CreateDigestWithSnapshot | apps/mcp/src/digest-write.ts:25-69 | the transaction as it runs is the DigestCommit step, with forgotten keys read inside it |
| RegistryLaws.AddNoteGrows | packages/core/src/digest/fact-registry.ts:325-405 | a note write only appends, changes no statement, and links only to the id it drew |
| RegistryLaws.CallerStable | packages/core/src/digest/fact-registry.ts:184-193 | whether an entry is a caller note does not change when links to new ids are added |
| RegistryLaws.CallerNoteIs | packages/core/src/digest/fact-registry.ts:184-193 | an entry is a caller note if its origin says so; without one, if it is a profile note of confidence 0.9 and no two entries of the registry are superseded by it |
| RegistryLaws.NoteReports | packages/core/src/digest/fact-registry.ts:288-404 | `addNoteFact` answers `changed: false` exactly when the state is unchanged, so skipping the write is sound |
| RegistryLaws.ForgettingReports | packages/core/src/digest/fact-registry.ts:218-248 | `retireForgottenNotes` answers 0 exactly when the state is unchanged |
| DigestWork.WorkGrows | packages/core/src/digest/fact-registry.ts:93-154 | every step of a digest is append-only and write-once, using only ids it drew |
| DigestWork.WorkKeepsNotes | packages/core/src/digest/fact-registry.ts:184-206 | no digest step, for arbitrary facts, events and consolidation results, changes an active caller note that is not forgotten or takes away its lines |
| DigestWork.DigestKeepsNotes | packages/core/src/digest/merge.ts:364-523 | the same for a whole digest, any list of steps of any length: caller notes and their lines are as they were, and everything else only grew |
| DigestWork.WorkUnique | packages/core/src/digest/fact-registry.ts:93-154 | ids stay unique through every digest step that draws new ones |
| LedgerWrites.IsCallerNoteEntry | packages/core/src/digest/fact-registry.ts:184-193 | the counting loop with its early exit answers as the definition over the whole registry |
| LedgerWrites.StampForgottenEntries | packages/core/src/digest/fact-registry.ts:240-247 | the loop stamps exactly the active forgotten notes and counts them |
| LedgerWrites.RetireForgottenNotes | packages/core/src/digest/fact-registry.ts:220-249 | in place: lines filtered, entries stamped, and the number of both returned, 0 exactly when nothing changed (`ForgettingReports`) |
| LedgerWrites.AddNoteFact | packages/core/src/digest/fact-registry.ts:281-405 | in place: heal, refuse, revise or take a slot, with the lines, links, retirements and answer the four laws of `NoteOutcomes` state |
| NoteOutcomes.HealingIs | packages/core/src/digest/fact-registry.ts:220-249 | forgetting takes out exactly the notes lines whose key is forgotten, retires exactly the active notes whose key is, as forgotten now, changes nothing else and counts both |
| NoteOutcomes.NoteRefused | packages/core/src/digest/fact-registry.ts:294-316 | a blank note changes nothing; one whose key is forgotten or whose text a line has leaves the healed ledger and answers nothing |
| NoteOutcomes.NoteRevises | packages/core/src/digest/fact-registry.ts:347-355 | a note takes over the first line it revises and answers its text; the first active note with that text is linked to it, its entry is appended, and nothing else changes |
| NoteOutcomes.NoteTakesSlot | packages/core/src/digest/fact-registry.ts:365-404 | any other note is added as the last line; at the cap the oldest line leaves and the first active entry of the notes facet or of none with its text is retired as evicted; the last unlinked note retired as forgotten that it revises is linked and answered, and without one nothing is linked or answered |
| LedgerWrites.PruneForgottenFacts | packages/core/src/memory-facts.ts:126-161 | in place: the lines and entries of every facet that `MemoryFacts.PruningIs` states |
| MemoryFacts.PruningIs | packages/core/src/memory-facts.ts:126-161 | of every facet exactly the lines whose key under the default pack's group is not forgotten stay, in order, and a facet without a group keeps all; exactly the active entries whose key under their own group in the tenant's pack is forgotten are retired as forgotten now |
| DigestFactsLaws.FactRespectsFacet | packages/core/src/digest/merge.ts:382-523 | a proposed fact leaves its facet within max(old length, cap) lines, never shrinks a write-protected one, replaces a protected line only with at least the authority of the first active non-caller entry matching it, accounts for every line that goes, states the value or records its drop, and touches no other facet |
| DigestFactsLaws.FactsRespectCapacity | packages/core/src/digest/merge.ts:364-524 | over a whole list of proposed facts every facet stays within max(old length, cap) and a write-protected one never shrinks |
| DigestWrites.ApplyOneFact | packages/core/src/digest/merge.ts:382-523 | the loop body, in place: the ledger and the drops `FactOutcomes.ExtractedFactIs` states |
| DigestWrites.ApplyProfileFactsFromDigest | packages/core/src/digest/merge.ts:364-524 | the loop over proposed facts, in place: the ledger and the drops of the run `FactOutcomes.ExtractedFactsAre` describes |
| DigestWrites.MergeProfileFacets | packages/core/src/digest/merge.ts:269-361 | the loop over routed events, in place: the ledger and the drops of the run `FactOutcomes.RoutedEventsAre` describes |
| DigestWrites.RouteOne | packages/core/src/digest/merge.ts:314-359 | one fact-sized event, in place: protected near-duplicates stand, others are replaced, the cap evicts or rejects |
| FactOutcomes.RoutedEventsAre | packages/core/src/digest/merge.ts:269-361 | every routed event, in order: it replaces the first line that states it unless an entry the run started with protects that; enters while there is room; takes the place of the first unprotected line, logged as evicted; or is logged as refused. A write-protected facet's registry states what entered, at 0.7 |
| FactOutcomes.ExtractedFactsAre | packages/core/src/digest/merge.ts:364-524 | every extracted fact, in order: which drop is logged for it; or the line it rewords, with the first non-caller entry that states it linked to the new one when wording or authority is news; or the line it takes, with the one evicted logged and its entry retired, and the new entry with authority, evidence and entities unless the registry states it |
| DigestFactsLaws.ConsolidationKeepsLineage | packages/core/src/facet-consolidation.ts:25-91 | all or nothing, and applied exactly when every output names an index in range; on false nothing changed; on true every active non-caller fact of the facet is linked to the last output that names an item behind which it stands, or retired as `consolidation_dropped` when none does; nothing else moves; each appended entry has date and evidence of the first of its earliest sources and the highest confidence of them all, or 0.7 as of now without any |
| DigestFactsLaws.MatchedIffClaimed | packages/core/src/facet-consolidation.ts:44-50 | an entry counts as a source of an output if and only if some index the output names is in range and the first unsuperseded non-caller entry stating that item is this one |
| DigestFactsLaws.ConsolidatedLines | packages/core/src/facet-consolidation.ts:93-113 | the new lines are the caller lines in their order, with the proposed texts where the first other line was, or at the end |
| DigestWrites.ApplyFacetConsolidation | packages/core/src/facet-consolidation.ts:17-114 | in place: the relinking loop, which reads caller status while it marks, and the interleaving loop compute the ledger whose entries `ConsolidationKeepsLineage` and whose lines `ConsolidatedLines` state |
| FacetConsolidation.FindSource | packages/core/src/facet-consolidation.ts:38-40 | the first unsuperseded non-caller entry of the facet stating the text, if any |
| FacetConsolidation.Earliest | packages/core/src/facet-consolidation.ts:52-55 | the source with the earliest date |
| FacetConsolidation.HighestConfidence | packages/core/src/facet-consolidation.ts:56 | the highest confidence among the sources, reached by one of them |
| HandoffLaws.CarriedRegistry | packages/core/src/handoff.ts:157-184 | after the walk the registry is the pipeline entries, each as it was or as it ended in the snapshot, then exactly the adoptable entries of the snapshot in order; what an ended entry records is `CommitRecord.OvertakenRecords` |
| CommitRecord.OvertakenRecords | packages/core/src/handoff.ts:160-176 | an own active note that the snapshot holds superseded or retired takes its link and its retirement, date and reason, exactly as the snapshot has them; every other own entry is unchanged |
| CommitRecord.ArrivalsAreAppended | packages/core/src/handoff.ts:177-179 | the notes of the snapshot whose id the pipeline does not hold and whose key is not forgotten are appended in their order and as they are, and nothing else |
| CommitRecord.CapRecords | packages/core/src/handoff.ts:188-194 | the eviction loop retires as `cap_evicted` now exactly the active entries of the notes facet or of none whose line leaves; every other entry is unchanged |
| CommitRecord.CommitRecords | packages/core/src/handoff.ts:157-194 | the commit, entry by entry: an active note whose key is forgotten is retired as forgotten now, an entry whose line the cap takes as evicted now, and every other entry is as the walk left it |
| CommitRecord.ForgettingIsRecorded | packages/core/src/handoff.ts:165-171 | a note ended while the digest ran is committed with the link, date and reason the snapshot records |
| HandoffLaws.CallerAfterCarry | packages/core/src/handoff.ts:157-184 | carried links cannot make a caller note stop being one |
| HandoffLaws.CrowdedOut | packages/core/src/handoff.ts:188-194 | a caller note is evicted by the cap only when caller notes alone exceed it |
| HandoffLaws.CarryOverUnique | packages/core/src/handoff.ts:157-194 | ids stay unique through the whole carry-over |
| DigestWrites.CarryOverConcurrentNotes | packages/core/src/handoff.ts:137-196 | in place: the walk, the forgetting and the eviction loop compute the commit whose entries `CommitRecord.CommitRecords` and whose lines `CommitLines.CarriedLines` and `CapOrder.CapKeeps` state |
| DigestWrites.CarryEntry | packages/core/src/handoff.ts:160-183 | in place: one entry of the snapshot; a held note that ended takes what the snapshot records (`CommitRecord.OvertakenRecords`) and loses its line, an unseen unforgotten one is appended, with its line when active |
| DigestWrites.HoldNotesToCap | packages/core/src/handoff.ts:188-194 | in place: the oldest line no caller note backs goes first, else the oldest, until the cap holds |
| RegistryHistory.NormalizeIsTrim | packages/core/src/digest/state.ts:189-200 | the filter by a kept set is a backward count with 500 slots for inactive entries |
| RegistryHistory.TrimShape | packages/core/src/digest/state.ts:189-200 | some point divides the registry: before it only active entries stay, after it all |
| RegistryHistory.NormalizeKeepsActive | packages/core/src/digest/state.ts:171-176 | no active entry is dropped and none is invented |
| RegistryHistory.NormalizeIdempotent | packages/core/src/digest/state.ts:189-200 | normalising twice is normalising once; at most 500 inactive entries remain |
| RegistryHistory.NormalizeKeepsCallers | packages/core/src/digest/state.ts:189-200 | a caller note is still recognised as one |
| Provenance.ProvenanceIsAChain | packages/core/src/provenance.ts:14-46 | for any registry with unique ids, cyclic or dangling links included: both walks terminate, the chain has no duplicates, links each element to the next, contains the queried fact, and begins with all of its ancestry |
| Provenance.ChainIsExact | packages/core/src/provenance.ts:22-46 | for any registry with unique ids: from the fact back each version is the last entry that names the next; the chain begins where nothing names it or what does was passed already, and ends where nothing replaces it or what does is missing or passed already |
| Provenance.SameChainFromAnyVersion | packages/core/src/provenance.ts:11-12 | in a registry whose links go forward without merging, every version of a fact answers with the same full chain, from a version nothing points at |
| Provenance.ClosedChainIsComplete | packages/core/src/provenance.ts:26-46 | while every link leads to a later entry, every answer ends with a version that nothing replaced |
| LinkRuns.ClosedRunIff | packages/core/src/handoff.ts:165-183 | all along a run, every link of the snapshot and of the digest copy leads to a later entry if and only if no commit carries a link over without its target |
| LinkRuns.CommitClosedIff | packages/core/src/handoff.ts:160-183 | a commit keeps the links closed if and only if the target of every link it carries over is adopted with it: a note, not forgotten, that the copy does not hold |
| LinkRuns.HistoriesAreComplete | packages/core/src/provenance.ts:14-46 | in a run with no such commit, the history of any fact of the snapshot ends with a version that nothing replaced |
| LinkRuns.ForgottenRevisionDangles | packages/core/src/handoff.ts:165-177 | it happens: a note is revised and the revision forgotten while a digest runs; the commit takes the link over and not the revision |
| Provenance.TruncationKeepsASuffix | packages/core/src/digest/state.ts:189-200 | after history is dropped the answer for a kept entry is a suffix of the old chain |
| Provenance.NormalizedIsClosed | packages/core/src/digest/state.ts:197-199 | dropping history leaves no kept link dangling or leading back |
| Provenance.NormalizedIsChained | packages/core/src/digest/state.ts:197-199 | and it merges none |
| Provenance.WalkBack | packages/core/src/provenance.ts:26-33 | the backward loop with its seen-set computes the ancestry |
| Provenance.WalkForward | packages/core/src/provenance.ts:35-43 | the forward loop with its seen-set computes the chain |
| Provenance.BuildFactProvenance | packages/core/src/provenance.ts:14-46 | the whole query, `null` for an unknown id included |
| StateMergeLaws.LogReplays | packages/core/src/digest/merge.ts:634-960 | replaying the change log of a merge over the loaded previous lists gives its decisions, constraints and todos up to duplicates, its open questions and risks with their windows of ten, its goal, and its volatile context unless a delta took a line from it unlogged |
| StateMergeLaws.VolatileExplainedIff | packages/core/src/digest/merge.ts:899-926 | a delta leaves the volatile context explained by its log if and only if it resolves no risk whose resolution also matches a volatile line |
| StateMergeLaws.OmissionHappens | packages/core/src/digest/merge.ts:899-926 | "fixed: api blocked" against the risk and volatile line "api blocked": for every matcher that reads these texts as the source does, the line leaves and the log does not say so |
| StateMergeLaws.DeltaAccounted | packages/core/src/digest/merge.ts:737-943 | one delta: each field changed exactly as the changes it logged say, and the windows hold |
| StateMergeLaws.SummaryCounts | packages/core/src/digest/merge.ts:213-220 | `transitionSummary` counts the whole log per field and action, an absent key meaning none |
| StateMergeLaws.ProtectedBeliefsSurvive | packages/core/src/digest/merge.ts:527-802 | for every delta list: a starting decision stated by an unsuperseded entry of the loaded registry is in the result and its removal is never logged; a goal that is set before the stream is the goal of the result |
| StateMergeLaws.DeltaTouchesItsKind | packages/core/src/digest/merge.ts:737-943 | a delta changes only the fields its kind and words entitle it to |
| StateMergeLaws.MergeIsWork | packages/core/src/digest/merge.ts:634-947 | on the ledger a merge is a list of promotions and routed events drawing the ids given to it, so the protocol theorems cover it |
| MergeOutcomes.DeltaIs | packages/core/src/digest/merge.ts:737-943 | what one delta does to the goal, to each of the six lists with its log, and to the registry: what enters, with its `add`; what is reaffirmed; what a revocation, a conflict, a closing or a resolution takes out, with its `remove`; and when the registry comes to state it. Matches are said by score, similarity and position, phases are not named |
| MergeOutcomes.MatchIs | packages/core/src/digest/merge.ts:55-73 | the value a scan answers is the first of the highest score, and only if it is similar enough and not empty |
| MergeOutcomes.TodoMatchIs | packages/core/src/digest/merge.ts:111-121 | a todo is found through the best of the comparable todo texts, as the first whose text normalises to it |
| MergeOutcomes.GoalIs | packages/core/src/digest/merge.ts:527-571 | a first goal is set; one that says the same is reaffirmed unless already cited; a document's other goal replaces, an event's never does |
| MergeOutcomes.DecisionIs | packages/core/src/digest/merge.ts:752-802 | of a decision delta: a revocation takes out the comparable decision it finds at 0.45; otherwise, when fact-sized, all it conflicts with leave, in order, and it enters or reaffirms what it finds at 0.8; nothing a loaded unsuperseded entry states is taken out; the registry states what entered at importance 0.7 |
| MergeRuns.MergeIsRun | packages/core/src/digest/merge.ts:634-961 | a whole merge is a run: the bounded loaded state, the goal of the document, one step per delta in order each as `DeltaIs` says, the routed events each as their law says, and the deduplication |
| MergeRuns.DecisionTakenIn | packages/core/src/digest/merge.ts:772-802 | a fact-sized, non-revoking decision no comparable decision matches at 0.8, once the unprotected conflicting ones have left, is the last of the decisions, its addition is logged, and at importance 0.7 an unsuperseded entry states it |
| MergeRuns.LoneDecisionIsKept | packages/core/src/digest/merge.ts:634-961 | over a state without decisions, a merge of one such decision ends with it as the one decision, logged and stated |
| StateMerge.BestIndex | packages/core/src/digest/merge.ts:55-73 | the first index with the highest score |
| StateMergeWrites.FindBest | packages/core/src/digest/merge.ts:55-73 | the scan for the best match, the first of equals |
| StateMergeWrites.FindBestWorkingNoteMatch | packages/core/src/digest/merge.ts:143-160 | the scan over texts stripped of their resolution prefixes |
| StateMergeWrites.Merging.PushRecentChange | packages/core/src/digest/merge.ts:213-220 | in place: the window stays the last 25 of the log and the summary stays the count of it |
| StateMergeWrites.Merging.MergeGoalUpdate | packages/core/src/digest/merge.ts:527-571 | in place: set, reaffirm, ignore or replace |
| StateMergeWrites.Merging.DecisionDelta | packages/core/src/digest/merge.ts:752-802 | in place: the decision phase, whose outcome `MergeOutcomes.DecisionIs` states: what is revoked, what conflicts and leaves, what enters and is promoted |
| StateMergeWrites.Merging.DropConflicting | packages/core/src/digest/merge.ts:779-789 | in place: every conflicting decision not protected by the registry leaves and is logged |
| StateMergeWrites.Merging.ResolveRisk | packages/core/src/digest/merge.ts:899-926 | in place: the match leaves and is logged, a volatile line about it leaves unlogged |
| StateMergeWrites.Merging.MergeOne | packages/core/src/digest/merge.ts:737-943 | the loop body over deltas, in place with its early exits: the state `MergeOutcomes.DeltaIs` describes field by field |
| StateMergeWrites.Merging.MergeAll | packages/core/src/digest/merge.ts:737-943 | the loop over deltas, in place: the run of `MergeRuns.MergeIsRun` |
| StateMergeWrites.ProtectedStateMerge | packages/core/src/digest/merge.ts:634-960 | the whole merge on a fresh state object: the end of the run of `MergeRuns.MergeIsRun` |
| BoundedTtlCache.CacheAnswersHistory | packages/core/src/bounded-ttl-cache.ts:10-34 | after any run of calls whose clock never goes back, a lookup hits exactly when the last write of the key is unexpired and fewer than `maxEntries` distinct other keys were written since, and returns that write |
| BoundedTtlCache.CacheIsBounded | packages/core/src/bounded-ttl-cache.ts:28-33 | the number of entries never exceeds the cap after any call, whatever the clock does |
| BoundedTtlCache.RecencyConcat | packages/core/src/bounded-ttl-cache.ts:25-27 | the recency list of two runs of writes is what the later run left untouched of the first, then the second |
| BoundedTtlCache.Cache.Set | packages/core/src/bounded-ttl-cache.ts:20-34 | in place: purge, move the key to the end, evict from the front, with both loops |
| BoundedTtlCache.Cache.Purge | packages/core/src/bounded-ttl-cache.ts:21-24 | the purge loop, deleting while walking, leaves exactly the live entries in order |
| RetrieveBudget.RankingIsStable | packages/core/src/retrieve-budget.ts:98-120 | the ranking is a sorted permutation that leaves equal facts in the order they came |
| RetrieveBudget.AuthorityIsBounded | packages/core/src/retrieve-budget.ts:103-113 | whatever the authority function, a fact with a clear relevance lead is ranked first; between positive scores that is a lead of more than half |
| RetrieveBudget.ClearLeadIff | packages/core/src/retrieve-budget.ts:103-113 | a lead is clear exactly when it survives every pair of clamped authorities, for scores of either sign |
| RetrieveBudget.BudgetIsRespected | packages/core/src/retrieve-budget.ts:140-201 | the characters reported are those of what is kept, at most the budget, the facts at most two fifths of it |
| RetrieveBudget.NothingIsLost | packages/core/src/retrieve-budget.ts:168-201 | kept and refused items together are the input items |
| RetrieveBudget.EveryDropIsCounted | packages/core/src/retrieve-budget.ts:127-138 | kept plus dropped equals input per kind; itemised plus omitted equals all drops; at most 100 are itemised, and fewer only if none is omitted |
| RetrieveBudget.PackingIsGreedy | packages/core/src/retrieve-budget.ts:170-201 | no refused fact fits the facts' final leftover, no refused event the budget's |
| RetrieveBudget.PackWithinBudget | packages/core/src/retrieve-budget.ts:122-219 | the whole packing computes the result and report the budget laws are about |
| PackOutcomes.FactsAreRanked | packages/core/src/retrieve-budget.ts:98-120 | facts compete by score times clamped authority, then confidence times authority, then the later date, and equals stay in the order they came |
| PackOutcomes.PackIs | packages/core/src/retrieve-budget.ts:122-219 | item by item: the digest whole or not at all; a fact in rank order is taken if and only if it fits what is left of two fifths of the budget or of the budget at its turn; an event likewise; refusals are reported in order with their reason and score, the first hundred itemised |
| RetrieveBudget.FillFacts | packages/core/src/retrieve-budget.ts:168-187 | the loop keeps exactly the facts the greedy fill takes, in rank order, and records every refusal |
| RetrieveBudget.FillEvents | packages/core/src/retrieve-budget.ts:189-201 | the loop keeps exactly the events the greedy fill takes, in order, and records every refusal |
| RetrieveBudget.DropRecord.Record | packages/core/src/retrieve-budget.ts:134-138 | in place: counts complete, the detail list bounded |
| CharBudget.BudgetIsExact | packages/core/src/digest/selection.ts:135-188 | under a binding budget the prompt holds at most the budget and one marker, at least one event, all whole but perhaps the last; a budget that does not bind changes nothing |
| CharBudget.PinnedSurvive | packages/core/src/digest/selection.ts:144-157 | pinned events with content are all kept whole whenever the pinned total fits |
| CharBudget.NothingCutEarly | packages/core/src/digest/selection.ts:159-182 | every leading group below the budget is kept whole |
| CharBudget.BudgetedIs | packages/core/src/digest/selection.ts:135-188 | a budget that binds keeps, of the pinned events and then the others, whole events until the room is used up, and of the next what fits beside the marker, or one character |
| CharBudget.Apply | packages/core/src/digest/selection.ts:135-188 | the loop computes that list, and the rationale reports a pinned overflow exactly when there is one |
| Stage2Chunks.PassesSeeASuffix | packages/core/src/digest/stage2.ts:46-85 | the passes hold a suffix of the candidates in order, each pass within budget or a single candidate, no more passes than the ceiling |
| Stage2Chunks.CeilingIsUsed | packages/core/src/digest/stage2.ts:59-85 | the passes are the last ones of a split into admissible chunks each opened because its first candidate did not fit the one before; when anything is left out there are as many passes as the ceiling |
| Stage2Chunks.NothingDroppedIffSplittable | packages/core/src/digest/stage2.ts:59-85 | nothing is dropped if and only if some split into admissible passes stays within the ceiling |
| Stage2Chunks.NextFitIsFewest | packages/core/src/digest/stage2.ts:70-82 | no split into admissible passes has fewer passes |
| Stage2Chunks.SmallCorpusIsWhole | packages/core/src/digest/stage2.ts:59-85 | nothing is dropped when the total is at most floor(maxChunks/2) times the budget |
| Stage2Chunks.ChunkDeltaCandidates | packages/core/src/digest/stage2.ts:59-85 | the loop computes the next-fit split the laws are about, cut to the most recent passes |
| EventPaging.PagingIsExact | apps/mcp/src/embedded-repos.ts:203-213 | following the cursor from the start, for any limit of at least 1, gives the listing the first page was read from: no row skipped or repeated, whatever newer rows arrive between pages |
| EventPaging.PageContinues | apps/mcp/src/embedded-repos.ts:126-142 | a page after the k-th row starts at the next one, whatever newer rows arrived |
| EventPaging.ListingIsExact | apps/mcp/src/embedded-repos.ts:120-141 | the listing holds each visible row of the scope once, by createdAt then id, descending |
| EventPaging.PageIs | apps/mcp/src/embedded-repos.ts:126-142 | a page holds the first `limit` visible rows of the scope after the cursor's row, by createdAt then id descending, and hands back the last of them exactly when some are left; after a row that is gone it is empty |
| EventPaging.MonotonicClock.NowMs | apps/mcp/src/embedded-repos.ts:49-56 | stamps strictly increase and never run behind the clock |
| EventPaging.StampedRowIsFirst | apps/mcp/src/embedded-repos.ts:19-30 | a row stamped after every other is listed first |

## Left out

- StateMerge.Merge: models documents only as far as the goal they state; the document-backed lists (`packages/core/src/digest/merge.ts:585-632`) compare by normalised text and log the provenance value rather than the list value, so an exact account of them is not claimed.
- StateMerge.MergeDelta: takes as an oracle whether the provenance of a value already cites the event; provenance lists, evidence references, confidence scores and the dropped-fact log of the merge are not part of the state.
- StateMergeWrites.Merging.PushRecentChange: keeps the window as the merge holds it; the last normalisation, which trims values and drops empty ones, is not modelled.
- StateMerge.MergeDeltas: visits the deltas in the order given; sorting them by date and id is not modelled.
- RegistryHistory.NormalizeKeepsCallers: one direction only; a consolidated entry of confidence 0.9 can come to look like a caller note once the sources that point at it are dropped (`LineRuns.HistoryRevealsANote`).
- ScopeTheorems.CommitUndoesNothing: speaks of entries of the notes facet; for the others `Reactivation.CommitReactivatesIff` says when a commit undoes a retirement.
- LinkRuns.ClosedRunIff: says that links lead forward, not that no two share a target: a consolidation merges several facts into one.
- EmbeddedStore.Scope.Forget: covers the forgotten key and the notes; the source event and index rows that `forget` also suppresses (`apps/mcp/src/embedded.ts:407-421`) are not part of the state.
- EventPaging.PagingIsExact: rows that arrive are newer than those listed; suppressing or backdating rows between pages is not covered.
- RetrieveBudget.ShareCap: takes the share 0.4 as two fifths, and scores as real numbers; `addedAt` is its position in the order timestamps compare in.
- CharBudget.Truncated: cuts by characters, not UTF-16 code units.
- Aliasing: the engine shares entry objects between the latest and the committed state; entries are values here.
- The display grouping of facts is not modelled.
- Entity lists of facts are carried as given; their trimming, lower-casing and limit of ten are not modelled.
- SQL, locks and isolation levels, model and embedding calls, queues, HTTP and MCP surfaces: outside the model, which takes their results as parameters.
- Session handoff rows, facet prompts, domain configurations, regex extraction and tokenisation: descriptive, or string detail that adds no depth.
