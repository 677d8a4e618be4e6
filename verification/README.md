# Search reductions and code generators of vLadder, in Dafny

vLadder claims that its search reductions remove redundant work without losing any result, and that the
programs it generates compute what their sources compute. This project models the code behind those
claims and proves them for all inputs, or states exactly where they stop holding.

`dafny verify dfyconfig.toml` checks everything.

## What is modelled

**The canonical search** (`Actions`, `Commutation`, `Grammar`, `Exploration`, `Soundness`, `Steps`, `Completeness`,
`Accounting`, `Transitions`, `Table`, `Verifier`, `Engine`, `Layers`, `Losses`). `Exploration` gives the search as functions
on snapshots: record table, queue, edges, terminals, counters. `Table`, `Verifier` and `Engine` are the
classes with the source's fields and loops, each method proved equal to those functions. A grammar is an
arbitrary transition system that meets the contracts in `Grammar.dfy` (`Lawful`): canonically equal states are
interchangeable, a legal action was enabled and is recorded in its result, asking for a first action gives an
initial state or nothing, and the declared needs and conflicts can be read off the canonical state. Digests
are arbitrary functions. Frontier scores, the choice of where partial-order reduction (POR) applies, budgets,
clocks and memory ceilings are arbitrary.

Only a search that reduces asks for more: that the order of a commuting pair it relies on when it skips the
other order passes through no terminal state (`Exploration.SkipsAreExcused`; nothing is asked where the pair
starts at a terminal state or the skipped order meets one, since nothing is expanded there), and that questions
which share an entry of the verifier's cache have one answer (`Verifier.Unambiguous`). Colliding primary digests
are allowed throughout; what identifies a record is the pair of digests in its identifier.

The central argument is `Soundness.EveryEdgeIsCovered`: in a finished table every edge of an expanded
state leads into the table, also when POR skipped it. A skipped edge is replaced by the same action at a
state expanded earlier, followed by an action with a larger key, and neither can go on for ever. It does
not use the order of expansion, so it covers every frontier policy, every interruption and every resume.
`Engine.Search` states the result for the running code: its result is what a series of pops leaves, stopped
by an empty queue or a spent budget and by nothing else, and its edges are the transitions of the grammar
(`Transitions`). `Commutation` says what the footprint screen is for: changes within footprints that pass it
commute. `Layers` says which checkpoints an unreduced search
can be resumed from without losing shortest distances, `Losses` when the reduction is certain to lose a form.
`SequenceSearch.TerminalParity` compares the search with naive path enumeration, and `DependencyGrammar`
discharges all contracts for the qualification fixture, generalised to any list of actions with distinct keys.

**Interning** (`Interning`): what the table holds after any series of atomic interns in any order.
**Projection** (`Projection`): the older trace format, one node for each edge.

**Canonical forms** (`CanonicalForms`, `Attempting`, `Renamings`, `RenamingLimits`, `SetPlaces`): the least form
over all numberings of declared identities and interchangeable nodes; complete within its two bounds, not complete beyond
either, and sound always: equal forms mean one bijection of identities and one of interchangeable nodes. When
they mean a single renaming of the whole state is stated exactly. **Labels**
(`Refinement`): Weisfeiler-Lehman labels and the topology hash. **Dependencies** (`DependencyOrder`):
topological order of requirements.

**Search traces**: `Tarjan` (largest strongly connected component), `BestFirst` and `ReplayOrder` (replay under
arbitrary scores, and its order said of the order itself), `ContextualLabels` (labels, auditor and preferences), `Ownership` (terminal normalisation),
`Calibration` and `Pruning` (risk threshold and online replay).

**Code generators**: `CExpression` (printer and parser), `CGrammar` (the grammar they agree with), `Unrolling` (ordered unrolling and partitioned
loops under 64-bit wrap-around), `Reductions` (banked reduction schedules), `BitReduction` (population
count). `Lists` holds the multiset lemmas several of these share.

## Where the code does not do what it promises

Each of these is a lemma with a concrete instance, or one for every instance; where the promise holds is stated
beside it.

- The verifier never looks at `terminal`. A lawful grammar with a commuting pair that passes through a terminal
  state can lose a state to POR (`Findings.TerminalWithLegalActionLosesAState`). POR loses nothing when there
  is no such pair whose skipped half would be tried (`Engine.Search`; `Findings.EndedPairsNeedNoExcuse` has a
  terminal between commuting actions that does no harm); and a form all of whose ways in repeat commuting pairs
  is missed by every search that reduces everywhere (`Losses.ReducedSearchMisses`). Between the two nothing is
  claimed.
- After a resume, `depth_minimum` of a completed search can exceed the shortest distance, for two reasons. With
  POR, the checkpoint keeps the smallest path by encoding, which need not be a shortest one
  (`Findings.ResumedDepthCanBeWrong`). Without POR, the queue is rebuilt in the order of identifiers, and a
  checkpoint whose queue spans three layers loses them (`Findings.TwoResumesSpoilDepths`). Depths are exact
  when the search was not resumed or the grammar is graded (`Engine.Search`), and without POR as long as every
  checkpoint that is resumed has its queue in at most two layers, as a search that was never resumed always
  leaves it (`Layers.UnreducedDepths`). States and terminals are exact in every case.
- The independence cache compares digests only, although the documentation says digests index and bytes
  decide; with colliding digests it serves stale evidence
  (`Findings.CollidingDigestServesStaleEvidence`). It stays truthful under every series of questions if and
  only if no two questions with one key differ in their answers (`Verifier.TruthfulExactlyWhenUnambiguous`).
- Naive enumeration drops impossible and dominated states, the canonical search does not; the two
  disagree on such terminals and on actions with declared conflicts (`Findings.ImpossibleTerminalBreaksParity`,
  `Findings.ConflictBreaksParity`). They agree on transparent grammars (`SequenceSearch.TerminalParity`).
- The second half of a state identifier is derived from the same digest as the first, so it separates
  nothing the first does not; lookup by identifier is faithful exactly when no two recorded forms share
  one (`Table.TranspositionTable.LookupIsFaithful`).
- Beyond either bound equal states get different forms: for any two identities there are states that differ in
  names only (`CanonicalForms.BeyondTheBound`), and any interchangeable node of any state can be given another
  name (`RenamingLimits.BeyondThePermutations`).
- An identity inside a set can show in the form, because sets are put in order before renaming
  (`SetPlaces.ARenamedIdentityShows`). Two sets of strings that differ in the names of identities have one form
  if and only if the identities have the same ranks among all elements (`SetPlaces.IdentitiesInSetsShow`).
- An interchangeable node that is referenced outside the edges keeps its name there while the node itself is
  exchanged. Within the bound on permutations, giving any such node of any state a fresh name leaves the form as
  it is although no renaming turns one state into the other (`RenamingLimits.ReferencedNodesAreMerged`, with an
  instance in `RenamingLimits.OneReferenceIsEnough`). A form
  stands for one state up to a single renaming if and only if interchangeable nodes are referenced from edges
  only, or are too many to be permuted (`RenamingLimits.OneRenamingExactly`).
- The printer drops the parentheses of a right-nested sum, product, quotient or difference under `+` and
  `*`, of a nested comparison and of a ternary used as a condition; the last two change the value
  (`CExpression.NestedComparisonChangesValue`, `CExpression.NestedConditionChangesValue`). The first
  changes the order of evaluation, which floating point can observe.
- The guard of the partitioned loop wraps for bounds near 2^64; it is exact if and only if
  `end - (end - start) % factor + factor - 1 < 2^64` (`Unrolling.PartitionGuard`). The guard of the ordered
  unrolling has no such limit.
- A checkpoint of the replay reports the first point of greatest cost, and a dominated state costs nothing
  although the load check admits terminals on it, so the full budget can miss a useful terminal
  (`BestFirst.FreeTerminalIsMissed`). Under every score map it recovers all of them if and only if every
  useful terminal that can be reached for nothing lies on every way to some state that costs something
  (`BestFirst.OrderingNeverDeletes`; the condition suffices for any tree, and is necessary where action
  identifiers determine the child, not otherwise: `BestFirst.SharedActionsRecover`).
- Normalising terminal ownership can add an integrity error. A terminal is broken if and only if it is attached
  to a state with a reference: one taken for want of an owner (`Ownership.WithoutOwnerADefectAppears`), or one
  whose reference is empty, which the choice skips and the check does not, even where every hash has exactly
  one owner (`Ownership.EmptyReferenceADefectAppears`). Fresh labels repeat duplicate frontiers and actions.
  The exact condition for the whole trace is `Ownership.AddsNoErrorExactly`.

## Model

| member | source | states |
|---|---|---|
| Actions.ScreenIsSymmetric | vladder/canonical_search.py:522-563 | the screen accepts a pair in one order exactly when it accepts it in the other, which the verifier's shared cache entry relies on |
| Actions.KeysOfAppend | vladder/canonical_search.py:1009-1017 | the applied keys of a longer history |
| Commutation.ScreenDecides | vladder/canonical_search.py:522-563 | the screen passes exactly the compatible pairs: complete footprints, no ordered or external effects, no declared conflict, no alias, authority, lifetime or owner in common, and in none of the five kinds of resources does one write what the other reads or writes |
| Commutation.ReasonHolds | vladder/canonical_search.py:522-563 | the reason given for a rejection is true of the pair |
| Commutation.ScreenedActionsCommute | vladder/canonical_search.py:522-563 | any two changes of a store that write only what their footprints declare written, and depend only on what they declare, commute when the screen passes |
| Commutation.FootprintsDecide | vladder/canonical_search.py:527-555 | changes within two footprints always commute if and only if neither writes what the other writes or bases its writing on; of footprints that write something the screen asks for no more than that |
| Soundness.LedgerOfPath | vladder/canonical_search.py:1009-1017 | along any path the keys read off the history, as far as footprints name them, are those recorded in the canonical state |
| Soundness.PathIsMade | vladder/canonical_search.py:820-959 | every state on a path is one the grammar makes |
| Soundness.BlockedByLedger | vladder/canonical_search.py:897-906 | the dependency guard, evaluated on whichever path discovered the record, decides the same for every path to the form |
| Soundness.PathHeedsTheGuard | vladder/canonical_search.py:897-906 | along every path an action comes after everything it needs and after nothing it conflicts with |
| Soundness.StepAlike | vladder/canonical_search.py:924-935 | a step from one state of a form is matched from any other state of the form |
| Soundness.WitnessAfterState | vladder/canonical_search.py:907-921 | what a verified commutation supplies: the predecessor steps by the later action first and the two orders meet |
| Soundness.WitnessAtRoot | vladder/canonical_search.py:907-921 | the same for a pair of first actions, with an initial state as the other predecessor |
| Soundness.EveryEdgeIsCovered | vladder/canonical_search.py:820-959 | in a finished table every legal edge of an expanded form leads to a recorded form, skipped or not, with the right depth when depths are tracked; for any frontier order and POR choice |
| Soundness.CoverLarger | vladder/canonical_search.py:907-921 | the second half of a commuting pair, from any state of a recorded form, is covered |
| Soundness.FinishedTable | vladder/canonical_search.py:820-959 | a table whose records are all expanded or terminal holds every reachable form, at its shortest distance unless the queue was rebuilt for an ungraded grammar |
| Soundness.AddStateQueues | vladder/canonical_search.py:744-769 | adding a state keeps the queue exact: one item for each unexpanded record, each with a genuine discovery |
| Steps.ViableMembers | vladder/canonical_search.py:897-922 | which enabled actions survive the dependency guard and POR, both directions |
| Steps.RealizedMembers | vladder/canonical_search.py:923-935 | which children those actions realise, both directions |
| Steps.ViableCounts | vladder/canonical_search.py:893-922 | every enabled action is followed, held back or skipped, and the two counters say exactly how many are held back and skipped |
| Steps.RankingNeverDeletes | vladder/canonical_search.py:945-955 | ordering by any scores keeps every child and its multiplicity, best first and equal scores in their old order |
| Steps.ChildrenKeep | vladder/canonical_search.py:954-958 | interning all children of a record keeps the invariant of the search |
| Steps.TakeHead | vladder/canonical_search.py:848-853 | taking the head of the queue keeps it exact, with only the taken record in hand |
| Steps.PopKeeps | vladder/canonical_search.py:820-959 | every pop, whatever its branch, keeps the invariant of the search: nothing lost, nothing invented, skipped edges justified |
| Completeness.StartKeeps | vladder/canonical_search.py:813-818 | interning the initial states establishes the invariant |
| Completeness.SearchInventsNothing | vladder/canonical_search.py:820-959 | at any moment every record is a reachable form and every reported terminal a terminal form |
| Completeness.DryQueueIsComplete | vladder/canonical_search.py:820-959 | when the queue is empty the records are exactly the reachable forms, the terminals exactly the terminal ones, and tracked depths are shortest distances |
| Completeness.CompletedSearchesAgree | vladder/canonical_search.py:695-1007 | two completed searches agree on forms and terminals whatever their policies, POR choices, interruptions and resumes |
| Completeness.ReplayAgrees | vladder/canonical_search.py:1032-1063 | replaying a recorded path succeeds and passes through states canonically equal to those that made it |
| Completeness.ReplayedLeads | vladder/canonical_search.py:1048-1063 | the state rebuilt before the last action is one from which the record was genuinely discovered |
| Completeness.OnePathOneForm | vladder/canonical_search.py:1057-1062 | a path of actions leads to one canonical form only |
| Completeness.RebuiltItems | vladder/canonical_search.py:809-812 | rebuilding the queue from a checkpoint gives one sound item for each queued record |
| Completeness.ResumeKeeps | vladder/canonical_search.py:771-812 | a resumed search satisfies the invariant again, also after shorter or smaller paths replaced the first discovery |
| Completeness.StoppedIsResumable | vladder/canonical_search.py:820-847 | wherever a budget stops the run, what it returns can be resumed |
| Accounting.AddStateBalances | vladder/canonical_search.py:744-769 | one more edge keeps the books: a new state or one merge, counted under its kind and listed once at its record |
| Accounting.StartBalances | vladder/canonical_search.py:813-818 | the books balance after the initial states |
| Accounting.ExpandBalances | vladder/canonical_search.py:868-959 | expanding a record keeps the books balanced |
| Accounting.PopBalances | vladder/canonical_search.py:820-959 | in every reachable snapshot edges = unique states + exact, alpha and symmetry merges, every record lists exactly the edges into it, creation edge first, and parents are older |
| Table.StateRecord.constructor | vladder/canonical_search.py:407-416 | a new record holds the given node |
| Table.StateRecord.Merge | vladder/canonical_search.py:388-394 | merging updates parent edges without duplicates, both depths and the smaller path, and nothing else |
| Table.TranspositionTable.constructor | vladder/canonical_search.py:365-370 | an empty, valid table |
| Table.TranspositionTable.Find | vladder/canonical_search.py:382-387 | scanning a bucket finds the record of these bytes exactly if there is one, whatever else shares the digest |
| Table.TranspositionTable.Insert | vladder/canonical_search.py:405-419 | a new record enters bucket and identifier index, and the table stays one record per form |
| Table.TranspositionTable.MergeInto | vladder/canonical_search.py:388-401 | merging into a record changes that record only |
| Table.TranspositionTable.Intern | vladder/canonical_search.py:372-419 | equals the pure intern function on the old table for any digest: bytes decide every merge, the mechanism is classified as in the source, and a new form counts one collision per bucket mate |
| Table.TranspositionTable.Restore | vladder/canonical_search.py:421-435 | a restored record is found under its form |
| Table.TranspositionTable.Lookup | vladder/canonical_search.py:849 | lookup by identifier gives the form's own record when identifiers separate forms |
| Table.TranspositionTable.Mark | vladder/canonical_search.py:851-855 | setting an exploration status touches one record |
| Table.TranspositionTable.LookupIsFaithful | vladder/canonical_search.py:403-406 | lookup by identifier is faithful if and only if no two recorded forms share an identifier |
| Interning.MergeDepths | vladder/canonical_search.py:390-391 | merging keeps both depths the extremes of all discoveries |
| Interning.MergePaths | vladder/canonical_search.py:392-394 | merging keeps the least path of all discoveries |
| Interning.MergeEdges | vladder/canonical_search.py:388-389 | merging keeps the parent edges duplicate-free and complete |
| Interning.InternHolds | vladder/canonical_search.py:372-419 | after any intern each record sums up exactly the discoveries of its form |
| Interning.HoldsAgree | vladder/canonical_search.py:372-419 | the set of discoveries determines forms, depths, least path and parent edges |
| Interning.OrderDoesNotMatter | vladder/canonical_search.py:381-419 | any two orders of the same interns give the same records |
| Interning.InternAll | vladder/canonical_search.py:372-419 | on an empty table, with any digests, a record is created exactly at the first discovery of each form |
| Verifier.JudgeDecidesCommutes | vladder/canonical_search.py:566-614 | the verdict is positive exactly when both orders are legal and meet canonically |
| Verifier.IndependenceMeans | vladder/canonical_search.py:566-614 | two actions are independent exactly if their footprints are compatible and both orders are legal and meet |
| Verifier.JudgeGivesReason | vladder/canonical_search.py:581-614 | the reason given with a verdict is true |
| Verifier.AskedOnce | vladder/canonical_search.py:574-616 | a verdict is stored under both orders, changes no other entry, and makes every later question of the pair a lookup |
| Verifier.CommutesIsSymmetric | vladder/canonical_search.py:577-580 | independence does not depend on which action is called left |
| Verifier.CommutesRespectsForm | vladder/canonical_search.py:577-614 | independence is the same at every state of a canonical form |
| Verifier.CacheKeeps | vladder/canonical_search.py:577-614 | asking a question keeps the cache truthful when questions that share an entry have one answer |
| Verifier.TruthfulExactlyWhenUnambiguous | vladder/canonical_search.py:574-614 | the cache stays truthful under every series of questions if and only if no two questions with one key differ in their answers |
| Verifier.SeparatingIsUnambiguous | vladder/canonical_search.py:574-579 | digests that never collide and keys that identify actions are more than enough |
| Verifier.IndependenceVerifier.Verify | vladder/canonical_search.py:566-614 | answers from the cache or stores a new verdict under both orders; with an unambiguous key the answer is right for this state and pair: compatible footprints, and both orders legal and meeting |
| Engine.CanonicalSearch.AddOne | vladder/canonical_search.py:744-769 | equals adding a state to the old snapshot |
| Engine.CanonicalSearch.AddInitialStates | vladder/canonical_search.py:813-818 | equals the starting snapshot |
| Engine.CanonicalSearch.Filter | vladder/canonical_search.py:897-922 | computes exactly the viable actions and counts what it avoided |
| Engine.CanonicalSearch.Realize | vladder/canonical_search.py:923-936 | computes exactly the realised children |
| Engine.CanonicalSearch.AddRanked | vladder/canonical_search.py:954-958 | adds the ranked children in order |
| Engine.CanonicalSearch.ExpandOne | vladder/canonical_search.py:868-959 | equals expanding the record, or reports a policy that does not return one score per child |
| Engine.CanonicalSearch.PopOne | vladder/canonical_search.py:848-959 | equals one pop of the old snapshot |
| Engine.CanonicalSearch.Drain | vladder/canonical_search.py:820-959 | terminates, keeps the invariant and the books, and is a series of pops that ends with an empty queue or before a pop for which a budget is spent |
| Engine.CanonicalSearch.RestoreAll | vladder/canonical_search.py:776-782 | the table holds exactly the checkpoint's records |
| Engine.CanonicalSearch.Requeue | vladder/canonical_search.py:809-812 | the queue is the rebuilt one, or the replay failed |
| Engine.CanonicalSearch.Collect | vladder/canonical_search.py:1001 | the records, each once, in increasing order of identifiers |
| Transitions.AddChildrenAdds | vladder/canonical_search.py:744-769 | interning children adds one edge for each, in order, from the expanded record, with its action, form and depth, classed by what the form was before renaming |
| Transitions.StartDraws | vladder/canonical_search.py:813-818 | a fresh search has the edges of the initial states, in order, without a parent and at depth 0, and no others |
| Transitions.PopDraws | vladder/canonical_search.py:848-959 | every pop keeps the edges true: first those of the initial states, then steps between made states from expanded records, none twice, and from each expanded record every step but those redundant for one discovery of it |
| Transitions.EveryStepHasAnEdge | vladder/canonical_search.py:868-959 | in a complete result drawn without reduction every unblocked legal step from a recorded form has an edge |
| Engine.Search | vladder/canonical_search.py:695-1007 | the whole run: unsupported budgets are refused; the result is what a series of pops leaves, complete if and only if the queue ran empty before a budget was spent; its edges are those of the initial states and then transitions of the grammar, none missing without reduction; a complete result, reduced or not, resumed or not, holds exactly the reachable forms and the terminal ones, with shortest depths if not resumed or graded; any other can be resumed |
| Engine.OnlyBudgetsStop | vladder/canonical_search.py:820-847 | an incomplete result is over its node budget, has used up its work budget, or met the clock or memory ceiling |
| Engine.PopsWithinBudgets | vladder/canonical_search.py:820-847 | before every pop the node and work budgets were not used up and neither clock nor memory ceiling had struck |
| Engine.EnoughBudgetCompletes | vladder/canonical_search.py:820-847 | if no more forms can be reached than the node budget allows, and nothing else stops it, every run completes |
| Layers.BandPops | vladder/canonical_search.py:848-959 | without reduction a pop leaves the rest of its generation alone and queues what it finds in the next, one layer further on |
| Layers.BandTurns | vladder/canonical_search.py:848-959 | when a generation is worked off, everything one step further is recorded at its distance |
| Layers.UnreducedDepths | vladder/canonical_search.py:771-847 | without reduction a run that began fresh, or at a checkpoint whose queue lay in at most two layers, has shortest depths when complete, and leaves such a checkpoint whenever its own queue lies in two layers |
| Layers.OneResumeKeepsDistances | vladder/canonical_search.py:771-847 | an unreduced search may be stopped anywhere and resumed once |
| Losses.ReducedSearchMisses | vladder/canonical_search.py:907-921 | a form all of whose ways in repeat commuting pairs is never recorded by a search that reduces everywhere |
| SequenceSearch.EnumerateSequences | vladder/canonical_search.py:1081-1132 | naive enumeration: complete runs report exactly the terminals of possible derivations, incomplete ones none but those; incomplete only over budget, and a weight that falls along expansions bounds what is generated |
| SequenceSearch.DerivedByPath | vladder/canonical_search.py:1098-1118 | what the enumeration derives lies on a path of the canonical search |
| SequenceSearch.PathIsDerived | vladder/canonical_search.py:1098-1118 | what lies on a path is derived by the enumeration, on transparent grammars |
| SequenceSearch.TerminalParity | scripts/qualify_canonical_search.py:270-289 | the terminal forms of the canonical search are exactly those of naive enumeration on transparent grammars |
| DependencyGrammar.EnabledMembers | scripts/qualify_canonical_search.py:114-116 | which actions the fixture enables |
| DependencyGrammar.AppliesOnlyListed | scripts/qualify_canonical_search.py:118-125 | a legal application is of a listed, unapplied action whose needs are met |
| DependencyGrammar.FixturePaths | scripts/qualify_canonical_search.py:88-146 | a path of the fixture applies listed actions, none twice; its state holds exactly their keys and is terminal exactly when all are applied |
| DependencyGrammar.FixtureIsLawful | scripts/qualify_canonical_search.py:88-146 | the dependency fixture meets every contract of the search for every list of actions with distinct keys |
| DependencyGrammar.FixtureIsTransparent | scripts/qualify_canonical_search.py:88-146 | it is transparent to naive enumeration when no action declares a conflict |
| DependencyGrammar.FixtureExcuses | scripts/qualify_canonical_search.py:118-125 | the fixture excuses every skip: the order of a commuting pair that is kept passes through no terminal state |
| DependencyGrammar.FixtureIsWeighted | scripts/qualify_canonical_search.py:112-125 | how many states the enumeration generates below each state at most |
| DependencyGrammar.AmpleCompletes | scripts/qualify_canonical_search.py:270-289 | a node budget of two to the number of actions lets every search of the fixture complete |
| DependencyGrammar.Qualify | scripts/qualify_canonical_search.py:270-289 | with ample budgets enumeration, unreduced and reduced search all complete, and whenever they do they find the same terminals |
| Findings.TerminalWithLegalActionLosesAState | vladder/canonical_search.py:853-867 | a lawful grammar, a commuting pair that passes through a terminal state, and a reduced search of it that ends without a reachable form, as all that reduce everywhere must |
| Findings.EndedPairsNeedNoExcuse | vladder/canonical_search.py:853-867 | a lawful grammar with a commuting pair that passes through a terminal state and needs no excuse, because its record is never expanded |
| Findings.ResumedDepthCanBeWrong | vladder/canonical_search.py:809-812 | a stop, a resume and a completed reduced run whose recorded depth exceeds the shortest distance |
| Findings.TwoResumesSpoilDepths | vladder/canonical_search.py:809-812 | two stops and resumes without reduction after which a recorded depth exceeds the shortest distance |
| Findings.CollidingDigestServesStaleEvidence | vladder/canonical_search.py:574-580 | two forms with one digest: one question makes the cache answer another wrongly |
| Findings.ImpossibleTerminalBreaksParity | vladder/canonical_search.py:1107-1108 | an impossible terminal is reported by the canonical search and dropped by enumeration |
| Findings.ConflictBreaksParity | vladder/canonical_search.py:1009-1017 | a declared conflict holds back a terminal that enumeration reports |
| Projection.CanonicalToLazy | vladder/canonical_search.py:1135-1190 | exactly one node for each edge, agreeing with it; the creating edge gives the form's own node at its least depth, every other edge a duplicate at its own depth naming its owner |
| Projection.OwnNodes | vladder/canonical_search.py:1143-1171 | one node for each record, at the edge that created it |
| Projection.ParentIsOlder | vladder/canonical_search.py:1143-1146 | the parent of a node is the own node of a form with an older creating edge, so the trace is a forest |
| Projection.TraceFollowsTheGrammar | vladder/canonical_search.py:1135-1194 | exactly the nodes of the initial states have no parent, and every other node is a step from its parent's form |
| Projection.OneOwner | vladder/canonical_search.py:1172-1190 | each canonical form has exactly one node of its own |
| CanonicalForms.RenameTwice | vladder/canonical_search.py:163-186 | renaming a value in two steps is renaming it once |
| CanonicalForms.NumberingsAre | vladder/canonical_search.py:148-159 | the enumerated assignments are exactly the injective ones onto the free names |
| Attempting.TriesAllOrOne | vladder/canonical_search.py:147-155 | there are as many numberings as the factorial says; if they are no more than the bound exactly all are tried, otherwise exactly one |
| CanonicalForms.ChoicesComplete | vladder/canonical_search.py:236-250 | the enumerated permutations are exactly the numberings of interchangeable nodes class by class |
| CanonicalForms.NormalizeGraph | vladder/canonical_search.py:209-268 | the graph returned is a candidate and no candidate has a smaller encoding |
| CanonicalForms.Normalize | vladder/canonical_search.py:147-195 | the form returned is the canonical one: least over all numberings tried, each with its graph least |
| CanonicalForms.CanonicalIsUnique | vladder/canonical_search.py:188-195 | the canonical form is unique |
| CanonicalForms.GraphAlike | vladder/canonical_search.py:237-268 | corresponding numberings of a state and of a renamed, rearranged copy give the same form |
| CanonicalForms.VariantsAgree | vladder/canonical_search.py:147-268 | completeness below the bounds: states that differ by a bijection of identities and by renaming or permuting interchangeable nodes within classes have the same canonical form |
| Renamings.FormShows | vladder/canonical_search.py:147-268 | a form shows exactly the renamed names of the state |
| Renamings.EqualFormsAreRenamings | vladder/canonical_search.py:147-268 | soundness within and beyond the bounds: equal forms give one bijection of the identities that occur, the same in edges and elsewhere, and one of the interchangeable nodes that respects classes, which turn the first state into the second, and back |
| Renamings.EqualFormsAreOneRenaming | vladder/canonical_search.py:147-268 | where interchangeable ids stand in edges only, a single renaming that can be undone turns the whole state into the other, keeps identities, classes and all other names |
| RenamingLimits.MovedFormsAgree | vladder/canonical_search.py:209-268 | within the bound on permutations giving an interchangeable node a fresh name never changes the form, whatever refers to the node |
| RenamingLimits.ReferencedNodesAreMerged | vladder/canonical_search.py:209-268 | in every state with a node referenced outside the edges that node can be given a fresh name with the same form, and no renaming turns one state into the other |
| RenamingLimits.OneReferenceIsEnough | vladder/canonical_search.py:209-268 | a concrete state with one node and one reference to it, and the state merged with it |
| RenamingLimits.BeyondIsOneRenaming | vladder/canonical_search.py:228-235 | beyond the bound on permutations equal forms always mean one renaming of the whole state, which keeps the names of interchangeable nodes |
| RenamingLimits.OneRenamingExactly | vladder/canonical_search.py:209-268 | every state with a form is one renaming away from any other if and only if interchangeable nodes are referenced from edges only or are beyond the bound on permutations |
| RenamingLimits.BeyondThePermutations | vladder/canonical_search.py:228-235 | beyond the bound on permutations every state shares no form with the variant in which one node has another name |
| CanonicalForms.BeyondTheBound | vladder/canonical_search.py:149-155 | beyond the bound, for any two identities, two states that differ in names only have no form in common |
| SetPlaces.FormsShowPlaces | vladder/canonical_search.py:49-54 | within and beyond the bounds, sets with a common form have their identities at the same ranks |
| SetPlaces.IdentitiesInSetsShow | vladder/canonical_search.py:49-54 | two sets of any size that differ in the names of identities have one form if and only if the identities have the same ranks among the elements |
| SetPlaces.ARenamedIdentityShows | vladder/canonical_search.py:49-54 | a concrete renaming that changes the rank of an identity and with it the form |
| Refinement.WlLabels | vladder/canonical_search.py:1318-1356 | the loop with its early exit computes the refinement after all rounds |
| Refinement.EarlyExitIsExact | vladder/canonical_search.py:1353-1356 | stopping as soon as a round changes nothing gives the labels that all rounds would give |
| Refinement.SightsFollow | vladder/canonical_search.py:1344-1351 | corresponding nodes of isomorphic graphs see the same neighbourhoods, dangling edges included |
| Refinement.RoundsFollow | vladder/canonical_search.py:1343-1356 | isomorphic graphs get the same labels for any hash and any number of rounds, and stop early together |
| Refinement.TopologyIsInvariant | scripts/composition_native_policy.py:1122-1189 | the topology hash ignores node order, edge order and consistent renaming |
| Refinement.RoundsRefine | vladder/canonical_search.py:1318-1322 | with a collision-free hash the rounds only split classes |
| Refinement.RoundSplitsExactly | vladder/canonical_search.py:1343-1352 | with a collision-free hash two nodes keep equal labels exactly if they had equal labels and see every kind and label equally often along incoming and along outgoing edges |
| Refinement.TopologyCounts | scripts/composition_native_policy.py:1122-1189 | the hashed topology gives for every label the number of its nodes and for every kind and two labels the number of such edges |
| DependencyOrder.BuildIs | vladder/canonical_search.py:1366-1374 | the edges are exactly the declared needs between listed actions |
| DependencyOrder.DependencySort.constructor | vladder/canonical_search.py:1384-1389 | nothing placed, and exactly the keys without requirements ready |
| DependencyOrder.DependencySort.Place | vladder/canonical_search.py:1391-1397 | places the next ready key and releases exactly the keys that waited for it only |
| DependencyOrder.SortedIsAcyclic | vladder/canonical_search.py:1383-1398 | a graph with a topological order has no cycle |
| DependencyOrder.StuckIsCyclic | vladder/canonical_search.py:1383-1398 | keys that all wait for one another hold a cycle |
| DependencyOrder.TopologicalOrder | vladder/canonical_search.py:1383-1398 | a duplicate-free order of all keys with every requirement first, or none exactly when the requirements are cyclic |
| Tarjan.GroupIsComponent | scripts/search_pruner.py:442-450 | what is popped at a root is mutually reachable and maximal |
| Tarjan.GroupIsClosed | scripts/search_pruner.py:442-450 | nothing leads out of the popped group except into groups popped before |
| Tarjan.AfterTreeEdge | scripts/search_pruner.py:436-439 | after the visit of a new successor the low link again bounds every way below the node and is itself reached |
| Tarjan.AfterBackEdge | scripts/search_pruner.py:440-441 | the same after a successor still on the stack |
| Tarjan.SccFinder.Visit | scripts/search_pruner.py:430-450 | a visit keeps the invariant of the search and leaves the old part of the stack alone |
| Tarjan.SccFinder.PopDownTo | scripts/search_pruner.py:442-450 | pops exactly the nodes above and including the root and counts them |
| Tarjan.Adjacency | scripts/search_pruner.py:418-422 | exactly the listed edges with both ends in range |
| Tarjan.Largest | scripts/search_pruner.py:423-455 | the groups are exactly the strongly connected components, they cover all nodes, and the result is the greatest size |
| Tarjan.LargestScc | scripts/search_pruner.py:418-455 | the same for edge lists; 0 exactly for no nodes |
| BestFirst.Replay.PushAll | scripts/composition_native_policy.py:803-813 | queues every option once, with its score or the given priority and the next sequence numbers |
| BestFirst.Replay.Pop | scripts/composition_native_policy.py:781 | takes the entry no other comes before, and only that |
| BestFirst.Replay.Step | scripts/composition_native_policy.py:780-820 | equals one step of the replay: passes over a missing or known child, or enters it and queues its options |
| BestFirst.Run | scripts/composition_native_policy.py:763-820 | for every score map the curve is that of the order in which the replay enters states |
| ReplayOrder.ReplaysExactlyBestFirst | scripts/composition_native_policy.py:763-812 | the replay enters states in an order if and only if each is entered by the open offer of highest priority, the earliest among equals, until none is open; an offer has its own score, or as an only option the priority its state was entered by, or zero |
| ReplayOrder.OneBestOrder | scripts/composition_native_policy.py:763-812 | there is only one such order |
| BestFirst.FreeExactly | scripts/composition_native_policy.py:1586-1596 | which states cost nothing |
| BestFirst.OneOrder | scripts/composition_native_policy.py:763-820 | the scores determine that order |
| BestFirst.ReplayExists | scripts/composition_native_policy.py:780-820 | the replay ends under every score map |
| BestFirst.ReplayIsComplete | scripts/composition_native_policy.py:763-820 | each state reachable from the root options is entered exactly once, nothing else is, and only after it was offered |
| BestFirst.Checkpoint | scripts/composition_native_policy.py:822-827 | the first point of greatest cost within the budget |
| BestFirst.RecoveryIsMonotone | scripts/composition_native_policy.py:822-827 | a larger budget never reports less |
| BestFirst.FullBudget | scripts/composition_native_policy.py:822-827 | after the reported point only states that cost nothing follow |
| BestFirst.CostlyIsReported | scripts/composition_native_policy.py:822-827 | what costs something, or guards a state that does, is entered before the reported point |
| BestFirst.UnguardedIsMissed | scripts/composition_native_policy.py:763-827 | a free useful terminal that guards nothing is missed under scores that put it last |
| BestFirst.OrderingNeverDeletes | scripts/composition_native_policy.py:746-846 | under every score map the full budget recovers every reachable useful terminal, if and only if each free one lies on every way to some state that costs; only if needs that action identifiers determine the child, as the digests that make them up do |
| BestFirst.SharedActionsRecover | scripts/composition_native_policy.py:803-813 | with one identifier for two children the condition is not necessary |
| BestFirst.FreeTerminalIsMissed | scripts/composition_native_policy.py:118-131 | a recorded tree the load check admits, whose replay without scores misses its useful terminal |
| ContextualLabels.DistancesAreShortest | vladder/composition_native.py:405-413 | the distance for a tier is the length of a shortest way down to a terminal of at least that tier, or none if there is none |
| ContextualLabels.DistancesGrow | vladder/composition_native.py:405-413 | a higher tier is never nearer |
| ContextualLabels.DistanceIsToBest | vladder/composition_native.py:390-392 | the separately computed distance is the one to the best tier |
| ContextualLabels.BestTierIsBest | vladder/composition_native.py:387-389 | no descendant terminal has a better tier |
| ContextualLabels.BestTierIsReached | vladder/composition_native.py:387-389 | the best tier is that of a descendant terminal |
| ContextualLabels.SumsAreExact | vladder/composition_native.py:393-404 | costs and terminal counts are exact sums over the subtree |
| ContextualLabels.AuditorAgrees | scripts/audit_composition_native_corpus.py:133-144 | the auditor's own recursion always gives the labelled tier |
| ContextualLabels.Rank | vladder/composition_native.py:464-465 | the actions, none lost: a higher tier before a lower one, within a tier nearer before farther and unknown distances as 10^9, then cheaper before dearer, then by name |
| ContextualLabels.BetterIsOrder | vladder/composition_native.py:955-958 | the advantage key orders actions strictly and totally |
| ContextualLabels.PairsAreBetter | vladder/composition_native.py:466-470 | the preference pairs are exactly the better-than relation: one pair for any two actions, with the one that precedes in tier, distance, cost and name in front |
| Ownership.Normalize | vladder/composition_native.py:660-715 | every terminal is moved to the owner of its hash, or stays, and the moves are counted; labels, summary and hash are made anew if one moves, and otherwise nothing is touched |
| Ownership.AcceptedExactly | vladder/composition_native.py:505-607 | the check accepts exactly the traces whose hash, lineage, contract and summary are right, whose frontiers and labels correspond and cover the same actions, and whose terminals are attached to owners of their hash |
| Ownership.NormalizedShows | vladder/composition_native.py:660-715 | what a trace says once a terminal has moved: the same states, frontiers and evidence, one label for each frontier with its actions, and the hash of the new payload |
| Ownership.SummaryShows | vladder/composition_native.py:694-711 | the new summary counts what is there and keeps its other entries |
| Ownership.MovedTwice | vladder/composition_native.py:660-691 | moving a terminal twice is moving it once and keeps hash and evidence |
| Ownership.NormalizedTwice | vladder/composition_native.py:660-715 | normalising a trace is idempotent |
| Ownership.DefectAfterMove | vladder/composition_native.py:579-587 | what the check says about a moved terminal, in every case |
| Ownership.NewDefectExactly | vladder/composition_native.py:579-587 | an accepted terminal is broken exactly when it is attached to a state with a reference |
| Ownership.MovedToOwner | vladder/composition_native.py:675-691 | with one owner per hash a terminal ends on that owner and is accepted, exactly unless it is attached to an empty reference |
| Ownership.AddsNoErrorExactly | vladder/composition_native.py:505-607 | normalising adds no integrity error to a trace if and only if nothing moves, or no terminal meets a reference unreported and no frontier or action is repeated unreported |
| Ownership.AcceptedStaysAccepted | vladder/composition_native.py:505-607 | an accepted trace with one owner per hash and no repetitions gets an error exactly if a terminal meets an empty reference |
| Ownership.NamedStatesStayAccepted | vladder/composition_native.py:505-607 | as soon as the lineage check reports unknown references and no state has the empty name, an accepted trace stays accepted |
| Ownership.WithoutOwnerADefectAppears | vladder/composition_native.py:678-691 | two states without an owner and a terminal that normalising breaks |
| Ownership.EmptyReferenceADefectAppears | vladder/composition_native.py:678-691 | an empty reference before the only owner of a hash, and a terminal that normalising breaks |
| Calibration.RiskThreshold | scripts/search_pruner.py:1174-1213 | the full threshold is the score of the last accepted row, or one below all scores if none is, and is lowered to the quantile when something is accepted; either misses at most what is allowed, and any score beyond the full one would miss more |
| Calibration.MissesCountPlaces | scripts/search_pruner.py:1180-1199 | the misses of a threshold are the positive rows that score at or below it |
| Calibration.GroupAt | scripts/search_pruner.py:1183-1188 | a group holds all rows of one score and its positives |
| Calibration.MissesGrow | scripts/search_pruner.py:1200-1204 | lowering a threshold never misses more |
| Calibration.AllRemoved | scripts/search_pruner.py:1475-1479 | under a pruned branch every descendant is removed with its work and its useful terminals |
| Calibration.OnlineReplay | scripts/search_pruner.py:1481-1496 | the replay counts exactly the branches with a pruned ancestor or self, once each, their work, and the useful terminals among them |
| Pruning.RemovesExactly | scripts/search_pruner.py:1475-1496 | what is removed are exactly the places in the forest that are pruned or lie below a pruned one, each once, and what is killed are exactly the useful terminals without children among them |
| CExpression.Parser.ParseFrom | vladder/c_lift.py:120-151 | the index-based precedence-climbing loop computes the parse of the tokens left, with the same errors |
| CExpression.Parser.ParseOperator | vladder/c_lift.py:139-150 | the body of the loop: one operator or ternary and its operands |
| CExpression.Parser.ParsePrimary | vladder/c_lift.py:121-136 | parenthesised, negated and atomic operands, with the same errors |
| CExpression.ParseExpression | vladder/c_lift.py:118-156 | the whole input must be one expression |
| CGrammar.ParsesExactlySentences | vladder/c_lift.py:118-156 | the parser succeeds exactly on the sentences of the layered C grammar of conditional, relational, additive, multiplicative and unary expressions, and gives their trees |
| CGrammar.SentencesAreUnambiguous | vladder/c_lift.py:118-156 | no sentence has two trees |
| CGrammar.PrintsSentences | vladder/c_lift.py:23-33 | what is printed is a sentence whose tree is the regrouped one, and the tree printed if and only if that was grouped |
| CExpression.ParsesBack | vladder/c_lift.py:23-33 | what is printed for a grouped tree in any context is read back as that tree, in front of any rest that does not bind tighter |
| CExpression.RoundTrip | vladder/c_lift.py:109-156 | parsing what was printed for a grouped tree gives the tree |
| CExpression.RegroupedPrints | vladder/c_lift.py:23-33 | every tree prints like its left-nested regrouping |
| CExpression.ParseAfterRender | vladder/c_lift.py:109-156 | parsing what was printed always succeeds and gives the regrouped tree, which is the tree itself if and only if no right operand has its associative parent's precedence and no ternary condition is a ternary |
| CExpression.RegroupedKeepsValue | vladder/c_lift.py:23-33 | when only sums and products are nested to the right the value is kept in exact arithmetic |
| CExpression.NestedComparisonChangesValue | vladder/c_lift.py:31-33 | a nested comparison that is read back with another value |
| CExpression.NestedConditionChangesValue | vladder/c_lift.py:28-30 | a ternary condition that is read back with another value |
| Unrolling.OrderedUnroll | vladder/automatic.py:341-371 | for every body, start, bound, offset and factor the unrolled loops run the instances of the source loop in its order under 64-bit wrap-around |
| Unrolling.ScalarRunsLanes | vladder/automatic.py:350-366 | while the guard has that many instances to go they are the next ones |
| Unrolling.PartitionGuard | vladder/canonical_executable.py:185-192 | every guard of the partitioned loop is exact if and only if adding factor - 1 where the blocks end does not wrap |
| Unrolling.Partitioned | vladder/canonical_executable.py:185-192 | then the partitioned loops run the instances of the scalar loop in its order |
| Reductions.Reduce | vladder/bounded_reduction.py:69-80 | for every valid schedule and length each index is visited exactly once and the banks add up to the plain sum |
| Reductions.VisitBlock | vladder/bounded_reduction.py:70-74 | one block visits its indices exactly once in any lane order |
| Reductions.Accumulate | vladder/bounded_reduction.py:76-80 | the banks add up to the sum over the visited indices |
| Reductions.DistinctCover | vladder/bounded_reduction.py:24-25 | a valid lane list leaves no lane out |
| Reductions.SumOfPlaces | vladder/bounded_reduction.py:68-80 | a sum does not depend on the order of visiting |
| BitReduction.WordPopulation | vladder/bit_reduction.py:252-257 | a word loaded from bytes has as many set bits as they have together |
| BitReduction.CountBytes | vladder/bit_reduction.py:250-263 | the word kernel with its byte tail counts the set bits of all bytes modulo 2^64 for every length its guard can handle |
| BitReduction.CountElements | vladder/bit_reduction.py:264-278 | the unrolled element kernel does the same for fixed-width elements |
| BitReduction.LimitIsSafe | vladder/bit_reduction.py:24-37 | within the default length limit no guard and no total wraps |

## Left out

- Grammars without `apply_action` (expand-only), and the matching of preconstructed children.
- Family, stage, terminal flag and the observable and contract digests as separate fields: they are functions of the canonical form and are folded into it.
- Terminal evaluators, proof, compiler and benchmark counters, summaries and the analysis cache; the clock and the memory ceiling are an arbitrary choice of pops before which the run stops.
- The maximum frontier size, footprint completeness counters and the list of independence evidence in the result.
- Edge identifiers are hashes of content that includes their ordinal; the ordinal stands for them.
- The reduction strategy name is a label without effect in the code, and so here.
- Checkpoints of another grammar or engine version, and corrupted ones, are rejected by checks that are not modelled; `Engine.Search` takes checkpoints the engine can produce.
- Engine.Search: requires the two digests of an identifier together to separate canonical forms; what lookup does otherwise is `Table.TranspositionTable.LookupIsFaithful`.
- Table.TranspositionTable.Restore: the clean rematerialisation of a restored record and the errors it raises for an altered checkpoint.
- SequenceSearch.EnumerateSequences: takes the grammar's own expansion of a state to be its enabled actions applied in turn.
- SequenceSearch.TerminalParity: each of its two conditions suffices for one direction; neither is claimed to be necessary.
- Completeness.DryQueueIsComplete: claims shortest depths for unresumed or graded searches only; resumed ones are the subject of `Layers.UnreducedDepths`, `Findings.ResumedDepthCanBeWrong` and `Findings.TwoResumesSpoilDepths`.
- Projection.CanonicalToLazy: takes the records in any order, where the source sorts them by depth and identifier.
- CanonicalForms.Normalize: a state holds one graph, names carry whether they are made up (so no input string starts with a reserved prefix), volatile keys are already dropped, interchangeable node ids are distinct, and the bound on graph permutations is an arbitrary test on the class sizes; assignments are tried in any order.
- CanonicalForms.VariantsAgree: in its notion of a variant a reference to an interchangeable node outside the edges stays as it is, and identities do not sit in sets; what happens beyond these limits is `RenamingLimits.OneRenamingExactly` and, for sets of strings, `SetPlaces.IdentitiesInSetsShow`.
- DependencyOrder.BuildIs: conflict edges, which the order does not use.
- Refinement.TopologyIsInvariant: every edge end names a node; the source reads an integer end as a position in the node list, where reordering nodes does change the hash, and of nodes with one id it keeps the last.
- Ownership.Normalize: what the lineage and frontier checks and the training contract say is arbitrary, since none of them looks at where a terminal is attached; labels carry their actions and their order only.
- DependencyOrder.TopologicalOrder: goes through keys in any order, where the source sorts them; which of several valid orders results is not modelled.
- Tarjan.LargestScc: the recursion limit of the host language.
- ContextualLabels.SumsAreExact: states are given as the trees their parent references form; parent cycles, memoisation, terminal classes and the choice of a state for a child hash are left out.
- Calibration.OnlineReplay: the forest is given as trees, so the visited set, which guards against repeated ids, has nothing to do.
- Calibration.RiskThreshold: the allowed misses and the quantile are parameters; floating-point rounding in both is left out.
- Reductions.Reduce: the flag by which a schedule renounces its scalar tail; the visits the source checks include the tail whatever the flag says, so it decides only which claim is reported.
- BestFirst.Run: terminals are useful or not; the proof, material, retained and composition classes follow the same way.
- CExpression.ParseExpression: works on tokens; the regular expression that cuts text into tokens is left out.
- Unrolling.OrderedUnroll: the substitution of the index in the text of the body is modelled as passing the index to the body; literals must be ones the target can spell.
- BitReduction.CountBytes: words are loaded in little-endian order; the count is the same for any order of the bytes.
- Floating-point rounding throughout: scores, costs and expression values are exact reals.
- Torch models, compilers, Z3 and Alive2 runs, JSON and schema handling, consent ledgers, regular-expression source recognition and release scripts.
