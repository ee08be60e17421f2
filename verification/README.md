# The git engine's invariants, in Dafny

This project models the parts of the git engine that everything else leans on and proves what
they promise. The pieces form one chain of reasoning.

1. **A push numbers what it brings** (`Numbering`, `NumberingSafety`, `NumberingObjects`,
   `NumberingProgress`, `GraphWrite`). Concurrent pushes are a state machine over one store. A push
   reads identities, possibly stale, takes blocks of numbers, records them all or loses a race,
   ranks its commits and commits its journal; it may crash after any step and may retry. Each step
   is a predicate on two states. The theorems hold in every state of every run: numbers are never
   shared or changed, a parent is numbered below its child, the index is closed under parents, and
   a push left to itself finishes exactly when it is supplied with all it names.
2. **Walks rely on that** (`Graphs`, `Bands`, `Schedule`, `PaintWalk`, `ShallowWalk`, `MergeBase`).
   A graph is a map from seq to parents, `Descends` says parents have smaller seqs, and one band's
   read is the restriction of the graph to the band. Paint-down-to-common, the shallow walk,
   `merge-base --all` and is-ancestor run in descending bands of growing width. Each is proved equal
   to a definition over paths in the whole graph, for every schedule. `WalksAreSafe` discharges the
   walks' premise from the protocol.
3. **The planner decides what packs hold** (`TreeDiff`, `Planning`, `PlanningLoop`, `TopoOrder`,
   `AncestryProof`, `Classify`, `ClassifyBytes`, `SectionOrder`, `Chains`, `ChainHistory`). Trees are compared by flattening them
   to a function from paths to items. The diff is exact, so every object of a commit's tree is
   somewhere a reader will look, so every delta base is, before `bound_chains` and after, and the
   client's bytes, where kept, make the object they are kept for. What bounding leaves is short and
   free of cycles, push after push, and it takes no base away that it might have left.
4. **Packs are identified, then rebuilt** (`PackScan`, `PackContent`, `Resolve`, `ByteCaches`,
   `Rebuild`, `RebuildAccepts`). What a pack's entries are is defined by levels: chains of fewer
   than `n` bases. The scheduler matches that definition for every order its workers finish in,
   and rebuilding returns the same content.
5. **The index is a joinable array** (`Stride`, `CommitIndexes`, `PackIndexes`, `Frames`,
   `CommitBytes`, `PackBytes`, `Formats`, `SegmentJoins`). A dense layout with an out-of-line tail stands for a map. Joining
   takes the greater node at every seq, and the laws a semilattice has are proved of the `Join` that
   runs, for all indexes; a tail too long for 32-bit offsets breaks two of them, and exactly when it
   does is proved. However the listed segments are joined, the result answers as the index of item 1.
   Both tiers' bytes, frame header included, read back under any range.

Oids and seqs are integers, hashing is an injective function from (kind, content), and inflating,
applying a delta and parsing are functions that may refuse. Loops are methods with invariants,
state updated in place is a class (`Closures`, `ByteCache`, `Builder`), and interleavings are runs.

Where code and comments differ, the code is followed:

- A corrected date is said to be above every parent's. It is, exactly when no parent is already at
  the 32-bit ceiling (`OutranksUnlessSaturated`).
- Rebuilding says that resolving reads from the repository both a thin-pack base and a base that
  leads back to an entry already walked. Resolving may instead have taken the second from the
  pack, and then rebuilding reports an object missing (`AcceptedButStuck`); `RebuildAt` states
  exactly when, for every cache.
- Indexes are said to form a semilattice. Their join commutes always; once a join overflows its
  32-bit offsets it may not associate (`OverflowBreaksAssociativity`). `AssociatesIffSameStored`
  says exactly when it does, for any three; `AssociatesIffLeftKept` and `AssociatesIffRightKept` say
  it in terms known before the last join, where the other grouping loses nothing.
- Every base running backwards is said to keep the delta graph free of cycles. It does, push after
  push, while each push numbers its commits upwards along its walk and above what is stored
  (`HistoryStaysAcyclic`). A retried commit that kept a low number can undo it
  (`LowNumberLosesOrder`).

## Model

| member | source | states |
|---|---|---|
| `NumberingSafety.IdentityIsSafe` | crates/git/ingest/src/append.rs:415-500 | in every state of every interleaving of pushes, stale reads, races, retries and crashes: no two objects share a kind and number, whatever is numbered as a commit is one and its parents are numbered strictly below it, and no object is ever renumbered |
| `NumberingSafety.SegmentsAgree` | crates/git/graph-store/src/write.rs:123-163 | any two segments ever listed, at any two times, agree on parents, root tree and generation at a seq they share |
| `NumberingSafety.DoneIsIndexed` | crates/git/ingest/src/append.rs:595-618 | a push that finished leaves all its commits numbered and indexed for good, those numbered by a push that died before its journal included |
| `NumberingObjects.DoneNumbersObjects` | crates/git/ingest/src/append.rs:112-147 | in every run, from when a push finished on: each object it brought in a pack it recorded, or in none, is numbered, for good and as the kind the push brought it as unless another push brought it as another, and the object index has it |
| `NumberingObjects.RunIsCovered` | crates/git/ingest/src/append.rs:151-256 | in every state of every run: what a push has taken is what it brings, of that kind; what it has work for is numbered kind by kind, then resolved, then in the store; and every identity is one some push asked for |
| `NumberingObjects.RunIsListed` | crates/git/ingest/src/append.rs:606-618 | in every state of every run: the object index has only what is numbered and all that finished pushes had work for, and never loses an object |
| `NumberingProgress.FinishesAloneIff` | crates/git/ingest/src/append.rs:503-619 | in every state of every run: a push about to start, having read nothing that changed since, as on every retry, can finish with no one else moving if and only if its commits are acyclic and called nothing else, each not yet indexed has its parents, brought or indexed, and a root tree, and each object there is work for is a tree or a blob if packed, deltas against its kind and, if a tree new to the index, names trees and blobs; whatever else others left half done is no obstacle |
| `NumberingProgress.EnoughToFinish` | crates/git/ingest/src/append.rs:503-619 | the run that does it, in eleven steps |
| `NumberingProgress.AdvancesIff` | crates/git/ingest/src/append.rs:261-409 | in every state of every run, a push in flight can move on unless its commits make a cycle, or all it brings is numbered and something it names is missing or of the wrong kind, and cannot then |
| `NumberingProgress.CanJournal` | crates/git/ingest/src/append.rs:595-618 | once a push has recorded its numbers, nothing anyone does keeps it from building its segment and listing it |
| `NumberingSafety.WalksAreSafe` | crates/git/ingest/src/append.rs:451-500 | in every state of every run the indexed graph descends along parents and is closed under them, which is all the walks assume |
| `NumberingSafety.RunIsSafe` | crates/git/ingest/src/append.rs:503-619 | the protocol invariant holds in every state of every run |
| `NumberingSafety.RunOnlyGrows` | crates/git/ingest/src/append.rs:644-669 | along any run identities and index rows are only ever added |
| `NumberingSafety.StepKeeps` | crates/git/ingest/src/append.rs:503-619 | each step, of whichever push, keeps the invariant |
| `NumberingSafety.StepExtends` | crates/git/metadata/src/metadata.rs:64-77 | no step renumbers an object or changes an indexed row |
| `NumberingSafety.RecordKeepsParented` | crates/git/ingest/src/append.rs:567-605 | recording all a push numbered keeps every numbered commit's parents numbered below it |
| `NumberingSafety.TakingOk` | crates/git/ingest/src/append.rs:484-498 | the block a push takes is fresh, names just what had no number, and climbs along every parent edge |
| `NumberingSafety.BlockClimbs` | crates/git/ingest/src/append.rs:484-498 | numbers handed out along a topological order put each parent below its child |
| `NumberingSafety.ResolvedOk` | crates/git/ingest/src/append.rs:425-449 | whatever a push resolved, from an earlier read or a new one, is what the store calls it |
| `NumberingSafety.BuiltOk` | crates/git/ingest/src/append.rs:364-409 | every row a push lists is the one identity and content give its commit, and every parent it names is listed with it or was already |
| `NumberingSafety.BuiltGen` | crates/git/graph-store/src/write.rs:315-361 | ranking against the segment and the ranks read gives each commit the generation its whole history does |
| `NumberingSafety.RowsAgree` | crates/git/graph-store/src/index.rs:296-313 | two right rows at one seq are the same row |
| `NumberingSafety.IndexGrows` | crates/git/graph-store/src/store.rs:131-142 | listing one more right segment keeps every row already read |
| `Numbering.CorrectedDate` | crates/git/graph-store/src/generation.rs:11-20 | the least positive 32-bit word that is no lower than the date and above every parent, as far as a word can be: a later date or a parent at the ceiling gives the ceiling |
| `GraphWrite.OutranksUnlessSaturated` | crates/git/graph-store/src/generation.rs:11-20 | the corrected date is above every parent if and only if none is at the 32-bit ceiling |
| `GraphWrite.CeilingTies` | crates/git/graph-store/src/generation.rs:11-20 | the failing case: a child of a commit dated at the 32-bit ceiling, whatever its own date, ranks level with it |
| `GraphWrite.Build` | crates/git/graph-store/src/write.rs:315-340 | succeeds exactly when every parent is in the push or was ranked and every number fits a 32-bit slot; then every commit has its parents in order, its root, and the least generation its date and its parents' generations allow; a failure names a parent nothing ranks, or a commit whose numbers do not fit |
| `GraphWrite.BuildIsBuilt` | crates/git/graph-store/src/write.rs:315-340 | what `Build` promises of a segment and what the protocol's journal step asks of one are the same, for every segment |
| `GraphWrite.ParentGenerations` | crates/git/graph-store/src/index.rs:203-213 | the parents' generations in order, or the first parent that neither builder nor ranks know |
| `Bands.ExpandAncestors` | crates/git/graph-store/src/bands.rs:75-97 | exactly what paths from the seeds reach within the band, split at the floor, or a commit the walk reaches and the index lacks |
| `Bands.Flood` | crates/git/graph-store/src/bands.rs:140-163 | exactly what one colour reaches from its own seeds, stopping at its blocks and, for want, short of have seeds, all of it from the floor up read from the index; or a commit it reaches that the index lacks |
| `Bands.PushParents` | crates/git/graph-store/src/bands.rs:166-183 | the parents a colour may travel to, no more and no fewer |
| `Bands.ExpandPaint` | crates/git/graph-store/src/bands.rs:106-137 | the finalized seqs are the want-only paint at or above the floor, ascending, and below the floor every painted seq carries exactly its colours; nothing painted from the floor up was missing from the index, or one that was is named |
| `Bands.Assemble` | crates/git/graph-store/src/bands.rs:124-136 | colours merged by or and split at the floor |
| `Bands.ExpandDepth` | crates/git/graph-store/src/bands.rs:189-228 | every seq within the limit and no other, each at its minimum depth over all paths; the re-expanding relaxation ends |
| `Schedule.TopBand` | crates/git/graph-store/src/walk.rs:407-411 | the frontier's newest key and the floor a band of that width gives |
| `Schedule.BandPolicy.Production` | crates/git/graph-store/src/walk.rs:46-60 | the schedule every caller passes: widths 1024, 8192, 65536, then 100000 for good, so no band is empty |
| `Schedule.ClosedIsCovered` | crates/git/graph-store/src/bands.rs:231-234 | in a graph closed under parents no walk meets a commit the index lacks |
| `Schedule.BandReach` | crates/git/graph-store/src/store.rs:131-142 | what a band's read reaches, the whole graph reaches, at or below the ceiling |
| `PaintWalk.BandedPaintWalk` | crates/git/graph-store/src/walk.rs:360-393 | for every schedule of width at least one: each commit the wants reach in the want-blocked graph and the haves do not in the have-blocked graph, exactly once, and all but grafts held by the index; it ends, stopping when no want-only frontier is left loses nothing, and a closed graph that holds the seeds is always answered |
| `PaintWalk.PaintRound` | crates/git/graph-store/src/walk.rs:400-440 | one band's paint and the frontier it carries; a common seed keeps painting have and not want |
| `PaintWalk.PaintedIsNeeded` | crates/git/graph-store/src/walk.rs:379-392 | once nothing want-only is left below the floor, want-only paint is exactly what must be sent |
| `PaintWalk.RoundKeepsPainting` | crates/git/graph-store/src/walk.rs:400-440 | both sides' closures hold one band further down |
| `PaintWalk.RoundKeepsFrontier` | crates/git/graph-store/src/walk.rs:412-440 | the frontier carried on is exactly the paint below the new floor, and the band finalizes exactly its want-only paint |
| `PaintWalk.WidthlessRoundStalls` | crates/git/graph-store/src/walk.rs:49-56 | at width zero a round finalizes nothing and leaves the frontier as it was |
| `PaintWalk.UnsharedGraftLosesCommits` | crates/git/graph-store/src/walk.rs:360-393 | a concrete walk whose have graft is not a want graft, with a needed commit it never starts towards |
| `ShallowWalk.DepthClassify` | crates/git/graph-store/src/walk.rs:447-478 | for every schedule: exactly the commits within the limit of some want, each at its minimum depth |
| `ShallowWalk.DepthRound` | crates/git/graph-store/src/walk.rs:480-534 | the topmost band of the frontier, over one read: minimum depths settled within it and handed below it, or a commit it reaches and the read lacks |
| `ShallowWalk.RoundDescends` | crates/git/graph-store/src/walk.rs:480-534 | settled depths, and the frontier merged by minimum, stay right one band further down |
| `ShallowWalk.SettledIsShortest` | crates/git/graph-store/src/walk.rs:456-477 | with no frontier left, settled depths are minimum depths |
| `ShallowWalk.NeededCommitsShallow` | crates/git/graph-store/src/walk.rs:258-353 | for every wants, haves, client-shallow set, depth at least one and schedule: sent are exactly the commits within the depth that the haves do not reach in the client's grafted graph, each once, and the index holds every commit within the depth; the boundary, shallow and unshallow sets are exact; a depth below one is refused, and a closed graph that holds the seeds lacks nothing |
| `ShallowWalk.SecondPassWants` | crates/git/graph-store/src/walk.rs:300-338 | the second paint, seeded with unshallowed parents and blocked at boundary and grafts, wants exactly what the depth walk sent, so the path without haves agrees with it |
| `ShallowWalk.ShortestIsDepth` | crates/git/graph-store/src/walk.rs:197-219 | membership and exact depth can both be read off the minimum depths |
| `ShallowWalk.NeededCommits` | crates/git/graph-store/src/walk.rs:229-246 | a fetch without depth: what the wants reach and the haves do not, the client's shallow commits parentless for both, and all but those held by the index; answered whenever the graph is closed and holds the seeds |
| `MergeBase.BandedIsAncestor` | crates/git/graph-store/src/walk.rs:541-573 | yes exactly when a path of parents leads from the descendant to the ancestor; a no only after every ancestor down to the candidate was read; answered whenever the graph is closed and holds the descendant |
| `MergeBase.BandedMergeBases` | crates/git/graph-store/src/walk.rs:580-636 | newest first: not exhausted, exactly the common ancestors no other reaches; exhausted, only if the ancestors of the two, counted for each, outnumber the budget, and then exactly those of the history both sides were read down to, one floor, that no other there reaches. The floor is the first of the schedule's at which the frontiers meet or the budget is spent. Answered whenever the graph is closed and holds both tips |
| `MergeBase.WithinBudget` | crates/git/graph-store/src/walk.rs:601-635 | if all the ancestors of both fit the budget, no schedule's walk is exhausted |
| `MergeBase.MergeBaseSide` | crates/git/graph-store/src/walk.rs:638-657 | one side's reach is exactly its history down to the floor with what lies just below, and its frontier is that; a side already below the floor is left as it is |
| `MergeBase.MaximalIsBest` | crates/git/graph-store/src/walk.rs:595-620 | when each frontier is already common to the other side, the maximal commits collected are the best common ancestors |
| `MergeBase.FindMaximal` | crates/git/graph-store/src/walk.rs:659-684 | exactly those no other member reaches, newest first |
| `MergeBase.ExpandAncestorBand` | crates/git/graph-store/src/walk.rs:687-694 | one read's expansion is exactly the seeds' history down to the floor, all of it in the index, and the commits where it passes below |
| `MergeBase.AncestorsAmong` | crates/git/graph-store/src/source.rs:109-145 | exactly the candidates that are in the seed's history down to the cap or where it passes below; only real ancestors, and every candidate ancestor within the cap; answered whenever the graph is closed and holds the seed |
| `TopoOrder.Order` | crates/git/core/src/commit_meta.rs:56-95 | succeeds exactly when the in-batch parents form no cycle, repeats allowed; then a permutation with every in-batch parent first, those freed earlier before those freed later and by id among those freed at once; so a function of the batch alone, not of hash order |
| `TopoOrder.KahnTakesTurns` | crates/git/core/src/commit_meta.rs:56-95 | commits come in the order their last parent does, roots first, ascending where that is the same |
| `TopoOrder.IndexEdges` | crates/git/core/src/commit_meta.rs:57-67 | in-degrees and waiters, counted with repeats, in whatever order the map yields |
| `TopoOrder.Release` | crates/git/core/src/commit_meta.rs:79-87 | taking a commit lowers every waiter by its edges and lists exactly those freed, each once |
| `TopoOrder.OrderedAll` | crates/git/core/src/commit_meta.rs:91-94 | with the queue empty, all is ordered exactly when there is no cycle |
| `TreeDiff.DiffTrees` | crates/git/graph/src/diff.rs:124-196 | all it reports is true of the trees, once per path; every path not beneath a tree it names as unreadable is reported exactly as the two trees have it: changes with their same-type predecessor, removals if asked for; a tree it names is a tree of a root the reader lacks, named once, and so is every such tree that hid something; it ends |
| `TreeDiff.DiffRestores` | crates/git/graph/src/diff.rs:25-67 | the new tree, flattened, is the old one less the removals with the changes on top |
| `TreeDiff.CompareFrame` | crates/git/graph/src/diff.rs:137-189 | for every name on either side: the change, the removal and the descent it calls for, and no others |
| `TreeDiff.FrameStep` | crates/git/graph/src/diff.rs:132-190 | replacing a frame by its subframes leaves every difference reported once or below one open frame |
| `TreeDiff.ReadFrame` | crates/git/graph/src/diff.rs:90-107 | both sides' entries, or every side that is missing and no other |
| `TreeDiff.ByName` | crates/git/graph/src/diff.rs:137-141 | the old side by name, other repositories' commits aside |
| `TreeDiff.Dedup` | crates/git/graph/src/diff.rs:191-195 | the same oids, each once |
| `Planning.OrderEntries` | crates/git/ingest/src/delta_plan.rs:400-437 | nothing for an unchanged tree; else the root first, every changed object once, trees before blobs, each as the first change naming it says, predecessor included |
| `Planning.PackOrBase` | crates/git/ingest/src/delta_plan.rs:206-238 | every object of a planned commit's tree is in its pack or in the tree it was diffed against |
| `Planning.BaseIsInBase` | crates/git/ingest/src/delta_plan.rs:400-437 | a planned delta's base is an object of the tree diffed against |
| `Planning.TreeIsSupplied` | crates/git/ingest/src/delta_plan.rs:145-182 | every object of a commit's tree is in its own pack, a first-parent ancestor's of the push, or the boundary commit's tree |
| `Planning.PlannedBaseIsSupplied` | crates/git/ingest/src/delta_plan.rs:145-182 | every planned base likewise |
| `PlanningLoop.PlanPush` | crates/git/ingest/src/delta_plan.rs:109-182 | the rounds end; it fails only over an object some diff needs that is held and is no tree; otherwise a commit without a pack has a tree that is nowhere, and every other pack is the plan of its whole difference |
| `PlanningLoop.DiffRound` | crates/git/ingest/src/delta_plan.rs:206-238 | answers are right and never withdrawn, and an empty round means all are settled |
| `PlanningLoop.Advance` | crates/git/ingest/src/delta_plan.rs:211-236 | one commit's answer is the plan of its whole difference, or a tree that is nowhere, or new trees to fetch; a fetched tree is never unreadable |
| `PlanningLoop.ReadTrees` | crates/git/ingest/src/delta_plan.rs:244-268 | fails exactly when something asked for is held and is no tree; else everything asked for gets an answer, and it is what the store holds |
| `PlanningLoop.CompleteIsPlanned` | crates/git/ingest/src/delta_plan.rs:174-182 | with every tree in the push or the store, every commit is planned |
| `Classify.ClassifyPush` | crates/git/ingest/src/classify.rs:41-110 | every pack, and only those planned, comes back with the objects planned for it, each once, each from the client or from the plan by that rule; trees first, and in each section every entry after its base unless that edge is on a cycle of the section |
| `Classify.ClassifiedBaseIsReadable` | crates/git/ingest/src/classify.rs:59-89 | every delta base after classification is in the pack of its commit or of an ancestor, or in the boundary commit's tree, whether the client's delta was kept or the planner's predecessor used |
| `Classify.BoundedBaseIsReadable` | crates/git/ingest/src/session.rs:95-109 | every delta base left after classification and then bounding is in the pack of its commit or of an ancestor, or in the boundary commit's tree |
| `Classify.ProvenPairsHold` | crates/git/ingest/src/ancestry.rs:39-77 | what the ancestry pass proves is ancestry in history, once its boundary answers are true |
| `Classify.Judge` | crates/git/ingest/src/classify.rs:61-88 | of each entry, in place: what the client sent whole is taken from the client; a delta is, with its base, exactly when that base is in the commit's own pack or in that of a commit proven its ancestor, brought or older; anything else is as planned |
| `Classify.ServedIffProven` | crates/git/ingest/src/classify.rs:61-88 | a base is where a reader of the commit will look exactly when one of its homes is proven |
| `ClassifyBytes.ClassifiedMakes` | crates/git/ingest/src/classify.rs:59-89 | every classified entry kept with the client's bytes is made by them: they are received under its id, and whole, or applied to its base's content, give an object that hashes to that id |
| `ClassifyBytes.WholeIsCopied` | crates/git/ingest/src/classify.rs:61-88 | whatever the client sent whole is stored from the bytes received under that id, with no base |
| `ClassifyBytes.BoundedMakes` | crates/git/ingest/src/delta_plan.rs:389-394 | so is every entry left after bounding |
| `Classify.Homes` | crates/git/ingest/src/classify.rs:265-273 | exactly the commits whose packs hold each object |
| `Classify.AnyHome` | crates/git/graph/src/ancestry.rs:45-47 | some home is the target itself or proven to be its ancestor |
| `Classify.DependencyOrder` | crates/git/ingest/src/classify.rs:195-201 | the same entries, as many, each id once, trees before blobs, and each entry after its base in its section unless that edge is on a cycle |
| `SectionOrder.Order` | crates/git/ingest/src/classify.rs:204-240 | a permutation of any section with distinct ids, each entry after its in-section base unless the edge lies on a cycle; a section already so ordered comes back as it was; it ends although emitted slots are marked again |
| `SectionOrder.Unwind` | crates/git/ingest/src/classify.rs:218-237 | follows one chain of unvisited bases and emits it deepest first; an entry whose base was visited is emitted alone |
| `AncestryProof.Prove` | crates/git/graph/src/ancestry.rs:151-190 | whatever is evicted, a proven pair was asked and is settled by the push's edges and the boundary answers; with nothing evicted every settled query is proven; nothing is evicted while the cap has room for every bit the push could need |
| `AncestryProof.SettledIsAncestry` | crates/git/graph/src/ancestry.rs:250-281 | what is settled is real ancestry, once each boundary's answer is |
| `AncestryProof.ClosureOf` | crates/git/graph/src/ancestry.rs:128-144 | a bit per parent, per bit of a parent's live closure and per boundary named, and no other |
| `AncestryProof.FoldsSound` | crates/git/graph/src/ancestry.rs:128-144 | closures built on sound closures are sound, whichever are missing |
| `AncestryProof.FoldsFull` | crates/git/graph/src/ancestry.rs:128-144 | with every parent's closure live and full, nothing is missed |
| `AncestryProof.ParentsAreLive` | crates/git/graph/src/ancestry.rs:173-188 | a closure is retired only after its last child, so absent eviction every parent's is live |
| `AncestryProof.RoundKeeps` | crates/git/graph/src/ancestry.rs:161-188 | one commit's round keeps soundness, and completeness unless something was dropped |
| `AncestryProof.Closures.Keep` | crates/git/graph/src/ancestry.rs:230-240 | resident stays the summed size of live closures and within the cap; what is dropped is the oldest, and no more of them than the cap asks for; survivors are unchanged |
| `AncestryProof.Closures.Retire` | crates/git/graph/src/ancestry.rs:220-228 | one child fewer, the closure dropped exactly when none are left |
| `AncestryProof.Closures.DropOne` | crates/git/graph/src/ancestry.rs:242-246 | one closure gone, resident still the sum |
| `AncestryProof.NewPush` | crates/git/graph/src/ancestry.rs:75-88 | works exactly when the push has no cycle; every commit is indexed at its place in the order |
| `AncestryProof.UnsentParents` | crates/git/graph/src/ancestry.rs:94-102 | unsent parents only, each once, at most the cap, and all of them below it |
| `AncestryProof.ChildrenLeft` | crates/git/graph/src/ancestry.rs:112-124 | each commit's parent edges within the push, with repeats |
| `AncestryProof.Holds` | crates/git/graph/src/ancestry.rs:267-281 | a home of the push by its bit; an older one by a boundary that reaches it |
| `AncestryProof.Asked` | crates/git/graph/src/ancestry.rs:152-155 | exactly the homes queried, by target |
| `Chains.DeltasStayAcyclic` | crates/git/ingest/src/delta_plan.rs:278-366 | given a stored delta graph without a cycle whose edges never lead to a later first pack, adding every surviving base edge leaves the object-level graph without one: repeated, re-included and self-naming objects included |
| `Chains.ChainsAreBounded` | crates/git/ingest/src/delta_plan.rs:54-68 | every entry's hops, by each base's first entry in the walk or else its stored depth, are at most 8 for a tree and 32 otherwise, and every base left is met earlier or stored |
| `Chains.CutDropsClientBytes` | crates/git/ingest/src/delta_plan.rs:389-394 | an entry is untouched, or its base is gone and so are the client's bytes |
| `Chains.SurvivorPrecedes` | crates/git/ingest/src/delta_plan.rs:313-350 | a base that survives stands strictly before the object it serves, by first pack and then by rank |
| `Chains.BoundChains` | crates/git/ingest/src/delta_plan.rs:278-366 | fails exactly on a cycle of commits; else the packs, read parents first, are the bounded walk of the plan, each with the entries it had, as they were or cut, and which are cut is `PushKeepsBases`; a pack of any other commit is returned untouched, so unbounded |
| `Chains.PushKeepsBases` | crates/git/ingest/src/delta_plan.rs:278-366 | of every entry of the packs walked: its base is kept if and only if the base is met earlier or stored outside the push, stands before it by first pack and turn, and leaves it within 8 hops for a tree and 32 otherwise |
| `Chains.BaseIsKeptIff` | crates/git/ingest/src/delta_plan.rs:313-350 | the same of any walk whose answers are the truth |
| `Chains.AskIs` | crates/git/ingest/src/delta_plan.rs:284-317 | a base's stored depth is used exactly when the store has one and no pack of the push holds the base |
| `Chains.RankIsTurn` | crates/git/ingest/src/delta_plan.rs:314-348 | ranks are the order objects are first met in |
| `Chains.PushIsBounded` | crates/git/ingest/src/delta_plan.rs:278-366 | of the packs `BoundChains` returns for the commits it walked: every entry's hops, over the depths the store reported, are within its kind's limit |
| `Chains.PushStaysAcyclic` | crates/git/ingest/src/delta_plan.rs:278-366 | of the same packs: their bases close no cycle with the stored delta graph |
| `ChainHistory.HistoryStaysAcyclic` | crates/git/ingest/src/delta_plan.rs:270-366 | along every run of pushes, each numbering its commits upwards along its walk and above what is stored: the deltas stored hold no cycle, and no base is first packed after what it serves |
| `ChainHistory.PushKeepsOrder` | crates/git/ingest/src/delta_plan.rs:270-366 | one such push keeps both, so what `DeltasStayAcyclic` supposes of the store holds again after it |
| `ChainHistory.SurvivorIsOrdered` | crates/git/ingest/src/delta_plan.rs:313-350 | once stored, a surviving base was first packed no later than what it serves |
| `ChainHistory.PackedIs` | crates/git/objects/src/index.rs:58-63 | with such numbers an object keeps the lowest pack it had, and a new one gets that of its first entry in the walk |
| `ChainHistory.LowNumberLosesOrder` | crates/git/ingest/src/delta_plan.rs:270-366 | a concrete pair of pushes: a commit that kept a low number stores an object below its base's first pack, and a later push, bounded as always, closes a cycle |
| `Chains.BoundPack` | crates/git/ingest/src/delta_plan.rs:319-350 | one pack continues the walk where the last one left it |
| `Chains.AskIsTruthful` | crates/git/ingest/src/delta_plan.rs:284-317 | the depths and packs asked for are the truth about the walk, and no base asked about is in the push |
| `PackScan.LocateEntries` | crates/git/ingest/src/pack.rs:240-303 | succeeds exactly within the limits and when every relative base is an earlier entry; then each entry says what its header said |
| `PackContent.IsUnique` | crates/git/ingest/src/pack.rs:199-212 | an entry is at most one object |
| `PackContent.SettledIsAll` | crates/git/ingest/src/resolve.rs:384-392 | what no further derivation adds to is everything any chain of bases derives |
| `PackContent.RefusedIsNothing` | crates/git/ingest/src/resolve.rs:81-113 | an entry whose settled base its bytes refuse is no object by any chain |
| `Resolve.IdentifyEntries` | crates/git/ingest/src/resolve.rs:246-308 | for every completion order: no entry is queued twice or without a base; it succeeds exactly when every entry is an object by the definition, ids and inherited kinds are then the definition's, every entry was queued and what was known grows by exactly the objects found; a failure names a queued entry its bytes refuse, or else exactly the entries with a base somewhere were queued, as many as it counts, and some base is nowhere |
| `Resolve.Drain` | crates/git/ingest/src/resolve.rs:312-379 | the same from any right seeding |
| `Resolve.Fill` | crates/git/ingest/src/resolve.rs:327-345 | takes jobs from the front of the queue until it is empty or the window is full; running bytes are the sum of running costs, and every running job but a lone one was admitted under the budget |
| `Resolve.EveryEntryEnds` | crates/git/ingest/src/resolve.rs:381-392 | every entry is an object, is refused by its bytes, or has a base that is nowhere, and only one of these |
| `Resolve.LandKeeps` | crates/git/ingest/src/resolve.rs:347-376 | a worker's answer, whichever it is, enqueues exactly the entries whose base just came into hand |
| `Resolve.WindowAdmits` | crates/git/ingest/src/resolve.rs:327-345 | admitting a job keeps the count, the byte sum and the budget rule |
| `Resolve.WindowReleases` | crates/git/ingest/src/resolve.rs:347-358 | landing any job keeps them too |
| `Resolve.DependentsByIndex` | crates/git/ingest/src/resolve.rs:395-405 | exactly the entries that delta against each one by position, each once |
| `Resolve.PushFront` | crates/git/ingest/src/resolve.rs:366-376 | what was unblocked runs before what was waiting |
| `ByteCaches.ByteCache.Put` | crates/git/ingest/src/rebuild.rs:52-67 | too large is refused; else the newest entry, kept, and the oldest dropped to fit; bytes is the sum and within budget |
| `ByteCaches.ByteCache.Get` | crates/git/ingest/src/rebuild.rs:48-50 | what was put, now the most recent; a miss changes nothing |
| `ByteCaches.TrimmedFits` | crates/git/ingest/src/rebuild.rs:60-66 | what is kept is within budget and includes the newest entry |
| `ByteCaches.TrimmedIsLongest` | crates/git/ingest/src/rebuild.rs:52-67 | what is kept is the longest run of newest entries within budget |
| `Rebuild.RebuildAt` | crates/git/ingest/src/rebuild.rs:192-240 | it ends; what it returns is the identified object's content; nothing is corrupt; for every cache it misses an object if and only if its links, past no cached entry, come back by that object's id to an entry passed and the object is neither stored nor cached; the cache stays right and within budget, as it was after a miss, and otherwise as it was with what was found, then what was passed through, offered to it in order |
| `Rebuild.FindRoot` | crates/git/ingest/src/rebuild.rs:200-231 | a chain whose every base is what the next hop makes, none of it cached, down to a root that is genuine; nowhere, for every cache, exactly when the walk is stuck; the cache changes only by what was found in or through it |
| `Rebuild.ApplyChain` | crates/git/ingest/src/rebuild.rs:285-312 | applying such a chain makes the target; what it passes through, in order and but for what is too large to keep, is genuine |
| `Rebuild.Outside` | crates/git/ingest/src/rebuild.rs:246-262 | the object called that, then cached as the newest; or missing exactly when neither repository nor cache holds it, the cache unchanged |
| `Rebuild.ContentOf` | crates/git/ingest/src/rebuild.rs:113-128 | the object's content wherever it is found; for every cache it misses exactly what is not cached and is received but stuck, or neither received nor stored |
| `Rebuild.Adopt` | crates/git/ingest/src/pack.rs:140-149 | every id received is indexed at its first occurrence, and no other |
| `Rebuild.AcyclicIsNotStuck` | crates/git/ingest/src/rebuild.rs:204-227 | where links never come back, nothing is reported missing |
| `Rebuild.EndsIsNotStuck` | crates/git/ingest/src/rebuild.rs:204-227 | a walk that ends whole, or before an object stored or cached, is no stuck walk by any id |
| `Rebuild.WarmIsNotStuck` | crates/git/ingest/src/rebuild.rs:224-227 | nor is one that passes a cached entry |
| `Rebuild.StuckOnce` | crates/git/ingest/src/rebuild.rs:204-227 | a walk is stuck by at most one id |
| `Rebuild.UnwalkedShrinks` | crates/git/ingest/src/rebuild.rs:200-231 | entries left to walk never grow, and shrink on a hop by id |
| `RebuildAccepts.IdentifiedIsAccepted` | crates/git/ingest/src/resolve.rs:246-308 | identification of every pack is all rebuilding needs |
| `RebuildAccepts.RebuiltIsIdentified` | crates/git/ingest/src/rebuild.rs:192-240 | a genuine content of an entry's id is the content it was identified with |
| `RebuildAccepts.AcceptedButStuck` | crates/git/ingest/src/rebuild.rs:211-227 | two deltas naming each other, one object stored: identification accepts them, and rebuilding the first is stuck if and only if neither is cached |
| `Stride.CanonicalIsUnique` | crates/git/graph-store/src/strided.rs:14-19 | one map has one canonical layout |
| `Stride.Trimmed` | crates/git/graph-store/src/strided.rs:99-110 | the same map, both ends occupied |
| `Stride.LaidOut` | crates/git/graph-store/src/strided.rs:84-96 | exactly the nodes given, canonically |
| `Stride.Joined` | crates/git/graph-store/src/strided.rs:116-131 | at every seq the greater node, canonically |
| `Stride.Absorb` | crates/git/graph-store/src/strided.rs:135-150 | at every slot the greater of what was there and what comes in |
| `Stride.JoinCommutes` | crates/git/graph-store/src/strided.rs:112-131 | joins either way round are the same value |
| `Stride.JoinAssociates` | crates/git/graph-store/src/strided.rs:112-131 | joins of three, either pair first, are the same value |
| `Stride.JoinIsIdempotent` | crates/git/graph-store/src/strided.rs:112-131 | a value joined with itself is itself |
| `Stride.JoinAbsorbs` | crates/git/graph-store/src/strided.rs:112-131 | joining what is already in changes nothing |
| `Stride.RestrictedSlice` | crates/lattice/core/src/frame.rs:49-60 | the slots a range covers, by the header's own arithmetic, are the restriction to that range |
| `CommitIndexes.ReadsBackIffFits` | crates/git/graph-store/src/index.rs:398-443 | a layout reads back as what was laid out if and only if every octopus merge's offset and count fit 32 bits |
| `CommitIndexes.StandingIffFits` | crates/git/graph-store/src/index.rs:398-443 | the layout of a canonical array can be read back as some array if and only if its tail fits |
| `CommitIndexes.LaidIffSameStored` | crates/git/graph-store/src/index.rs:398-428 | two arrays have one layout if and only if the same is stored of both |
| `CommitIndexes.LookupIsGet` | crates/git/graph-store/src/index.rs:255-264 | an index answers as the map it stands for |
| `CommitIndexes.ParentsReadBack` | crates/git/graph-store/src/index.rs:102-109 | the node of any writable commit gives back its parents in order, an octopus merge's included |
| `CommitIndexes.Builder.Insert` | crates/git/graph-store/src/index.rs:175-186 | refused exactly when a seq does not fit, and then nothing changes |
| `CommitIndexes.Builder.Build` | crates/git/graph-store/src/index.rs:236-238 | the layout of exactly the commits told |
| `CommitIndexes.BuiltGivesBack` | crates/git/graph-store/src/index.rs:175-264 | of any commits told, octopus merges included: the index can be read back if and only if their tail fits, and then it answers each commit with its parents in order, root and generation, and nothing else |
| `CommitIndexes.Join` | crates/git/graph-store/src/index.rs:301-312 | for any two indexes: the other where one is empty, else the layout of the greater node at every seq; that can be read back if and only if the joined tail fits |
| `CommitIndexes.JoinAnswers` | crates/git/graph-store/src/index.rs:296-313 | every join of two indexes answers, at every seq, the greater of the two answers, or that less its out-of-line parents exactly where the joined tail has no room |
| `CommitIndexes.JoinIsExactIffFits` | crates/git/graph-store/src/index.rs:296-313 | a join answers the greater everywhere if and only if one side is empty or the joined tail fits |
| `CommitIndexes.Nodes` | crates/git/graph-store/src/index.rs:278-293 | every slot as it reads, canonically |
| `CommitIndexes.Assemble` | crates/git/graph-store/src/index.rs:398-428 | the layout the read-back theorem is about |
| `CommitIndexes.NodesAreOrdered` | crates/git/graph-store/src/index.rs:69-80 | comparing fields in turn is a strict total order |
| `CommitIndexes.NodeOrder` | crates/git/graph-store/src/index.rs:69-80 | which order: by generation, then root tree, first parent, second, and then the rest |
| `CommitIndexes.LexIsDictionary` | crates/git/graph-store/src/index.rs:69-80 | lists compare where they first differ, or the shorter is less |
| `CommitIndexes.IndexJoinCommutes` | crates/git/graph-store/src/index.rs:296-313 | two layouts joined either way round are structurally equal, whether or not their tails fit |
| `CommitIndexes.IndexJoinAssociates` | crates/git/graph-store/src/index.rs:296-313 | any three indexes, whichever pair is joined first, come to structurally equal results while neither first join overflows; a corollary of the exact conditions |
| `CommitIndexes.AssociatesIffSameStored` | crates/git/graph-store/src/index.rs:296-313 | any three indexes joined in the two groupings come to one index if and only if one of the three is empty or the two last joins store the same: they agree at every seq in all but extra parents, in those too as far as the tail has offsets, and their extra parents in order are one list |
| `CommitIndexes.AssociatesIffSameBest` | crates/git/graph-store/src/index.rs:296-313 | none being empty: equal answers of the two last joins make them one index, and where either result can be read back only equal answers do |
| `CommitIndexes.AssociatesIffLeftKept` | crates/git/graph-store/src/index.rs:296-313 | where joining the last pair first loses nothing, joining the first pair first comes to the same if and only if the third index overrides whatever the first pair lost |
| `CommitIndexes.AssociatesIffRightKept` | crates/git/graph-store/src/index.rs:296-313 | where joining the first pair first loses nothing, joining the last pair first comes to the same if and only if the first index overrides whatever the last pair lost |
| `CommitIndexes.EmptyAssociates` | crates/git/graph-store/src/index.rs:301-307 | with one of the three empty the grouping never matters, overflow or not |
| `CommitIndexes.ThreeWayIsExactIff` | crates/git/graph-store/src/index.rs:296-313 | joining three in turn answers the greatest of the three everywhere if and only if the third overrides whatever the first join lost and the last join loses nothing |
| `CommitIndexes.OverflowBreaksAssociativity` | crates/git/graph-store/src/index.rs:398-416 | three indexes that can be read back, two at one seq and one with the longest tail there is: joined in the two orders, the results differ |
| `CommitIndexes.IndexJoinIsIdempotent` | crates/git/graph-store/src/index.rs:296-313 | a layout joined with itself is itself if and only if it can be read back |
| `CommitIndexes.AgreeingJoinKeepsBoth` | crates/git/graph-store/src/index.rs:296-313 | where two indexes agree at a seq, a join whose tail fits keeps both sides' answer there |
| `SegmentJoins.JoinedIsIndex` | crates/git/graph-store/src/store.rs:131-142 | in every state of every run: the segments listed, joined in any grouping and order with repeats, none overflowing, answer at every seq with the row the protocol's index has there, parents in order, and with nothing elsewhere |
| `SegmentJoins.ComesAnswers` | crates/git/graph-store/src/index.rs:296-313 | where all indexes that answer at a seq agree, any join of them answers so, and only there |
| `SegmentJoins.IndexHas` | crates/git/graph-store/src/store.rs:131-142 | where segments agree, their index has every segment's rows and no others |
| `PackIndexes.PacksAreOrdered` | crates/git/graph-store/src/packs.rs:69-88 | the order on pack facts is strict and total |
| `PackIndexes.NewestSegmentWins` | crates/git/graph-store/src/packs.rs:204-212 | of two copies the join keeps the one in the newer segment |
| `PackIndexes.PackJoinIsSemilattice` | crates/git/graph-store/src/packs.rs:204-212 | commutative, associative and idempotent as structural equality |
| `Frames.HeaderReadsBack` | crates/lattice/core/src/frame.rs:99-150 | a header before its body reads back as itself if and only if both counts fit 32 bits, and is refused for its length otherwise |
| `Formats.HeaderFormat` | crates/lattice/core/src/frame.rs:99-106 | byte for byte: four of magic, a version word of one, the first key in eight, then the two counts in four each, capped at what four hold, little-endian |
| `Frames.FetchIsStowed` | crates/lattice/core/src/tail.rs:25-50 | whatever is stowed later, a blob is fetched as stowed if and only if it is empty or its offset and length fit, and as nothing otherwise |
| `PackBytes.DecodeRange` | crates/git/graph-store/src/packs.rs:252-286 | whatever bytes were read, a value is canonical; the bytes of any array too long to count in 32 bits are refused for their length, and those of any other read back as its restriction to the range |
| `PackBytes.Encode` | crates/git/graph-store/src/packs.rs:221-250 | the frame header, sixty bytes a slot, then the bitmaps in slot order, and nothing else |
| `Formats.PackFormat` | crates/git/graph-store/src/packs.rs:221-250 | byte for byte: the header, sixty bytes a slot at their places, a hole all zero, then the heap |
| `Formats.StowFormat` | crates/lattice/core/src/tail.rs:25-34 | a bitmap is its length in four bytes, then itself, at the heap's end; an empty one is all ones and takes no room |
| `PackBytes.BodyReads` | crates/git/graph-store/src/packs.rs:221-302 | every record of a body reads as its slot, hole or node, its bitmaps fetched from the heap |
| `PackBytes.SlotReads` | crates/git/graph-store/src/packs.rs:221-302 | a slot reads back from its record and any heap that grew from the one it was stowed in |
| `PackBytes.RecordReads` | crates/git/graph-store/src/packs.rs:289-302 | a record reads as its node wherever the heap holds its bitmaps |
| `PackBytes.HeapGrows` | crates/git/graph-store/src/packs.rs:221-250 | later slots keep what earlier ones stowed |
| `CommitBytes.DecodeRange` | crates/git/graph-store/src/index.rs:340-394 | whatever bytes were read, a value is a canonical layout; the bytes of any index too long to count in 32 bits are refused for their length, and those of any other that can be read back read as an index that answers the same within the range and nothing outside it |
| `CommitBytes.Encode` | crates/git/graph-store/src/index.rs:322-338 | the frame header, twenty little-endian bytes a record, then four a tail word, and nothing else |
| `Formats.GraphFormat` | crates/git/graph-store/src/index.rs:322-338 | byte for byte: the header, each record's five words at its place, and after them each tail word |
| `CommitBytes.RecordReads` | crates/git/graph-store/src/format.rs:56-77 | each record reads back from its own place |
| `CommitBytes.RestrictionFits` | crates/git/graph-store/src/index.rs:340-394 | part of a value whose tail fits, fits |
| `CommitBytes.StoredGivesBack` | crates/git/graph-store/src/index.rs:175-394 | commits told to a builder, built, written out and read for a range: read if and only if the tail can be counted in 32 bits, and then each commit of the range comes back, parents in order, and nothing else; refused for its length otherwise |

## Left out

- Numbering: each step is a relation between states, so it states no contract of its own; what every step keeps is `NumberingSafety`. `record` is all or nothing and the journal commits atomically, as their contracts say.
- NumberingProgress.FinishesAloneIff: a push that loses to others five times gives up, and how often it can lose is not stated; safety holds however often it does.
- Numbering: a push's objects are given without repeats, and of the object index only which objects it has is part of the state, not its records, bitmaps and pack locations. An oid two pushes bring as two kinds is followed through numbering but not through that index.
- PaintWalk.BandedPaintWalk: a have's grafts are also a want's, as at both call sites; `UnsharedGraftLosesCommits` shows why.
- PaintWalk.BandedPaintWalk: the order in which the commits come is not stated.
- ShallowWalk.DepthClassify: nor is it here.
- PaintWalk.BandedPaintWalk: band width is at least one; `WidthlessRoundStalls` shows what zero would do.
- TreeDiff.DiffTrees: paths are sequences of names rather than joined bytes, names in one tree are distinct, trees are ranked so that none holds itself, and removals of one tree come in its own order rather than sorted; the order of changes is not stated.
- PlanningLoop.PlanPush: what the store would return for a tree, and which objects do not parse as one, are parameters; reading root trees of boundary commits is not modelled.
- Classify.ClassifyPush: where older bases live is a parameter, and so are the proofs; which queries are asked is not stated, only that no proof but a true one keeps a delta. Sources of the commits' own entries are left out.
- AncestryProof.Prove: boundaries are distinct, as `UnsentParents` returns them; slot numbers are not capped at 32 bits.
- Resolve.IdentifyEntries: byte offsets, timings and progress are left out; parsed references are represented by the object they are parsed from.
- Rebuild.RebuildAt: the lock around the cache is left out.
- Rebuild.Adopt: takes and returns the push's packs as values rather than updating them in place.
- CommitIndexes.Builder.Insert: known generations are `GraphWrite.Build`'s.
- ChainHistory.HistoryStaysAcyclic: pushes follow one another; that a push's numbers lie above what another stored meanwhile is its premise. `LowNumberLosesOrder` is about bounding alone, and does not follow the two pushes through planning.
- SegmentJoins.JoinedIsIndex: every stored index has room for its tail, and no join on the way overflows; `JoinAnswers` says what one that does loses.
- PackBytes.DecodeRange: a bitmap is its serialized bytes; parsing them is left out.
- Chains.BoundChains: a pack whose commit is not in the batch is returned as planned, so nothing is bounded there; the one caller (crates/git/ingest/src/session.rs:109) plans packs for the batch alone.
- Machine integers are unbounded: 64-bit sums of sizes and seqs never saturate. The 32-bit ceilings that change an answer, of generations, slots, offsets and counts, are modelled; numbers too large for a slot stop `GraphWrite.Build`, and the protocol in `Numbering` does not take that step.
- First-parent pages, pack facts of the commits sent, band and run partitions for compaction: easy members over the same graph.
- Async plumbing, drivers, staging, upload, metering, progress, connectivity checks, materialising, hooks and ref updates.
