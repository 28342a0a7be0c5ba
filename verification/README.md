# A verified model of the authorization engine

The system answers whether someone may do something to a resource. A schema, written in its own language, says
which relations store tuples, which subjects they accept, and how permissions are built from them with unions,
intersections, exclusions and arrows. A central store keeps the tuples and every schema written; sidecars follow it
through snapshots and deltas, hold everything in memory, and answer checks.

This project models all four parts and proves what they promise, from the text of a schema to the answer of a check.

- **The evaluator and the schema validator** (Refs, Schema, Model, Graph, Builder, Acceptance, RunState, ProofTree,
  Evaluator, Engine, Laws, Consequences). `Model` defines the right answer: the stratified least fixed point of the rewrites over
  finitely many keys. `Evaluator.Run` is the memoized, short-circuiting depth-first evaluation with its in-line
  search for strongly connected components, in the same imperative form as the code: a key being computed reads as
  false, finished keys outside a settled component stay on the stack, `Settle` re-slices the stack every round and
  skips what is already true, and a frame that stops being root while settling returns what it had. `Engine.Check`
  proves its answers equal the fixed point for every schema `Build` accepts and every set of tuples, cycles included.
  `Laws` says operator by operator what that fixed point grants, of the answers to other checks; `Acceptance` says form
  by form what `Build` takes.
- **The central store** (Names, Tuples, Locks, Database, Invariant, Steps, Commits, Feed, Serving, Stored, Following).
  `Database` is a transition system: transactions with ids, advisory locks taken one by one, statements that see what
  is committed when they run, commits in any order, rollbacks at any point, snapshots, prunes and followers. `Feed`
  proves what writers and readers are promised, in every state of every run; `Serving` that every request it should take
  has a run that commits it; and `Following` takes it on to the decisions of a sidecar.
- **The in-memory replica** (Dictionaries, Naming, Merging, Entries, Replicas, Renaming, Requests, Agreement, Sidecar,
  Sessions, Meanings). Its sorted lists are proved to answer as a set of tuples does, and the ids given out not to matter.
  `Meanings` goes from a source to answers: what each way of writing a relation or a permission grants, all in names.
- **The schema language** (Lexing, Expressions, Grammar, Parsing, Compile, Rules). Lexer, recursive-descent parser and
  compiler, with the round trip from definitions to source and back; `Rules` gives a condition on a source's text under
  which it compiles.

Where the source changes state step by step the model does so too: `Evaluator.Run`, `ProofTree.Recorder`,
`Builder.SchemaBuilder`, `Dictionaries.Table`, `Replicas.Replica`, `Sidecar.Store`, `Lexing.Lexer` and `Parsing.Parser`
are classes whose methods are proved against functions on values; the store's concurrent transactions are steps of a
state machine.

## Reading the model

- Ids are numbers, zero never valid. The evaluator is measured against a `World`: definitions, tuples, a subject, and
  the objects a request leads to. A `Levels` function assigns each relation a level; that one exists is what
  `Build` establishes.
- PostgreSQL is assumed to give what its isolation levels promise: a write's statement sees the commits before it and
  its own changes, a read transaction sees one snapshot, a commit becomes visible to snapshots all at once, and
  advisory locks are held to the end of the transaction. `Commit` records in `Database` are a history no step reads:
  they are what the other tables and the followers are measured against.
- The context and the tuple source may fail any call a check makes to them. When they do is a function of the call's
  number, `outside`, of which nothing is assumed.

## Model

| member | source | states |
|---|---|---|
| Model.FixedPointIsModel | internal/core/reference_test.go:338-369 | the level-by-level fixed point is the least set closed under the rewrites once it answers the subtract sides itself |
| Model.ModelUnique | internal/core/schema.go:632-651 | that set is the only one, so the fixed point does not depend on which levelling was taken |
| Model.Monotone | internal/core/check.go:249-252 | with the subtract sides fixed, more held keys never make a rewrite entail less |
| Model.Local | internal/core/reference_test.go:371-426 | a rewrite answers from the relations it reads, nothing above its level, and under a subtract nothing of its own level |
| Model.ModelsAgree | internal/core/reference_test.go:338-369 | worlds that store the same tuples on a closed set of relations agree on every key of those relations |
| Model.ObjectsIrrelevant | internal/core/reference_test.go:338-369 | listing more objects than the tuples and the request lead to changes no answer |
| Model.StratumLeast | internal/core/reference_test.go:338-369 | each finished level lies inside every set closed under the rewrites |
| Model.StratumClosed | internal/core/reference_test.go:338-369 | the finished levels hold all they entail |
| Graph.StratifiedIffLevels | internal/core/schema.go:632-651 | no subtracted read lies on a cycle if and only if relations can be levelled, no lower than what they read and above what they subtract |
| Graph.Reaches | internal/core/schema.go:653-675 | true exactly where a walk over the edges leads from start to the target, itself included |
| Graph.CheckStratified | internal/core/schema.go:635-651 | succeeds exactly when no negated edge closes a cycle |
| Graph.ExclusionReachable | internal/core/schema.go:677-710 | returns all a negated edge's target leads to, and nothing else |
| Graph.Close | internal/core/schema.go:677-710 | the queue loop ends with the set of all relations reachable from where it started |
| Schema.ArrowTargets | internal/core/schema.go:447-459 | lists the target on exactly the accepted types that define it |
| Schema.StoredEdgesIff | internal/core/schema.go:620-630 | the stored edges are one for each accepted userset and no other |
| Builder.ReachesWildcard | internal/core/schema.go:525-544 | finds a wildcard exactly where some walk through computed relations, arrows or operators leads to a relation that accepts one, and what it marks as seen stays clear |
| Builder.RewriteReachesWildcard | internal/core/schema.go:546-573 | the same for one rewrite, every operand included |
| Builder.TargetsReachWildcard | internal/core/schema.go:546-573 | the shared seen set misses no target of an arrow |
| Builder.OperandsReachWildcard | internal/core/schema.go:546-573 | the shared seen set misses no operand, the subtracted one included |
| Builder.ClearedWalk | internal/core/schema.go:520-544 | a walk from a cleared relation meets only cleared relations, so none of them accepts a wildcard |
| Builder.CheckEntry | internal/core/schema.go:471-509 | accepts one entry of an accepted list exactly when it is well formed, not repeated, names a defined userset, and the userset picks up no wildcard |
| Builder.CheckAllowed | internal/core/schema.go:461-513 | for a relation, passes exactly when the list is not empty and every entry passes; a permission has none to check |
| Builder.CollectEdges | internal/core/schema.go:582-618 | appends exactly the reads of a rewrite, in order, negated under a subtract and arrow tuplesets included |
| Builder.CollectStoredEdges | internal/core/schema.go:620-630 | appends the edges the accepted usersets imply |
| Builder.SchemaBuilder.Define | internal/core/schema.go:271-282 | keeps the first definition and records a second one as an error |
| Builder.SchemaBuilder.Relation | internal/core/schema.go:254-261 | adds a relation with its accepted list unless it was defined before |
| Builder.SchemaBuilder.Permission | internal/core/schema.go:263-269 | adds a permission with its rewrite unless it was defined before |
| Builder.SchemaBuilder.Build | internal/core/schema.go:284-322 | succeeds exactly when nothing was defined twice, every shape, reference and accepted list is right and the edges are stratified, which `Acceptance` takes form by form, and reports exactly the exclusion-reachable relations |
| Builder.ShapeIsSound | internal/core/schema.go:341-445 | a rewrite of right shape reads only along its recorded edges |
| Builder.AcceptedIsSound | internal/core/schema.go:284-322 | what Build accepts is sound for every levelling of its edges |
| Builder.AcceptedHasLevels | internal/core/schema.go:632-651 | what Build accepts can be levelled, so its fixed point exists |
| Acceptance.ReferenceRight | internal/core/schema.go:359-376 | a permission that is one reference is right exactly where the relation it names is defined on its type |
| Acceptance.ArrowRight | internal/core/schema.go:407-445 | a permission that is one arrow is right exactly where its tupleset is a relation of plain objects only and some type accepted there has the target |
| Acceptance.ArrowKeepsRight | internal/core/schema.go:437-442 | listing another object type on the tupleset keeps an arrow right, whether or not that type has the target |
| Acceptance.CombinationRight | internal/core/schema.go:378-402 | a combination is right exactly where each operand is, nested ones as the permissions they are written like, and their number fits |
| Acceptance.RelationRight | internal/core/schema.go:461-513 | a relation is right exactly where its list is not empty, repeats nothing and has only entries that may be accepted: objects and wildcards always, usersets that exist and gather no wildcard |
| Acceptance.RelationPicksUp | internal/core/schema.go:525-544 | a relation gathers only the wildcards it lists itself, not those of its usersets |
| Acceptance.ReferencePicksUp | internal/core/schema.go:552-553 | a reference gathers what the relation it names does |
| Acceptance.ArrowPicksUp | internal/core/schema.go:555-561 | an arrow gathers what its target does on any type accepted, and nothing by its tupleset |
| Acceptance.CombinationPicksUp | internal/core/schema.go:563-569 | a combination gathers what any operand does, the subtracted one too |
| Acceptance.AcceptsIff | internal/core/schema.go:284-322 | Build takes definitions exactly where each is right and some levels suit them all |
| Acceptance.CombinationSuits | internal/core/schema.go:602-606 | a union or an intersection of references may lie as high as its operands and no lower |
| Acceptance.ExclusionSuits | internal/core/schema.go:596-600 | an exclusion may lie as high as its first operand, so recur through it, but above its second |
| Acceptance.ArrowSuits | internal/core/schema.go:608-617 | an arrow is bound by its tupleset and by its target on each type accepted that has it, and by no other |
| Acceptance.RelationSuits | internal/core/schema.go:620-630 | a relation is bound by the usersets it accepts and by nothing else |
| Acceptance.RecursionAccepted | internal/core/schema.go:632-651 | definitions that subtract nothing are taken whenever each is right, however they recur |
| Evaluator.Run.Relation | internal/core/check.go:161-189 | returns true only for keys of the fixed point and false only with keys read as false that account for it; state, stack, lowlink and depth are kept as the caller left them |
| Evaluator.Run.Reread | internal/core/check.go:174-189 | a key met again answers from the memo, lowers the lowlink to its place on the stack, and reads as false while under way |
| Evaluator.Run.Enter | internal/core/check.go:191-204 | refuses a new key past the depth bound, and otherwise pushes it, evaluates its definition and concludes it |
| Evaluator.Run.Visit | internal/core/check.go:195-211 | pushes a key and evaluates its definition in a frame of its own |
| Evaluator.Run.Leave | internal/core/check.go:206-244 | settles and pops a component at its root, or leaves it on the stack with its lowlink passed up; a frame that stops being root while settling returns what it had |
| Evaluator.Run.PopFrom | internal/core/check.go:222-227 | pops exactly the keys from a position up, and the stack is cut there |
| Evaluator.Run.Settle | internal/core/check.go:246-289 | on return the component from pos up is stable or was never granted anything; members only rise, and new ones may have joined |
| Evaluator.Run.Round | internal/core/check.go:261-283 | one round re-evaluates the members not yet true, never lowers one, and if it changed nothing and pulled nothing in the component is stable |
| Evaluator.Run.ComponentGrants | internal/core/check.go:291-301 | true exactly when some member from pos up is true |
| Evaluator.Run.Eval | internal/core/check.go:311-347 | evaluates any rewrite node: what it answers is entailed, or refuted by the keys it read as false |
| Evaluator.Run.This | internal/core/check.go:355-407 | wildcard, direct and userset tuples are each tried, and false means none of them grants |
| Evaluator.Run.WildcardGrants | internal/core/check.go:409-427 | true exactly when an accepted wildcard tuple covers a subject that is an object |
| Evaluator.Run.Computed | internal/core/check.go:321-329 | reads the named relation on the same object |
| Evaluator.Run.Arrow | internal/core/check.go:439-477 | follows every accepted object of the tupleset whose type defines the relation, and false means none of them holds it |
| Evaluator.Run.Operand | internal/core/check.go:479-543 | evaluates one operand and hangs its proof under the parent |
| Evaluator.Run.Union | internal/core/check.go:479-494 | true as soon as one operand is, false with every operand refuted |
| Evaluator.Run.Intersection | internal/core/check.go:496-516 | false as soon as one operand is refuted, true with all of them entailed |
| Evaluator.Run.Exclusion | internal/core/check.go:518-543 | the subtract side is read exactly: what it answers is what the fixed point says of it |
| Evaluator.SubtractReadIsFinal | internal/core/check.go:518-543 | a key read under a subtract is never one still on the stack, so its answer is already final |
| Evaluator.BottomIsRoot | internal/core/check.go:211-238 | the outermost frame is always a component root, so a check never ends on a provisional answer |
| Evaluator.DepthBelowKeys | internal/core/check.go:191-201 | active frames are on distinct keys, so the depth never exceeds their number |
| Evaluator.RoomShrinks | internal/core/check.go:249-289 | every new key or newly true one shrinks the measure that ends evaluation and settling |
| Evaluator.UnsettledReturns | internal/core/check.go:206-244 | a frame that is not root returns an answer its caller can account for |
| Evaluator.RootAnswers | internal/core/check.go:229-238 | a root that was stable when popped answers what the fixed point says |
| RunState.NothingGrantedIsStable | internal/core/check.go:249-252 | a component with no granted key, or of one key, needs no round |
| RunState.StableIsFinal | internal/core/check.go:249-289 | a stable component whose outside reads are final holds exactly what the fixed point does |
| RunState.PopKeeps | internal/core/check.go:222-238 | popping a stable component keeps every invariant, so popped keys are final |
| RunState.ConcludeKeeps | internal/core/check.go:206-209 | recording an answer keeps every invariant and lowers nothing that was true |
| RunState.PushKeeps | internal/core/check.go:191-201 | entering a new key keeps the stack in visit order |
| RunState.HitKeeps | internal/core/check.go:171-189 | reading a key already known keeps every invariant |
| RunState.ReturnUnsettled | internal/core/check.go:240-244 | passing lowlink up keeps what the caller knows of its subtree |
| RunState.ReturnSettled | internal/core/check.go:222-244 | popping a component leaves the caller as it was |
| RunState.LowestIsOld | internal/core/check.go:206-214 | a lowlink below the frame names a key older than it |
| ProofTree.Recorder.Open | internal/core/proof.go:83-98 | appends an open node, except where recording is off, paused or full, and only there; a full proof is marked truncated |
| ProofTree.Recorder.Leaf | internal/core/proof.go:100-111 | records a memo hit or a cycle as a leaf with its outcome |
| ProofTree.Recorder.Close | internal/core/proof.go:113-125 | sets the outcome of its node, if it was recorded, and changes nothing else |
| ProofTree.Recorder.AddChild | internal/core/proof.go:127-133 | lists the child last under its parent where both were recorded, and changes nothing else |
| ProofTree.Recorder.Pause | internal/core/proof.go:77-81 | the recorder is blocked, so nothing opens, until the matching Resume |
| ProofTree.Recorder.Resume | internal/core/proof.go:77-81 | undoes one pause |
| ProofTree.OpenedOk | internal/core/proof.go:83-98 | an opened node keeps the log a forest whose roots are still open |
| ProofTree.ClosedOk | internal/core/proof.go:113-125 | closing a node with an answer the fixed point gives keeps every allowed node true |
| ProofTree.AttachedOk | internal/core/proof.go:127-133 | attaching a child keeps the log a forest with children above their parents |
| Engine.Check | internal/core/check.go:73-100 | for every accepted schema, tuple set and concrete subject: an answer is the stratified fixed point, and so what `Granted` is for the laws below; the first failure of the context or the source, and no other, is the error returned, and the only other errors are an undefined relation and a depth bound below the number of keys; the proof is one tree of at most 256 nodes even on error, full if truncated, its root the answer and its allowed nodes true |
| Engine.GrantedIs | internal/core/schema.go:632-651 | a request is granted by one levelling exactly where it is by every other |
| Laws.ReferenceGranted | internal/core/check.go:321-329 | a check of a permission that names another is answered as the check of that one |
| Laws.UnionGranted | internal/core/check.go:479-494 | a union is granted exactly where the check of some operand is |
| Laws.IntersectionGranted | internal/core/check.go:496-516 | an intersection is granted exactly where the check of every operand is |
| Laws.ExclusionGranted | internal/core/check.go:518-543 | an exclusion is granted exactly where the check of its first operand is and that of its second is not |
| Laws.ArrowGranted | internal/core/check.go:439-477 | an arrow is granted exactly where a stored tuple leads to an accepted object on which the check of the target is |
| Laws.RelationGranted | internal/core/check.go:355-427 | a relation is granted exactly where a stored tuple of an accepted kind names the subject, its whole type, or a userset the check of which is granted |
| Laws.PermissionGranted | internal/core/check.go:311-347 | an expression however nested is granted as its operators say of the checks it refers to |
| Laws.NothingStoredNothingGranted | internal/core/check.go:181-189 | with no tuples nothing is granted, for a cycle is no ground by itself |
| Engine.AnyLevels | internal/core/schema.go:632-651 | whichever levelling is taken, the answer is the same |
| Engine.ProofStands | internal/core/proof.go:83-137 | however a run ended its proof is a tree and every allowed node names a part of a definition the fixed point holds |
| Consequences.AddingTupleKeepsAllowed | internal/core/schema.go:582-630 | adding a tuple on a relation outside ExclusionReachable never turns an allowed check into a denied one |
| Consequences.ModelGrows | internal/core/schema.go:677-710 | with more tuples on such relations the fixed point only grows |
| Consequences.ReachableConfines | internal/core/schema.go:677-710 | no subtract side reads a relation outside ExclusionReachable, not through usersets or arrow tuplesets either |
| Consequences.EdgesConfine | internal/core/check.go:355-477 | every key-to-key read of a rewrite is one of its recorded edges |
| Consequences.NegatedConfine | internal/core/schema.go:582-618 | every read of a subtract side starts at a recorded negated edge |
| Consequences.UnnamedHoldsOnlyWildcards | internal/core/schema.go:499-573 | a subject no tuple names holds only what some wildcard reaches |
| Consequences.UnnamedIsInNoUserset | internal/core/schema.go:499-513 | so it holds no relation or permission that any relation accepts as a userset |
| Names.ValidObjectID | internal/core/identifiers.go:42-55 | accepts exactly non-empty identifiers of at most 1024 bytes over the identifier alphabet |
| Names.ValidDSLName | internal/core/identifiers.go:57-75 | accepts exactly lower-case names with digits and underscores, a letter first, within the bound |
| Names.JoinUnique | internal/datastore/postgres/write.go:26-34 | a separator in neither first part lets joined strings come apart one way only |
| Names.SortedNames | internal/datastore/postgres/lock.go:56-58 | lists a set of names once each in byte order |
| Tuples.FormatInjective | internal/datastore/postgres/write.go:26-34 | no two valid tuples format alike |
| Tuples.CheckUpdates | internal/datastore/postgres/write.go:109-137 | updates pass exactly when they are acceptable, and a refusal names something that is wrong with them |
| Tuples.AcceptableIs | internal/datastore/postgres/write.go:109-157 | updates are acceptable exactly where each touches or deletes a valid tuple of a kind the schema accepts and no tuple comes twice |
| Tuples.FiltersTaken | internal/datastore/postgres/delete.go:84-98 | a relation with a well-formed name can be deleted whole, and each kind it accepts by itself |
| Tuples.FiltersMatch | internal/datastore/postgres/delete.go:100-118 | a filter on a relation matches all of its tuples, one on a kind those of the kind |
| Tuples.Dropped | internal/datastore/postgres/schema.go:71-103 | of the tuples the old schema accepts, the filters match exactly those the new one refuses |
| Tuples.DroppedCovers | internal/datastore/postgres/schema.go:71-103 | filters for dropped relations and dropped subject types leave no refused tuple unmatched and match no accepted one |
| Stored.CheckByIdIsByName | internal/datastore/postgres/write.go:161-188 | checking a filter against a compiled schema by looking names up gives the verdict the names themselves give |
| Stored.NamedIsWellFormed | internal/datastore/postgres/schema.go:71-103 | a compiled source never makes a relation a permission too, nor accepts a kind without a type |
| Stored.CompiledIsWellFormed | internal/datastore/postgres/schema.go:21-30 | a source the compiler takes makes a schema that may be written |
| Stored.CompiledAccepts | internal/datastore/postgres/schema.go:23-30 | what a compiled schema accepts is what its own source, read again, accepts |
| Stored.DeletesTaken | internal/datastore/postgres/delete.go:33-50 | whatever a compiled schema lets be stored can be deleted, by relation and by kind |
| Locks.WriteLocks | internal/datastore/postgres/lock.go:63-76 | a write asks for the schema lock shared and for each tuple its relation, whole when the write is large and else with the tuple's own lock |
| Locks.Ordered | internal/datastore/postgres/lock.go:47-61 | each name once, exclusive exactly when any asked so, in byte order |
| Locks.OrderedClash | internal/datastore/postgres/lock.go:47-61 | ordering loses no conflict and invents none |
| Locks.MutualExclusion | internal/datastore/postgres/lock.go:63-94 | any two requests that may change one tuple take conflicting locks, small write, large write or filter delete |
| Locks.SmallWritesIndependent | internal/datastore/postgres/lock.go:63-94 | writes of up to 64 distinct valid tuples never conflict where they share none |
| Locks.LargeWritesTakeRelations | internal/datastore/postgres/lock.go:63-81 | past 64 updates a write takes no single tuple's lock, and each relation it touches alone |
| Locks.NamesApart | internal/datastore/postgres/lock.go:83-98 | the four families of lock names never meet, and tuple locks are one to a valid tuple |
| Locks.SchemaExclusion | internal/datastore/postgres/lock.go:83-85 | a schema write conflicts with every write and schema write, a prune with a prune |
| Locks.WaitsRise | internal/datastore/postgres/lock.go:29-61 | along a chain of waiting requests the awaited lock only rises by name, then by place in its queue |
| Locks.NoWaitCycle | internal/datastore/postgres/lock.go:47-61 | nobody waits in a circle, queued requests ahead included |
| Locks.LastWaiter | internal/datastore/postgres/lock.go:47-61 | of finitely many waiting requests one awaits a lock no other comes after, by name and place in the queue |
| Locks.WaitsForNobody | internal/datastore/postgres/lock.go:29-61 | of finitely many requests, whatever they hold and however they queue, one waits for none of them |
| Database.Newest | internal/datastore/postgres/schema.go:105-113 | picks the row with the greatest version |
| Steps.AdvanceKeeps | internal/datastore/postgres/write.go:70-107 | every statement of every kind of transaction keeps the store's invariant |
| Steps.BeginKeeps | internal/datastore/postgres/store.go:41-50 | a new transaction, its precheck passed, keeps it |
| Steps.FailKeeps | internal/datastore/postgres/store.go:50-54 | a rollback at any point keeps it |
| Commits.ChangesApart | internal/datastore/postgres/lock.go:63-94 | no transaction changes a tuple another in flight has looked at to change |
| Commits.SchemaWriteAlone | internal/datastore/postgres/lock.go:63-85 | a schema write past its lock runs beside no write past its own |
| Commits.PruneStands | internal/datastore/postgres/prune.go:31-50 | lines committed while a prune runs lie past every cut it can find |
| Commits.RunningNotCut | internal/datastore/postgres/prune.go:15-27 | no running transaction lies before any mark, so none is cut |
| Commits.CutStays | internal/datastore/postgres/prune.go:40-46 | dropping the marks before the cut leaves the cut itself |
| Commits.CommitKeepsLog | internal/datastore/postgres/write.go:53-67 | a commit adds its lines, so the log stays complete from its oldest mark |
| Commits.FinishKeepsWork | internal/datastore/postgres/store.go:33-39 | a commit leaves standing what every other transaction's statements found |
| Commits.FinishKeepsFollowers | internal/datastore/postgres/read.go:10-13 | a commit is seen by no revision given out before it |
| Commits.FinishKeeps | internal/datastore/postgres/store.go:41-60 | every commit, out of id order or not, keeps the invariant |
| Commits.Drift | internal/datastore/postgres/read.go:107-117 | a tuple no later commit touched stands as it stood |
| Commits.DeltaIsComplete | internal/datastore/postgres/read.go:77-117 | where the log reaches back, the lines a revision does not see name exactly the tuples touched since |
| Commits.UnseenSince | internal/datastore/postgres/read.go:92-105 | the schema rows a revision does not see are those the later commits wrote |
| Commits.DeltaIsSnapshot | internal/datastore/postgres/read.go:66-121 | a delta brings a follower of any age to what a fresh snapshot would read |
| Commits.ReadKeeps | internal/datastore/postgres/read.go:35-121 | both reads leave the follower with what is committed at that moment |
| Commits.EveryState | internal/datastore/postgres/read.go:35-121 | the invariant holds in every state of every run |
| Feed.FollowerHoldsItsRevision | internal/datastore/postgres/read.go:35-121 | in every run each follower holds exactly the tuples and schema of the commits its revision sees, and they fit each other |
| Feed.SeenIsPrefix | internal/datastore/postgres/read.go:10-13 | what a revision sees is the commits made before it was taken, whatever their ids |
| Feed.ReadBringsUpToDate | internal/datastore/postgres/read.go:35-121 | after Snapshot, or Changes not refused, the follower holds what is committed |
| Feed.ChangesMissNothing | internal/datastore/postgres/read.go:107-117 | Changes names a tuple if and only if a commit the revision does not see touched it |
| Feed.LogReachesItsOldestMark | internal/datastore/postgres/migrations/0001_init.sql:27-35 | a line stays in the log for as long as some mark no later than its transaction is kept |
| Feed.RefusedOnlyPastItsMarks | internal/datastore/postgres/prune.go:12-27 | a follower is refused only once every mark that stood when it last read is gone |
| Feed.CommitsAreSerial | internal/datastore/postgres/write.go:69-107 | each commit does to the tuples what its request does run alone, and logs exactly the tuples it changed |
| Feed.CommitIsSerial | internal/datastore/postgres/delete.go:31-69 | the same for one commit: a write its updates in turn, a filter delete every matching tuple |
| Feed.InTurnIs | internal/datastore/postgres/write.go:88-104 | distinct updates applied in turn come to the touched tuples added and the deleted ones removed |
| Feed.NewestSchemaAcceptsAll | internal/datastore/postgres/schema.go:31-103 | in every committed state the newest schema accepts every stored tuple |
| Feed.PruneCutsOnce | internal/datastore/postgres/prune.go:38-46 | of the log and the marks a prune removes exactly what lies before some mark made at least keep ago, its own mark counted, and always leaves a mark |
| Feed.Holder | internal/datastore/postgres/lock.go:47-61 | what a blocked transaction waits for is held by another in flight, which waits only for something later |
| Feed.SomeoneIsNotBlocked | internal/datastore/postgres/lock.go:29-61 | while any transaction is in flight, one waits for nobody: no holder, and no request ahead of it in any queue, however the queues stand |
| Serving.TupleComesAndGoes | internal/datastore/postgres/write.go:69-107 | for every schema and valid tuple it accepts, some run writes both, shows them to a follower, deletes the tuple by a write, and shows the follower as a change that it is gone |
| Serving.SchemaWritten | internal/datastore/postgres/schema.go:21-69 | a first schema needs no check and can always be written |
| Serving.TakesLocks | internal/datastore/postgres/lock.go:29-45 | a transaction alone is granted every lock it asks for |
| Serving.WriteCommits | internal/datastore/postgres/write.go:69-107 | every write of touches and deletes of distinct valid tuples the newest schema accepts can be committed; afterwards what it touched is there, what it deleted is not, and the rest is as it was |
| Serving.DeleteCommits | internal/datastore/postgres/delete.go:31-69 | every delete by a filter the newest schema takes can be committed, and removes exactly the tuples it matches |
| Serving.SchemaCommits | internal/datastore/postgres/schema.go:21-69 | every schema that accepts all tuples stored can be committed over any other |
| Serving.PruneCommits | internal/datastore/postgres/prune.go:29-50 | a prune can be committed at any time and changes no tuple and no schema |
| Serving.Reads | internal/datastore/postgres/read.go:35-121 | a snapshot can be read at any time and a delta while the first mark is kept, and either shows what is committed |
| Following.AppliesDelta | internal/memstore/replica.go:67-93 | landing a delivered delta does to a replica what the delta says |
| Following.DeliversValid | internal/datastore/postgres/read.go:30-33 | a delta names valid tuples, each once, so a replica may be given it |
| Following.SendsValid | internal/datastore/postgres/read.go:35-64 | a snapshot names valid tuples, each once, so a replica may be given it |
| Following.ResetMirrors | internal/memstore/store.go:34-51 | a reset on a snapshot leaves a sidecar with the tuples and the schema committed |
| Following.SidecarFollows | internal/datastore/postgres/read.go:66-121 | a sidecar that held its revision's tuples and schema and lands a delta mirrors the store as committed: its tuples, and its newest source as read |
| Following.SchemasAreCompiled | internal/datastore/postgres/schema.go:21-30 | in every state of a run whose writers compile first, every schema stored was compiled from its source |
| Following.SidecarHolds | internal/datastore/postgres/read.go:35-121 | after any read a sidecar that mirrors its follower holds the committed tuples under what the newest source is read as |
| Following.SidecarAccepts | internal/datastore/postgres/schema.go:31-103 | the definitions a sidecar holds accept every tuple it holds |
| Following.SidecarDecides | internal/memstore/store.go:86-106 | a decision of a sidecar brought up to date is the one the committed tuples and the newest source give under any dictionary |
| Dictionaries.Table.Intern | internal/core/dictionary.go:50-72 | gives a new string the next id, a known one its own, the empty one zero, and fails exactly where the string is new and the table full |
| Dictionaries.Table.Lookup | internal/core/dictionary.go:74-77 | zero exactly for strings never interned, and never the id that stands for the unknown |
| Dictionaries.Table.NameOf | internal/core/dictionary.go:79-85 | names and ids undo each other |
| Dictionaries.Dictionary.InternObjectRef | internal/core/refs.go:13-30 | resolves a resource, adding its two names and no other; fails exactly where one of them needs an id and none is left |
| Dictionaries.Dictionary.InternSubjectRef | internal/core/refs.go:32-64 | resolves a subject, the marker as the type's wildcard, adding its names and no other; fails exactly where one of them needs an id and none is left |
| Dictionaries.Dictionary.LookupObjectRef | internal/core/refs.go:66-75 | resolves a resource with zero for names not known |
| Dictionaries.Dictionary.LookupSubjectRef | internal/core/refs.go:77-97 | resolves a subject as interning would, with zero for names not known |
| Dictionaries.Dictionary.InternType | internal/core/dictionary.go:114-122 | adds a type name where it is new and nothing else; fails exactly where it is new and the table full |
| Dictionaries.Dictionary.InternRelation | internal/core/dictionary.go:124-132 | adds a relation name where it is new and nothing else; fails exactly where it is new and the table full |
| Merging.MergeSorted | internal/memstore/replica.go:220-265 | the result is strictly sorted and holds exactly base plus adds minus drops |
| Merging.BinarySearch | internal/memstore/replica.go:301-312 | finds an element exactly when a sorted list holds it |
| Entries.PutKeeps | internal/memstore/replica.go:175-188 | subjects put in sorted order leave the three lists sorted, and put nothing else in them |
| Entries.MergeEntry | internal/memstore/replica.go:190-197 | a key's lists come out sorted, holding what they held and the adds without the drops |
| Entries.MergeKey | internal/memstore/replica.go:167-205 | each subject of the key stands as its item says or as before; the key is there exactly while it holds one |
| Entries.Merge | internal/memstore/replica.go:150-165 | after a merge every tuple stands as its item says, or as before where none does |
| Entries.SortItems | internal/memstore/replica.go:151-154 | orders the items without losing any |
| Replicas.InternTuple | internal/memstore/replica.go:117-135 | resolves a present tuple, adding none but its names; fails exactly where a name stays unknown, and then some table is full |
| Replicas.ResolveTuple | internal/memstore/replica.go:137-148 | resolves a removed tuple exactly when all its names are known, adding none |
| Replicas.ItemsOf | internal/memstore/replica.go:74-88 | every change becomes an item, but for removals of tuples not held; fails only on a present tuple whose names no longer fit |
| Replicas.LandedIsAfter | internal/memstore/replica.go:67-93 | landing a change list's items applies the list to the set of tuples |
| Replicas.CollectSubjects | internal/memstore/replica.go:105-112 | a type or userset is collected if and only if it is on some accepted list, wildcards counting as their type |
| Replicas.CompileSource | internal/memstore/replica.go:95-103 | compiles a source to what its definitions mean in the replica's ids; no schema comes back only where the source is unreadable or unfit, or no id is left |
| Replicas.NewReplica | internal/memstore/replica.go:44-65 | a new replica holds exactly the tuples given under the source given; none is made only where the source is refused or no id is left |
| Replicas.Replica.Apply | internal/memstore/replica.go:67-93 | the replica holds the tuples it held with the changes applied, under the new source if one came; it fails only where the source is refused or no id is left |
| Replicas.Replica.Lookup | internal/memstore/replica.go:280-312 | direct exactly where the set of tuples held has the subject on the key, with the usersets of the key beside it |
| Replicas.Replica.Subjects | internal/memstore/replica.go:314-339 | lists an object exactly where the set of tuples held has it on the key, with the usersets of the key behind |
| Replicas.Replica.HasWildcard | internal/memstore/replica.go:341-356 | granted exactly where the set of tuples held has the type's wildcard on the key |
| Replicas.NamesItself | internal/memstore/replica.go:301-312 | true exactly when the entry names the subject itself, and never for a wildcard |
| Replicas.AnswersAsSet | internal/memstore/replica.go:280-356 | the sorted lists answer each of the three questions as membership in the tuples held |
| Renaming.EntailsSame | internal/core/check.go:311-347 | corresponding rewrites entail the same of corresponding keys whatever ids stand for the names |
| Renaming.ModelRenamed | internal/core/reference_test.go:338-369 | a model told in other ids is a model |
| Renaming.FixedPointRenamed | internal/core/dictionary.go:29-34 | the same question told in different ids has the same answer |
| Requests.DefinitionsSame | internal/schema/compile.go:120-183 | one source compiled under two dictionaries makes corresponding definitions |
| Agreement.BetweenLinks | internal/memstore/store.go:108-142 | two dictionaries' ids for one set of tuples and one request correspond one to one, ids for unseen names included |
| Agreement.SameDecisions | internal/memstore/store.go:86-142 | with the same source and tuples, whatever histories and ids, two replicas decide every request alike |
| Sidecar.Store.Reset | internal/memstore/store.go:34-51 | afterwards the store holds exactly the tuples and source given; it is not ready only where the source is refused or no id is left |
| Sidecar.Store.Apply | internal/memstore/store.go:53-72 | afterwards the replica holds the tuples it held with the changes applied; a ready store stops being ready only where the source is refused or no id is left |
| Sidecar.Store.Check | internal/memstore/store.go:86-106 | not ready; refused for what is wrong with the names; decided as the fixed point over the tuples held says; or failed, and then for the failure the last call outside met, an undefined relation, more than 50 keys, or a wildcard for a subject, which always fails. Without any of these it decides |
| Sidecar.ReplicasAgree | internal/memstore/store.go:86-142 | two ready replicas with the same definitions in force and tuples held agree on every request both answer |
| Sidecar.AskedIsWellFormed | internal/memstore/store.go:108-142 | what a valid name-level request resolves to is well formed exactly where its subject is not a wildcard |
| Meanings.PermissionMeans | internal/schema/parser.go:31-85 | for a replica of a source: a permission is answered as its written expression says of the answers to the names in it, however nested |
| Meanings.ReferenceMeans | internal/schema/parser.go:37-44 | a permission written as a name is answered as that name is |
| Meanings.UnionMeans | internal/schema/parser.go:71-85 | "a + b" is answered yes exactly where some operand is |
| Meanings.IntersectionMeans | internal/schema/parser.go:71-85 | "a & b" is answered yes exactly where every operand is |
| Meanings.ExclusionMeans | internal/schema/parser.go:71-85 | "a - b" is answered yes exactly where a is and b is not |
| Meanings.ArrowMeans | internal/schema/parser.go:46-56 | "t->r" is answered yes exactly where a tuple held on t names an object, of a kind t lists, on which r is |
| Meanings.RelationMeans | internal/schema/compile.go:144-176 | a relation is answered yes exactly where a tuple held on it, of a kind it lists, names the subject, all of its type, or a userset that is answered yes |
| Meanings.ListedIsSubject | internal/memstore/replica.go:105-112 | a kind on some list makes its type one that may be asked about, a lone wildcard included |
| Meanings.AsksWhere | internal/memstore/store.go:108-142 | of a member of the source a well-named question is taken exactly where some relation lists its subject, and then its relation is defined |
| Meanings.DecidedIsAnswer | internal/memstore/store.go:86-106 | what a store decides is the answer these laws are about |
| Sessions.ReadsOneRevision | internal/memstore/store.go:19-22 | however checks, resets and the single writes of an Apply interleave, every read of a check is answered from one whole replica value, as one schema and one plain set of tuples answer |
| Sessions.ReplicaIsWhole | internal/memstore/replica.go:21-42 | between the calls that change it a replica is such a whole value |
| Sessions.NotReadyUntilReset | internal/memstore/store.go:34-72 | after a failed Apply or Reset every check finds the store not ready until a Reset succeeds |
| Sessions.ChecksAreServed | internal/memstore/store.go:34-106 | in some run a reset and an apply land and checks are answered from the whole of either |
| Lexing.Lexer.Next | internal/schema/lexer.go:52-105 | returns the next lexeme after blanks and comments and leaves the rest, or the error that ends the source |
| Lexing.SkipFrom | internal/schema/lexer.go:52-74 | passes exactly the blanks and comments ahead |
| Lexing.LexesBack | internal/schema/lexer.go:76-105 | lexemes laid out with any blanks, tabs, line breaks and comments between them read back as they were |
| Expressions.ReadsWritten | internal/schema/parser.go:314-404 | however an expression is written, reading it gives the tree it means and stops where it ends |
| Expressions.ExprWasWritten | internal/schema/parser.go:314-404 | whatever is read was a way of writing the tree returned, so mixed operators and chained arrows are refused |
| Expressions.RoundTrip | internal/schema/parser.go:58-63 | printing a tree with parentheses around compound operands and reading it back returns it |
| Expressions.ExclusionAssociatesLeft | internal/schema/parser.go:347-357 | an unparenthesised chain of "-" is read as subtracting its last operand from what the chain before it is read as |
| Expressions.WrittenIsShaped | internal/schema/parser.go:58-63 | "+" and "&" get at least two operands and "-" exactly two |
| Grammar.ReadsFile | internal/schema/parser.go:101-306 | every well-written source reads as the definitions it means |
| Grammar.FileWasWritten | internal/schema/parser.go:101-306 | whatever file is read was a good way of writing what was read |
| Parsing.SourceIsWritten | internal/schema/parser.go:101-119 | a source means some definitions if and only if it lexes to a good way of writing them |
| Grammar.SourceRoundTrip | internal/schema/parser.go:101-119 | definitions written as source in any layout, lexed and read come back as they were |
| Grammar.FileIsGood | internal/schema/parser.go:164-306 | whatever is read has the shape the builder asks for |
| Parsing.Parser.ReadExpr | internal/schema/parser.go:314-358 | the method reads what the grammar says, left-associating "-" |
| Parsing.Parser.ReadOperand | internal/schema/parser.go:360-404 | reads a parenthesised expression, a name or one arrow |
| Parsing.Parser.ReadKind | internal/schema/parser.go:250-284 | reads a type, its wildcard or its userset |
| Parsing.Parser.ReadRelation | internal/schema/parser.go:210-248 | reads a relation with its list of kinds |
| Parsing.Parser.ReadPermission | internal/schema/parser.go:286-306 | reads a permission with its expression |
| Parsing.Parser.ReadDefinition | internal/schema/parser.go:164-208 | reads one definition block |
| Parsing.Parser.Advance | internal/schema/parser.go:121-130 | moves one lexeme on, unless the source cannot be lexed there |
| Parsing.Parser.TakeNameHere | internal/schema/parser.go:148-162 | takes a name that is no keyword |
| Parsing.Parse | internal/schema/parser.go:101-119 | reads a whole source to what the grammar says it means, or reports a syntax error |
| Compile.ArityIsRight | internal/schema/parser.go:71-85 | with its names interned, an expression the parser built can be refused by Build only for a reference that does not resolve |
| Compile.CheckNames | internal/schema/compile.go:62-118 | passes exactly when names keep the rules, types are defined once and nothing undeclared is referred to |
| Compile.CheckDeclarations | internal/schema/compile.go:64-88 | finds the declared names, and passes exactly when they keep the rules and no type is defined twice |
| Compile.CheckReferences | internal/schema/compile.go:90-115 | passes exactly when every type, userset relation and expression name is declared somewhere |
| Compile.InternNames | internal/schema/compile.go:122-142 | every declared name is known afterwards, or an id space is full |
| Compile.FillBuilder | internal/schema/compile.go:144-176 | hands the builder exactly the definitions, in order |
| Compile.Compile | internal/schema/compile.go:43-57 | returns a built schema that means the definitions; where it returns none, a check failed, an id space is full or Build refuses; what its answers come to is in the laws of `Meanings` |
| Compile.EveryMemberCollected | internal/schema/compile.go:144-176 | where nothing is defined twice, every relation and permission is collected as it was written |
| Compile.EveryRefGiven | internal/schema/compile.go:144-176 | nothing is collected but what the source gives |
| Rules.PlainIsChecked | internal/schema/compile.go:62-118 | a plain source passes the checks on names and references |
| Rules.PlainSourceIsTaken | internal/schema/compile.go:43-57 | a source with well-formed names given once, whose references resolve and arrows follow objects, and which subtracts nothing and does not list both usersets and wildcards, is never refused: only a full dictionary can be in its way |
| Compile.MeansGrows | internal/core/dictionary.go:114-142 | a built schema goes on meaning its source however many names are added after |

## Left out

- The texts, order and positions of errors, `SchemaError.Explain`, `place`, `join`, and the suggestions `mixed` builds:
  decisions and the error-or-not split are modelled, and which error comes back where several apply is not.
- `ExclusionReachable` and `Relations` as sorted lists: the model returns the set.
- Go's own semantics of maps, slices and mutexes: each dictionary operation is atomic, a map ranges in any order, and the
  read-write lock in `Sessions` grants by who holds it, not by who came first.
- Batches and buffers of `TupleSource`: one consistent answer per question; `Lookup` and `Subjects` are asked one request at a time.
- `slices.SortFunc` and `slices.BinarySearchFunc`: `Entries.SortItems` and `Merging.BinarySearch` stand in for the library.
- SQL text, pgx, row scanning, pooling and PostgreSQL's own row and table locks: each statement is modelled by its effect.
- Collisions of hashed lock names: a lock is its name.
- Wall-clock time: a prune's `now` and `keep` are any two numbers and marks carry any time, so nothing is claimed about durations.
- `Migrate`, apart from its first mark as the start state; the transport between store and sidecar; the command; benchmarks.
- Bytes outside ASCII: source text is a sequence of characters, and any that starts no lexeme is an error.
- `FormatObjectRef`, `FormatSubjectRef` and `FormatTuple`, which only render ids for messages.
- Dictionaries.Table.Intern: ids are unbounded numbers kept under the limit by the check the code makes, not machine words.
- Replicas.NewReplica: asks for valid tuples, each once, as the central store sends them; `Following.SendsValid` proves that it does.
- Replicas.Replica.Apply: asks for changes of valid tuples, each once, as `Following.DeliversValid` proves they come; the
  replica after a failure is not described, for the store drops it.
- Sidecar.Store.Reset: asks for valid tuples, each once; that a source refused here would be refused under other ids too is not proved.
- Sidecar.Store.Apply: asks for changes of valid tuples, each once, as the delta names them.
- Sidecar.ReplicasAgree: is about answers; one of the two replicas may fail where the other answers.
- Feed.SomeoneIsNotBlocked: shows that locks never stop every transaction at once; it is not a bound on how long one waits.
- Rules.PlainSourceIsTaken: is enough for a source to compile and not needed; with exclusions, or with wildcards beside
  usersets, `Acceptance` says in ids what `Build` asks.
- Acceptance.CombinationSuits: is about operands that are references; nested ones are covered by `RecursionAccepted` and
  by the edges `Builder.CollectEdges` records.
