# semisweet: a verified model of the core

semisweet is a semantic cache. A write (`set`) stores a value under a query, an optional context and a set
of keys; a read (`get`) returns the value of the closest stored query that clears a chain of hard gates. A
daemon answers `set` at once, keeps the value in an in-memory *shadow*, and lets worker threads embed and
commit it later. This project models the Rust core in Dafny and proves what every interleaving, every run
and every input keeps. `dafny verify dfyconfig.toml` checks all of it.

## How the model is laid out

**The write-behind protocol.** `WriteBehind` is a step system: one event is one atomic action of one thread
(shadow insert, push, rollback, `recv`, entering the in-flight guard, prepare, check, put, upsert, cleanup,
leaving, and the four half-steps of a delete), so a sequence of events is an arbitrary interleaving of any
number of handlers and workers, and every prefix of it is a crash point. An `Arc` is its allocation token.
`Phases` reads the life of one write off the state, `Ownership` says who owns a shadow and which writes can
commit, `Deletion` when a delete is final, `Drain` covers queue conservation and `is_drained`, `StoreOrder`
the order of the two stores, `Refinement` the plain-map specification. `EndToEnd` composes the protocol with
the semantic cache. `Shadow` and `Daemon` hold the code itself as classes; `Daemon` keeps the history of the
object a run of the step system, so the results about runs apply to it.
`Supervisor` and `Registration` are two more step systems.

**Retrieval and scoring.** `Bm25` is the incremental index, `Bm25Score` its score, `Embeddings` unit vectors,
`VectorStore` filtered top-k search, `Scoring` the gates and the selection, `Retrieval` and `Truncation` the
comparison with brute force, `Cache` lookup and commit, `SelfRetrieval` when a committed entry is found again,
`Siblings` context variants that are not, `Turbopuffer` the filter translation and the fusion of the two legs
of a hybrid query. `Sums` has the sums over sets these need.

**Identity.** `Identity` encodes and decodes the buffer that is hashed into an entry id (the hash is the
name-based UUID of section 5.5 of RFC 9562, an uninterpreted function); `Hex` is the text form of an id.

Scores are exact reals. `ln` is any strictly increasing function with `ln(1) = 0`; the square root, the
tokenizer, the entity ranker, the embedding model, text normalization and the hash are deterministic
functions passed as parameters. Hash maps are walked in no particular order.

## Where the code does less than it says

Each of these is kept as the code has it, shown by a lemma, and bounded by the condition under which the code
does meet its promise.

- **Two workers can lose an update** (`src/daemon/writer.rs:55-60` says "no lost update"). When a newer set
  passes its check while an older one of the same entry has passed its own and not yet put its object, the
  older object can land last: `RivalsLoseUpdate`, `TwoWorkersLoseUpdate`. Without such a rival check the
  shadow over the store is the plain map (`ViewRefinesMap`), and one worker has none (`OneWorkerHasNoRivals`).
- **A refused set drops an earlier accepted one** (`src/daemon/conn.rs:272-280`): it has replaced the shadow
  before the queue refuses it. `RefusedSetDropsAccepted`; `CheckPassesIffUntouched` is the exact condition.
- **`is_drained` has a gap** between `recv` and the guard (`src/daemon/writer.rs:100-101`): `DrainedMeans`
  says what it does imply, `DrainedGap` that the gap is reachable.
- **An idle exit can drop a client**, since the guard of `select!` is evaluated once per entry
  (`src/daemon/supervisor.rs:101`): exactly those whose connect, and not disconnect, is still in the channel
  (`IdleExitDropsIff`, `IdleExitCanDropClient`).
- **A delete can be undone** by a write that has passed its check (`src/daemon/writer.rs:58` says "no
  resurrected delete", `src/daemon/conn.rs:302-304` admits it), and only then: `DeleteFinalIff`.
- **A commit that overlaps a delete can leave a dangling index entry**: `OverlapCanDangle`; without an
  overlap it never does (`NoDanglingIndex`).
- **An exact context can miss its own gate**: with no repeated term it clears 0.10 if and only if it is at
  most 29/3 of the average length (`SelfClearsGate`, `LongContextMissesGate`).
- **Truncation loses hits** unless the store's filter decides: from six query entities on, with the entity
  filter off, and under every positive context gate that can be cleared at all, which is the default mode
  (`LosslessIff`, `LosslessIffLowGate`, `TruncationLoses`).
- **A lookup can miss the entry just written.** Fast extraction may find nothing in the query where full
  extraction does (`EmptyFastMisses`), and entries of the same query and vector that fail a gate may take
  every place: eleven context variants hide each other under the default configuration
  (`VariantsHideEachOther`). `FoundIff` is the exact condition.
- **A context-less upsert over an indexed id keeps stale statistics**; derived ids rule it out:
  `UpsertKeepsIndexIff`, `RunKeepsIndex`.
- **Fusion and the dense leg differ at a dense floor of 0**: `FusionAgreesIff`.
- **`from_hex` accepts more than one text per id** (upper case, and a plus sign in a pair): `HexCanonicalIff`.

## Model

| member | source | states |
|---|---|---|
| `Refinement.ViewRefinesMap` | src/daemon/writer.rs:46-80 | over every interleaving without deletes, refusals, failures or rival checks, "shadow, else the object the index leads to" equals the map updated by each set; at quiescence the shadow is empty, the objects are the map and the index holds exactly its entries |
| `Refinement.ReadIsLinearizable` | src/daemon/conn.rs:219-237 | a get that missed the shadow, then reads the index, then the object, whatever commits meanwhile, answers with a value the map held at some moment since the miss; an entry found in the index has its object |
| `Refinement.OneWorkerHasNoRivals` | src/daemon/writer.rs:93-111 | with one worker no check is a rival check, so the refinement holds of every smooth run |
| `Refinement.RivalsLoseUpdate` | src/daemon/writer.rs:61-76 | every reachable rival check can be continued to a state where a get sees the older value |
| `Refinement.TwoWorkersLoseUpdate` | src/daemon/writer.rs:55-76 | for every capacity and every worker count from two on, a run ends with a get that sees the older of two accepted sets |
| `Refinement.ShadowIsLatest` | src/daemon/state.rs:29-32 | in every such run, rivals or not, a shadow holds the latest set of its entry |
| `Refinement.InvAlong` | src/daemon/writer.rs:46-80 | the inductive invariant behind the refinement holds in every state reached without a rival check |
| `Ownership.SupersededNeverCommits` | src/daemon/writer.rs:55-69 | once a later set or delete touches the slot before the check, the write never puts, indexes or ends as committed, for any number of workers |
| `Ownership.CheckPassesIffUntouched` | src/daemon/state.rs:38-46 | the `holds` check passes if and only if no set (accepted or refused) and no delete of the entry came after the write's own insert |
| `Ownership.OwnedAlong` | src/daemon/state.rs:17-67 | in every reachable state each shadow belongs to a handler, a queued job, a job before its cleanup, or a job whose prepare failed |
| `Ownership.QuiescentShadow` | src/daemon/writer.rs:46-54 | at rest only failed prepares leave shadows; without prepare failures the buffer is empty |
| `Ownership.ShadowChangesOnlyBy` | src/daemon/state.rs:28-67 | a shadow disappears or changes only by a set or delete of its entry or by the rollback or cleanup of the very write it holds |
| `Ownership.PlacedAlong` | src/daemon/writer.rs:92-122 | in every reachable state each write is in exactly one place, and none is lost |
| `Phases.PhaseStep` | src/daemon/writer.rs:46-80 | every event moves the write it acts for to the next phase of its life and leaves every other write where it was |
| `Drain.AcceptedConserved` | src/daemon/writer.rs:92-116 | accepted = queued + held by workers + ended, as sets and in number; the queue never exceeds its capacity |
| `Drain.CounterExact` | src/daemon/writer.rs:18-33 | the in-flight counter is the number of workers inside the guard |
| `Drain.DrainedMeans` | src/daemon/writer.rs:118-122 | when the two reads of `is_drained` succeed, every write accepted before is ended or between `recv` and the guard |
| `Drain.DrainedGap` | src/daemon/writer.rs:100-101 | for every capacity and worker count the gap is reached |
| `Drain.RefusedSetDropsAccepted` | src/daemon/conn.rs:258-281 | from any reachable full queue a refused set leaves a queued accepted write without shadow and unable to commit |
| `StoreOrder.NoDanglingIndex` | src/cache.rs:130-149 | at every half-step, failures and interruptions included, each indexed id has an object as long as no commit overlaps a delete of the same entry |
| `StoreOrder.OverlapCanDangle` | src/cache.rs:130-149 | every overlap can be continued to an index entry without object |
| `Deletion.DeleteFinalIff` | src/daemon/writer.rs:55-69 | in every continuation without a new set of the entry a delete keeps it unwritten, if and only if no worker is between its check and its upsert for that entry when the shadow is dropped |
| `Deletion.DeleteIsFinal` | src/daemon/conn.rs:299-309 | then no put or upsert of the entry follows, at any distance |
| `Deletion.DeleteUndone` | src/daemon/conn.rs:299-304 | otherwise two steps of that worker index the entry again |
| `Deletion.DeletedIsInvisible` | src/daemon/conn.rs:299-319 | a delete with no commit of the entry under way that unindexes it makes it invisible to every get until it is set again |
| `EndToEnd.AtRestFinds` | src/cache.rs:86-96 | a daemon at rest answers a get of set parts with the latest value set for a hit of dense score 1, and for those very parts unless another stored entry has the same vector, under the hypotheses of `CommittedIsFound` |
| `EndToEnd.IndexedIsFound` | src/cache.rs:60-84 | at every step of every run, deletes, refusals and failures included, parts whose slot is indexed are found with dense score 1 under the hypotheses of `CommittedIsFound` |
| `EndToEnd.IndexedIsStored` | src/cache.rs:112-133 | an indexed slot is stored, under its derived id, as the prepared entry of its parts |
| `EndToEnd.HitHasObject` | src/cache.rs:86-96 | in every run in which no commit overlaps a delete of the same entry, every hit of every lookup has its object |
| `EndToEnd.MirrorsAlong` | src/cache.rs:130-149 | at every step of every run, deletes, refusals and failures included, the vector store of a namespace holds exactly the slots the protocol has indexed, each as the entry of known parts |
| `Daemon.Server.HandleSet` | src/daemon/conn.rs:240-282 | accepted exactly when the queue has room; its effect is insert then push, and rollback of its own token when refused; the value is visible at once |
| `Daemon.Server.HandleGet` | src/daemon/conn.rs:219-237 | the shadow's value if any, else the object of the entry if the index has it |
| `Daemon.Server.RunNext` | src/daemon/writer.rs:99-104 | takes the oldest job, ends it with the outcome its answers and the check determine, updates shadow, objects and index accordingly, and restores the counter |
| `Daemon.Server.RunJob` | src/daemon/writer.rs:46-80 | prepare failure keeps the shadow, a failed check changes nothing, otherwise commit and conditional cleanup |
| `Daemon.Server.HandleDel` | src/daemon/conn.rs:284-319 | drops the shadow, then index, then object; an error when the lookup or a store fails, else a deletion exactly when the shadow or a match was there |
| `Daemon.WriteQueue.TryPush` | src/daemon/writer.rs:113-116 | appends exactly when below capacity, else changes nothing |
| `Shadow.PendingWrites.Insert` | src/daemon/state.rs:29-32 | replaces whatever the slot held, and no other slot |
| `Shadow.PendingWrites.Remove` | src/daemon/state.rs:48-52 | empties the slot and says whether it was full |
| `Shadow.PendingWrites.RemoveIfHeld` | src/daemon/state.rs:54-67 | empties the slot only if it holds this allocation, and says so |
| `Supervisor.CountNeverUnderflows` | src/daemon/supervisor.rs:33-55 | over every interleaving the count is the number of connections connected and not disconnected, and is positive whenever a disconnect is processed |
| `Supervisor.IdleExitIff` | src/daemon/supervisor.rs:70-107 | an idle exit can be taken exactly with no counted client, the queue drained when the loop last evaluated its guard, and the idle period over since the count last dropped to zero, or startup |
| `Supervisor.GuardExact` | src/daemon/supervisor.rs:91-103 | every turn of the loop evaluates the guard anew, and the timer restarts when the count drops to zero and at no other time |
| `Supervisor.IdleExitIsIdle` | src/daemon/supervisor.rs:91-103 | at an idle exit no state of the last idle period counted a client |
| `Supervisor.IdleExitDropsIff` | src/daemon/supervisor.rs:91-103 | the clients an idle exit drops are exactly those whose connect, and not disconnect, is still in the channel |
| `Supervisor.IdleExitCanDropClient` | src/daemon/supervisor.rs:71-103 | a client accepted by the loop turn that armed the timer finishes its handshake and is dropped |
| `Supervisor.PairedAlong` | src/daemon/conn.rs:32-69 | each connection sends connect once and then disconnect once, and the channel keeps that order |
| `Supervisor.Clients.Disconnected` | src/daemon/supervisor.rs:46-50 | one less, idle exactly at zero; needs a counted client |
| `Registration.BuildsNeverOverlap` | src/daemon/conn.rs:157-202 | no two requests for one name are between lock and return at once |
| `Registration.EntryNeverReplaced` | src/daemon/state.rs:101-116 | a registered entry stays the same for the rest of the run |
| `Registration.EntryWasBuilt` | src/daemon/conn.rs:183-195 | the entry a name leads to is the one an earlier successful build of a request for that name produced |
| `Registration.InsertRegistersBuilt` | src/daemon/conn.rs:188-195 | an insert registers, under the request's own name, the entry this request built |
| `Registration.BuildWasResolved` | src/daemon/conn.rs:170-182 | only a request whose config parsed and which found its name unregistered builds |
| `Registration.EntriesDistinct` | src/daemon/state.rs:109-116 | two names never lead to the same entry |
| `Registration.ReleasedAlong` | src/daemon/conn.rs:165-174 | a held lock is held by a request still inside; one that has returned, with any outcome, holds none |
| `Registration.RegistrationCompletes` | src/daemon/conn.rs:157-202 | while nobody is inside for its name, a new request that parses and builds registers a fresh entry |
| `Registration.InsertedAtMostOnce` | src/daemon/conn.rs:157-202 | a whole run inserts each name at most once |
| `Registration.LockedAlong` | src/daemon/state.rs:118-131 | one lock per name, held by the one request inside; a request past its resolve has found the name free |
| `Bm25.Index.Insert` | src/backends/vector_memory.rs:53-68 | the five statistics equal a from-scratch computation over the documents with this one replaced |
| `Bm25.Index.Remove` | src/backends/vector_memory.rs:70-86 | the same without the document; an unknown id changes nothing |
| `Bm25.TermPositive` | src/backends/vector_memory.rs:74-85 | the counts a removal decrements are positive, so none underflows |
| `Bm25.CountTerms` | src/backends/vector_memory.rs:55-60 | each token's multiplicity, and the length |
| `VectorStore.UpsertKeepsIndexIff` | src/backends/vector_memory.rs:25-29 | an upsert keeps index documents equal to stored contexts if and only if it is not context-less over an indexed id |
| `VectorStore.RunKeepsIndex` | src/backends/vector_memory.rs:147-173 | after any run of upserts and deletes with derived, collision-free ids the indexed documents are exactly the stored contexts |
| `VectorStore.NamespaceStore.Upsert` | src/backends/vector_memory.rs:147-173 | the first upsert fixes the dimension; another dimension is an error that changes nothing; entry and context are stored together |
| `VectorStore.NamespaceStore.Delete` | src/backends/vector_memory.rs:224-231 | entry and document go together; an absent namespace is left absent |
| `VectorStore.NamespaceStore.Search` | src/backends/vector_memory.rs:175-222 | the best top-k of all matching entries in descending dense order, each with exact scores; wrong dimension is an error, no shard no hits |
| `Bm25Score.ScoreClosedForm` | src/backends/vector_memory.rs:93-126 | the score is the sum of w·tf/(tf + 0.3 + 0.9·length/average) over the sum of w, with w = ln((n + 1)/(df + 0.5)), n the number of documents and df of those with the term |
| `Bm25Score.ScoreOfNothing` | src/backends/vector_memory.rs:94-99 | an unindexed document, or a query without terms, scores 0 |
| `Bm25Score.ComputeScore` | src/backends/vector_memory.rs:93-126 | the loop computes that score from the maintained statistics, in any term order, never dividing by zero |
| `Bm25Score.ScoreIsRatio` | src/backends/vector_memory.rs:102-118 | the upper bound is positive and the ratio, below 1, needs no clamp |
| `Bm25Score.ScoreRange` | src/backends/vector_memory.rs:88-119 | the score is at least 0 and below 1, and positive if and only if document and query share a term |
| `Bm25Score.IdfRarer` | src/backends/vector_memory.rs:121-126 | of two terms the one in fewer documents weighs more |
| `Bm25Score.SelfScore` | src/backends/vector_memory.rs:93-126 | a context against itself scores at least 1/(1.3 + 0.9·length/average), exactly that without repeated terms |
| `Bm25Score.SelfClearsGate` | src/backends/vector_memory.rs:93-126 | it clears 0.10 up to 29/3 of the average length, only up to there when no term repeats, and always with at most nine documents |
| `Bm25Score.LongContextMissesGate` | src/scoring.rs:91-97 | longer contexts among short ones fail against themselves |
| `Embeddings.New` | src/newtype.rs:143-159 | in place: unit length and parallel to the input, or unchanged with an error |
| `Embeddings.RejectionMeans` | src/newtype.rs:143-154 | an embedding exactly when nonempty, finite, and of a positive sum of squares up to the largest `f32`; which of the empty, non-finite and zero errors otherwise |
| `Embeddings.DotProduct` | src/newtype.rs:169-182 | the inner product, or a dimension error |
| `Embeddings.UnitDot` | src/newtype.rs:142-182 | cosine is at most 1, and 1 exactly for equal vectors |
| `Scoring.ToConfigInverts` | src/registry.rs:141-185 | accepted descriptions are exactly those of valid configurations, unchanged |
| `Scoring.FirstFailureWins` | src/registry.rs:141-176 | a rejected one gets the error of the first check it fails |
| `Scoring.DefaultMeans` | src/scoring.rs:30-68 | the defaults: 0.92 without a context, 0.10 of context match and 0.88 with one, ten places |
| `Scoring.SelectionMeans` | src/scoring.rs:70-125 | exactly the first of the hits of highest dense score that share at least one and a third of the query's entities and reach the context gate and lower floor, or the full floor without an applicable context; none exactly when no hit does |
| `Scoring.AcceptMeans` | src/scoring.rs:78-101 | a hit is accepted exactly under those conditions |
| `Scoring.Select` | src/scoring.rs:103-125 | the loop computes that selection |
| `Scoring.SelectionUnique` | src/scoring.rs:103-125 | that determines the result |
| `Retrieval.WinnerIsOptimal` | src/backends/vector_memory.rs:198-221 | a hit has the caller's keys and passes the gates, and no stored entry that does beats it; a miss is exact when the entries with the caller's keys fit into top-k |
| `Retrieval.FilterIsSound` | src/cache.rs:68-76 | the filter of a lookup passes every acceptable entry, and no entry without the caller's keys |
| `Retrieval.TruncationIsLossless` | src/cache.rs:60-84 | where the filter decides (entity filter on or no entities, fewer than six of them, no positive context gate), hit or miss and winning score equal brute force for every top-k from 1 on |
| `Truncation.LosslessIff` | src/cache.rs:60-84 | top-k then gates equals brute force on every store and query vector if and only if the filter decides, or no stored context can clear the context gate |
| `Truncation.LosslessIffLowGate` | src/scoring.rs:78-101 | for gates up to 5/11, the default among them: if and only if the filter decides, or a positive gate applies to a query context without words |
| `Truncation.TruncationLoses` | src/backends/vector_memory.rs:198-221 | in every other case each top-k has a store where a lookup misses an acceptable entry, in every order of ties when the floor is below 1 |
| `Truncation.NotClearable` | src/backends/vector_memory.rs:93-119 | no context clears a gate of 1, and one without words clears no positive gate |
| `Truncation.RepeatsClear` | src/backends/vector_memory.rs:93-119 | a stored text that repeats every query word at least k times puts every gate up to k/(k + 1.2) in reach |
| `Truncation.LosslessIffRepeated` | src/cache.rs:60-84 | given such a text for the configured gate, lossless if and only if the filter decides |
| `Retrieval.FilterIsGate` | src/scoring.rs:84-100 | where the filter decides, an entry is acceptable exactly when it matches and reaches the dense floor |
| `Cache.KeywordsFast` | src/backends/entity_keyword.rs:37-48 | fast extraction is part of the full one, at most five, and empty only if the full one is when no keyword is blank |
| `Cache.KeywordsMean` | src/backends/entity_keyword.rs:37-48 | the normalized keywords among the first five of the ranking in fast mode, the first twenty in full mode |
| `SelfRetrieval.KeywordFits` | src/backends/entity_keyword.rs:37-48 | the keyword backend meets every extractor hypothesis used below, and finds fewer than six entities in fast mode |
| `SelfRetrieval.KeywordLookupIsBruteForce` | src/cache.rs:60-84 | with it a lookup without context gate is a brute-force search for every top-k |
| `SelfRetrieval.KeywordCommittedIsFound` | src/cache.rs:45-84 | with it a committed entry is found: always without a context gate, with one when it is cleared and fewer than top-k entries are blocked |
| `Cache.FoundMeans` | src/cache.rs:60-84 | a hit is that of a stored entry with every key asked for, with its cosine, context score, entities and context, and qualifies for the entities of fast extraction; no such entry has a higher dense score |
| `Cache.MissMeans` | src/cache.rs:60-84 | with room for every entry that has the keys, a miss means that none of them qualifies |
| `Cache.NamespaceCache.FindMatch` | src/cache.rs:60-84 | every outcome: backend errors in order, dimension error, empty namespace, or such a hit or miss |
| `Cache.NamespaceCache.Get` | src/cache.rs:86-96 | the object of the found hit, or the error of the lookup or of the object store |
| `Cache.PreparedMeans` | src/cache.rs:112-127 | a prepared entry carries the parts, the embedding of the query and the entities of full extraction under the derived id, and nothing else is prepared |
| `Cache.EntitiesMean` | src/cache.rs:45-58 | entities are those of the query, or of the context when the query has none, in one mode throughout |
| `Cache.NamespaceCache.Prepare` | src/cache.rs:112-127 | the prepared entry, or the first error |
| `Cache.NamespaceCache.Commit` | src/cache.rs:130-133 | object first: a failed put changes nothing, a rejected entry leaves its object behind, otherwise both are stored |
| `Cache.NamespaceCache.Delete` | src/cache.rs:135-149 | removes the entry, then the object, of the hit found; a failing vector store keeps both, a failing object store keeps the object; nothing changes on a miss or error |
| `SelfRetrieval.FoundIff` | src/cache.rs:45-84 | looking parts up finds a hit of dense score 1, in every order of ties, if and only if some entry of that vector passes filter and gates and fewer than top-k of them pass the filter and fail a gate |
| `SelfRetrieval.GatedFoundIff` | src/scoring.rs:78-101 | for a stored entry that clears both gates, if and only if fewer than top-k entries of its vector are so blocked |
| `SelfRetrieval.CommittedIsFound` | src/cache.rs:45-84 | a committed entry is found by its own parts with dense score 1, given fast within full extraction, the context gate cleared or not applied, and fewer than top-k blocked entries |
| `SelfRetrieval.RoomUnblocks` | src/backends/vector_memory.rs:219-220 | room for every matching entry is enough |
| `SelfRetrieval.FilterUnblocks` | src/cache.rs:68-76 | where the filter decides, nothing is blocked |
| `Siblings.VariantsHideEachOther` | src/newtype.rs:189-194 | from eleven one-word context variants of a query on, under the default configuration, each is acceptable to its own lookup and each lookup can miss |
| `SelfRetrieval.OwnCandidate` | src/scoring.rs:78-101 | an entry is acceptable to its own lookup if and only if it clears the entity gate and the context gate |
| `SelfRetrieval.GatesNecessary` | src/scoring.rs:78-101 | an entry that answers its own lookup has cleared both gates |
| `SelfRetrieval.WriteThenFind` | src/cache.rs:98-107 | after any run of upserts and deletes and under any valid configuration, the write just committed is found with dense score 1 if its context gate is cleared and fewer than top-k entries are blocked |
| `SelfRetrieval.WriteThenFindShort` | src/scoring.rs:91-97 | the gate is cleared by every context up to 29/3 of the average length, for gates up to 0.10 |
| `SelfRetrieval.SmallNamespaceFinds` | src/scoring.rs:57-68 | under the default configuration, in a namespace of at most nine entries, it is found without gate or room assumption |
| `SelfRetrieval.EmptyFastMisses` | src/cache.rs:45-58 | if fast mode may be empty where full mode is not, a lookup misses the entry just written |
| `Turbopuffer.FilterToTp` | src/backends/vector_turbopuffer.rs:289-314 | the tree, or no tree, keeps exactly the entries the in-memory filter keeps |
| `Turbopuffer.FusionFromRows` | src/backends/vector_turbopuffer.rs:326-399 | every hit from the raw rows: normalized entities, trimmed context and 1 - distance of the last dense row of its id, else the first BM25 row with dense score 0; sparse score s/(s + 5) of the last BM25 row, else 0 |
| `Turbopuffer.FusionFails` | src/backends/vector_turbopuffer.rs:326-363 | fails exactly with the error of the first bad row, dense rows first |
| `Turbopuffer.RowFails` | src/backends/vector_turbopuffer.rs:326-344 | a row is bad for an unreadable id first, for a blank context second |
| `Turbopuffer.FuseMultiQuery` | src/backends/vector_turbopuffer.rs:350-399 | the loops compute that fusion or that error |
| `Turbopuffer.FusionShape` | src/backends/vector_turbopuffer.rs:346-399 | distinct ids; the dense leg in first-occurrence order, then a BM25-only tail of dense score 0 |
| `Turbopuffer.FusionIds` | src/backends/vector_turbopuffer.rs:346-399 | exactly the ids of the two legs |
| `Turbopuffer.FusionAgreesIff` | src/scoring.rs:78-125 | selecting from the fused list equals selecting from the dense leg on all inputs if and only if the applicable floor is positive or the context gate applies and is 1 |
| `Turbopuffer.SparseBelowOne` | src/backends/vector_turbopuffer.rs:316-318 | looked-up sparse scores are within [0, 1) |
| `Identity.Derive` | src/newtype.rs:195-210 | the id is the hash of the encoding with the keys in order |
| `Identity.LessMeans` | src/newtype.rs:206-208 | the key order is byte-wise: a proper prefix first, else the smaller first differing byte |
| `Identity.DecodeInverts` | src/newtype.rs:189-210 | the decoder returns the parts exactly on their encoding |
| `Identity.EncodeInjective` | src/newtype.rs:189-210 | two triples have the same buffer if and only if they are equal |
| `Identity.DistinctIds` | src/newtype.rs:189-210 | with a collision-free hash, ids agree if and only if the triples do |
| `Hex.FromHex` | src/newtype.rs:212-222 | the id of 32 characters that read pairwise, else none |
| `Hex.PairMeans` | src/newtype.rs:217-220 | a pair reads as two hexadecimal digits, or a plus sign and one, and as nothing else |
| `Hex.DigitMeans` | src/newtype.rs:217-237 | the sixteen digits in either case; the written one is lower case |
| `Hex.Display` | src/newtype.rs:230-237 | two lower-case digits per byte |
| `Hex.HexRoundTrip` | src/newtype.rs:212-237 | every id is read back from its text |
| `Hex.HexCanonicalIff` | src/newtype.rs:212-222 | a readable text is the written form of its id if and only if it has lower-case digits only |

## Left out

- Float rounding: scores are exact reals, non-finite numbers occur only as raw embedding components, and a remote distance of exactly −5 (an infinite quotient) is excluded by type.
- Liveness: the step systems state safety; nothing says that a job is eventually run or that the daemon eventually exits.
- Lock poisoning and thread panics: no error path for them; the drop guards are ordinary steps.
- Semantic matching inside the protocol: the step system reads and writes one exact entry per slot, and a delete's match is an arbitrary indexed entry; `EndToEnd` composes the two at every step, for a lookup that runs without interruption.
- Daemon.Server.HandleGet: looks up the exact entry in index and object store, where the code may find a closer one.
- Daemon.Server.HandleDel: what the lookup finds is a parameter, any indexed entry or a failure.
- Daemon.Server.RunNext: the method runs its steps without interruption; interleaving is the subject of the step system.
- A queue of capacity 0 (a rendezvous channel): the model refuses every push; the daemon uses 1024.
- Handlers, workers, the supervisor's loop and registration are step systems on values, since no single thread's code shows their interleavings; `Daemon`, `Shadow` and `Supervisor.Clients` give the in-place code of each part.
- The map from namespaces to shards: `NamespaceStore` is one namespace; namespaces share nothing in the store.
- Integer widths of the statistics (`u32` lengths, `u64` totals): modelled as unbounded naturals.
- Total number of entries in a store: bounded by the 16-byte ids alone; the number of indexed contexts and top-k are below 2^64.
- The bounded drain loop after the main loop exits: it polls `is_drained` against a clock.
- Python bindings, the decorator layer, the client, the message codec, process spawning and sockets: serialization and operating-system code.
- Embedding and entity models, keyword ranking, S3, compression, disk storage and HTTP requests: foreign code, represented by parameters or maps.
