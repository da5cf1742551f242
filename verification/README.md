# Models and proofs for the graph, messaging, store and promotion cores

This project models five components of the repository in Dafny and proves what they promise.

1. **Entity resolution and communities.** A disjoint-set forest with path compression and union by rank
   (`DisjointSet.dfy`) refines the reflexive, symmetric, transitive closure of the united pairs (`Connectivity.dfy`). On
   it rest the canonical-key election (`EntityResolution.dfy`, `CanonicalKeyLaws.dfy`), the rewrite of nodes, aliases,
   chunks and edges (`NodeMerge.dfy`, `ChunkRewrite.dfy`, `EdgeRewrite.dfy`, `EdgeLaws.dfy`, `Resolver.dfy`,
   `GraphLaws.dfy`) and the communities (`Communities.dfy`, `CommunityResults.dfy`, `CommunityLaws.dfy`,
   `CommunityFields.dfy`). `Text.dfy`, `Sorting.dfy` and `Counting.dfy` hold Go's string order, what `sort.Slice`
   promises, and sums split by class.
2. **The sharded Kafka subscriber.** The assignment table (`Assignment.dfy`), the reorder buffer (`CommitBuffer.dfy`)
   and the runs of its table (`CommitLifetimes.dfy`), and a state machine whose steps are those of the poll loop, the
   shard workers, the commit coordinator and the rebalance callbacks (`Subscriber.dfy`). Each step decides
   (`DecidePoll`, `DecideWork`, `NextCommit`, `NextRebalance`), and one function applies the decision to the shared
   state; `SubscriberSteps.dfy` says of every event what becomes of which field, and `SubscriberDeeds.dfy` what the
   events of a run did to a message. The theorems are about every finite interleaving: `SubscriberAccounting.dfy` and
   `SubscriberLaws.dfy`, from the invariants of `SubscriberCopies.dfy`, `SubscriberReplays.dfy`,
   `SubscriberCommits.dfy`, `SubscriberFencing.dfy`, `SubscriberLifetimes.dfy` and `SubscriberLoss.dfy`;
   `SubscriberOvertake.dfy` builds one run.
3. **The transactional outbox.** The table and its statements (`Outbox.dfy`), any number of relays with failures,
   crashes and lease expiry (`OutboxProtocol.dfy`, `OutboxLaws.dfy`, `OutboxRepublish.dfy`), one batch and the one-slot
   wakeups (`Relay.dfy`), and the transaction runner with its retries and the unit of work with its after-commit signal
   (`Transactions.dfy`).
4. **The served-model store** (`ServedModel.dfy`) and its watch (`ServedModelWatch.dfy`).
5. **The adapter promotion gate** (`Promotion.dfy`, `PromotionLaws.dfy`, `PromotionRuns.dfy`, `PromotionExact.dfy`).
   Each read of a promotion and its final write is a step of its own, since the code reads outside the transaction that
   writes. Thresholds, tolerances and split versions are those the request validation admits
   (agent_registry_dto_adapter.go:86-94, 122-139).

Classes stand for what the source updates in place: `DisjointSet`, `Snapshot`, `PartitionAssignment`, `CommitTable`,
`Outbox.Table`, `Database`, `Store`, `Registry`. Their methods state the new state outright and as a function of the old
state, and the laws are proved about that function. Similarity of entities, hashes and identifiers, clocks, brokers and
database failures are parameters or free choices of a step.

Where a stronger statement is false of the code, the code is kept, a lemma shows the input, and the exact condition is
proved for all inputs:

- Two different edge triples can share a NUL-joined key, and the lighter edge is lost (`SeparatorCollision`). The
  rewrite is exact if and only if no two kept edges of different triples share a joined key (`EdgesExactIff`); keys
  without NUL never do (`SeparatorFreeNoCollision`).
- Repeated key-less nodes lose mentions (`KeylessOverwritten`): exactly `LostMentions` of them
  (`RewriteConservesMentions`). The extraction step makes no such nodes (graph_materialization_usecase.go:381-383).
- A token older than a rebalance is current again after exactly a multiple of 2^64 rebalances (`OldTokenCurrentIff`,
  `WrappedTokenCurrent`).
- The commit state is deleted when its buffer empties, so 7 can be committed while 6 runs (`EarlyDeletionPassesSix`, and
  as a run of the whole subscriber `SevenOvertakesSix`). In every run of the table a completion passes unfinished work
  exactly when a registered offset below the start of its lifetime is unfinished (`PassesUnfinishedIff`,
  `EmitsPastUnfinishedIff`). With offsets polled in order it never happens before a state was deleted with a registered
  offset unfinished (`OnlyEarlyDeletionPasses`), and after such a deletion the next offset does it
  (`DeletionExposesIff`).
- The commit retry loop does not check the assignment again. A message polled before a rebalance can still be committed
  after it exactly when its commit is being retried with attempts left (`LandsAgainIff`, `CommitAfterRevokeReachable`);
  first attempts never land late (`CommitsLandFenced`).
- A row can be published twice (`RepublishedAfterExpiry`): two batches share a row only if a lease ran out between the
  two claims (`SharedOnlyAfterExpiry`), and another publish can follow exactly when the row is not SENT or an unfinished
  batch still has it to publish (`RepublishedIff`).
- A failed read of the outbox uses up its wakeup (`FailedReadLoses`), and a writer that dies before notifying sends none
  (`CrashLosesWakeup`). A commit is left unread until the next notification exactly when no read has started since and
  no token or timer is left (`LostIff`).
- The after-commit signal can be sent although the outbox has no new row (`SignalWithoutRow`): exactly when every key
  the committed attempt enqueued was already in the table (`SignalMeaning`).
- A watcher of one namespace misses a change exactly when its namespace has no record left while others do
  (`NothingMissed`, `LastDeletionMissed`). The version waiting in its channel may be old (`DeliveredVersionMayBeOld`):
  exactly when a later check found the channel full (`WaitingIsOldIff`).
- A status worked out for a deleted record can be accepted by its successor: exactly when the successor's changes have
  brought it to the same generation (`RecreatedAcceptsIff`, `RecreatedAcceptsStaleStatus`).
- A record with an empty name starts at generation 1 on every upsert (`EmptyNameNeverCounts`); for every other name
  generations count the changes (`GenerationCountsChanges`).
- A champion's rates can fall without any tolerance in two ways. Two promotions overlap, both compared with the same old
  champion (`OverlapDrops` from every state with an imperfect champion, `OverlapLosesHalf` from the start; all of the
  gain can be lost exactly when no rate was zero before, `TakesBackIff`); or a champion was promoted on an older report
  than its latest, with which its successor is compared (`OlderReportLosesHalf`). A comparison protects rates for every
  candidate exactly when it was made with rates nowhere below them (`ComparisonProtectsIff`). In every run the fall is
  bounded by the tolerances plus what the comparisons fell short (`FallBounded`); with writes that were compared with
  the champion as it still is, and made on the latest report, by the tolerances alone (`NoRegressionBeyondTolerance`).
  In a reachable state such careful runs keep the rates the champion was promoted on exactly when its latest report is
  nowhere worse (`RuleHoldsIff`).

## Model

| member | source | states |
|---|---|---|
| DisjointSets.DisjointSet.constructor | feature_materializer_service/pkg/app/graph_entity_resolver.go:154-165 | A new forest keeps every point apart: nothing is united. |
| DisjointSets.DisjointSet.Find | feature_materializer_service/pkg/app/graph_entity_resolver.go:167-174 | Returns the point's root, makes it the parent, and changes neither any root nor what is united; the recursion ends because rank grows towards the root. |
| DisjointSets.DisjointSet.Union | feature_materializer_service/pkg/app/graph_entity_resolver.go:176-194 | Adds exactly the pair to what is united, keeps the forest sound, and hangs the root of smaller rank under the other, on a tie the right one under the left one, whose rank grows; points of one tree change nothing. |
| DisjointSets.DisjointSet.RootsAreComponents | feature_materializer_service/pkg/app/graph_entity_resolver.go:149-194 | After any mix of unions and finds two points have the same root exactly when the united pairs connect them. |
| DisjointSets.SameRootIffConnected | feature_materializer_service/pkg/app/graph_entity_resolver.go:149-194 | The same for any sound forest as a value. |
| DisjointSets.CompressedSound | feature_materializer_service/pkg/app/graph_entity_resolver.go:170-173 | Path compression changes no root and keeps ranks, sizes and classes. |
| DisjointSets.HungSound | feature_materializer_service/pkg/app/graph_entity_resolver.go:184-193 | Hanging one root under another of no smaller rank, with a tie raising the rank, represents exactly one more pair. |
| DisjointSets.LogarithmicDepth | feature_materializer_service/pkg/app/graph_entity_resolver.go:167-194 | A root of rank r has at least 2^r members, so rank and the depth of find's recursion are at most the logarithm of the size. |
| EntityResolution.PrefersTotal | feature_materializer_service/pkg/app/graph_entity_resolver.go:196-211 | The election order is irreflexive and asymmetric, and total on different keys. |
| EntityResolution.PrefersTrans | feature_materializer_service/pkg/app/graph_entity_resolver.go:196-211 | The election order is transitive. |
| EntityResolution.Cluster | feature_materializer_service/pkg/app/graph_entity_resolver.go:101-120 | The double loop unites exactly the keyed, same-type, above-threshold pairs, so roots tell linked from unlinked entities. |
| EntityResolution.Elect | feature_materializer_service/pkg/app/graph_entity_resolver.go:122-132 | The table holds for every root a member no other member is ahead of, by mentions, then by having a name, then by the smaller key. |
| EntityResolution.CanonicalEntityKeys | feature_materializer_service/pkg/app/graph_entity_resolver.go:98-147 | Every non-empty key, and no other, is mapped to the key of such a member of its cluster (of its last node, should a key repeat). |
| CanonicalKeyLaws.SameCanonicalIffLinked | feature_materializer_service/pkg/app/graph_entity_resolver.go:98-147 | Two keys get the same canonical key exactly when a chain of similar pairs links them. |
| CanonicalKeyLaws.SameCanonicalIffChain | feature_materializer_service/pkg/app/graph_entity_resolver.go:101-147 | In terms of nodes and vectors: exactly when a chain of nodes leads from one to the other, neighbours having one normalised type, comparable vectors, and a dot product of at least the threshold. |
| CanonicalKeyLaws.CanonicalLeads | feature_materializer_service/pkg/app/graph_entity_resolver.go:196-211 | The node behind a canonical key is mentioned at least as often as any linked node; of those as often mentioned it has a name if any has; and of those with equally blank names it has the smallest key. |
| CanonicalKeyLaws.CanonicalIdempotent | feature_materializer_service/pkg/app/graph_entity_resolver.go:134-147 | Canonical keys are mapped, and mapped to themselves. |
| CanonicalKeyLaws.OrderIndependent | feature_materializer_service/pkg/app/graph_entity_resolver.go:74-147 | The map depends on the set of entities, not on the order they are listed in. |
| NodeMerge.MergeNodes | feature_materializer_service/pkg/app/graph_entity_resolver.go:223-240 | The loop computes the merged node of every canonical key. |
| NodeMerge.MergedMeaning | feature_materializer_service/pkg/app/graph_entity_resolver.go:216-240 | Merged nodes are the image of the canonical map; each has its cluster's mentions, its canonical node's name and type, and the first usable description. |
| GraphLaws.NodeFields | feature_materializer_service/pkg/app/graph_entity_resolver.go:216-240 | An output node has the name and type of the last input node of its key, the sum of the mentions of all nodes that resolve to it, and its own description or else the first usable one of those nodes, trimmed; none only if none has one. |
| GraphLaws.NodeKept | feature_materializer_service/pkg/app/graph_entity_resolver.go:226-240 | Every input node resolves to an output node, under its canonical key or its own. |
| NodeMerge.MentionsConserved | feature_materializer_service/pkg/app/graph_entity_resolver.go:226-240 | Output mentions are the input mentions minus exactly those of key-less nodes that a later key-less node overwrote. |
| NodeMerge.KeylessOverwritten | feature_materializer_service/pkg/app/graph_entity_resolver.go:231-234 | Of two key-less nodes the second one overwrites the first one's mentions. |
| ChunkRewrite.ChunkKeyInjective | feature_materializer_service/pkg/app/graph_entity_resolver.go:311 | The joined chunk key is unambiguous for every entity key, because record identifiers have a fixed length. |
| ChunkRewrite.ResolvedNodeChunks | feature_materializer_service/pkg/app/graph_entity_resolver.go:300-325 | The result is the kept chunks in (canonical key, chunk index) order. |
| ChunkRewrite.ChunksAreImage | feature_materializer_service/pkg/app/graph_entity_resolver.go:303-317 | The result holds once exactly the first usable input chunk of each (canonical key, record) pair. |
| GraphLaws.ChunkFields | feature_materializer_service/pkg/app/graph_entity_resolver.go:303-317 | An output chunk is the first input chunk of its record and canonical key, with its index and text unchanged. |
| GraphLaws.ChunkKept | feature_materializer_service/pkg/app/graph_entity_resolver.go:303-317 | Every such chunk with a non-empty canonical key is in the output. |
| EdgeRewrite.GroupedMeaning | feature_materializer_service/pkg/app/graph_entity_resolver.go:330-354 | A group holds a heaviest of its kept edges, and every kept edge has a group. |
| EdgeRewrite.ResolvedEdges | feature_materializer_service/pkg/app/graph_entity_resolver.go:327-369 | The result lists exactly the groups, strictly sorted by triple, whatever order the map is read in. |
| EdgeLaws.EdgeFields | feature_materializer_service/pkg/app/graph_entity_resolver.go:330-354 | Each output edge is an input edge, of its weight, with source and target each replaced by its own canonical key where there is one, its relation trimmed or RELATED_TO, and two different non-empty endpoints. |
| EdgeLaws.EdgeKept | feature_materializer_service/pkg/app/graph_entity_resolver.go:330-354 | Conversely, with separator-free keys every input edge whose endpoints end up non-empty and different is in the output, at no smaller weight. |
| EdgeLaws.GroupDescribed | feature_materializer_service/pkg/app/graph_entity_resolver.go:344-354 | A group keeps its first heaviest edge; where that has no description it takes the first usable one of a later edge of the group, trimmed. |
| EdgeLaws.EdgesExactIff | feature_materializer_service/pkg/app/graph_entity_resolver.go:327-369 | For all inputs: every non-loop image has its triple in the output if and only if no two kept edges of different triples share a joined key. |
| EdgeLaws.SeparatorFreeNoCollision | feature_materializer_service/pkg/app/graph_entity_resolver.go:343 | Canonical keys free of the separator meet that condition. |
| EdgeLaws.JoinKeyInjective | feature_materializer_service/pkg/app/graph_entity_resolver.go:343 | Keys free of the separator join unambiguously. |
| EdgeLaws.SeparatorCollision | feature_materializer_service/pkg/app/graph_entity_resolver.go:343-348 | Two triples with the separator inside share a joined key and the lighter edge's triple is lost. |
| Resolver.ResolveMaterialization | feature_materializer_service/pkg/app/graph_entity_resolver.go:213-275 | Nodes, aliases, chunks and edges are rewritten and sorted, and the counters of the shared snapshot are overwritten. |
| Resolver.ResolveGraphEntities | feature_materializer_service/pkg/app/graph_entity_resolver.go:51-96 | An empty graph is returned with aliases cleared; otherwise the nodes are sorted, canonicalised and rewritten. |
| Resolver.RewriteConservesMentions | feature_materializer_service/pkg/app/graph_entity_resolver.go:213-275 | Total mentions are unchanged for distinct keys; for all inputs only those of overwritten key-less nodes are lost. |
| Resolver.OneAliasEach | feature_materializer_service/pkg/app/graph_entity_resolver.go:242-251 | Every input node has exactly one alias. |
| GraphLaws.AliasFields | feature_materializer_service/pkg/app/graph_entity_resolver.go:242-251 | The aliases are the nodes' own, counted with repetition: source key, name and type of the node, and the canonical key it resolves to. |
| Resolver.AliasTargetIsOutput | feature_materializer_service/pkg/app/graph_entity_resolver.go:242-264 | A key is an output node exactly when some alias points at it. |
| Resolver.OutputKeysAreImage | feature_materializer_service/pkg/app/graph_entity_resolver.go:254-267 | Output keys are exactly the image of the canonical map. |
| Resolver.OutputKeysDistinct | feature_materializer_service/pkg/app/graph_entity_resolver.go:254-267 | No two output nodes share a key, whatever the input; the community builder gets these nodes. |
| GraphLaws.OutputOrder | feature_materializer_service/pkg/app/graph_entity_resolver.go:252-376 | Nodes come by key, aliases by canonical and source key, chunks by key and index, edges by source, target and relation; no two nodes and no two edges tie. |
| Resolver.ResolutionIgnoresNodeOrder | feature_materializer_service/pkg/app/graph_entity_resolver.go:74-95 | Reordering distinct nodes changes neither the canonical map nor the resolved nodes, edges and aliases. |
| Communities.CommunityKeyInjective | feature_materializer_service/pkg/app/graph_community_builder.go:222-229 | Community keys of different positions differ, whatever the entity keys. |
| Communities.Components | feature_materializer_service/pkg/app/graph_community_builder.go:104-112 | Exactly the edges with both endpoints known are united. |
| Communities.CommunityGroups | feature_materializer_service/pkg/app/graph_community_builder.go:204-220 | The groups are the classes of the roots, each in community order, listed by first key, whatever order the map is read in. |
| CommunityResults.FindGroups | feature_materializer_service/pkg/app/graph_community_builder.go:99-119 | The groups are exactly the connected components over edges with both endpoints known. |
| CommunityResults.CountEdges | feature_materializer_service/pkg/app/graph_community_builder.go:130-138 | Each community's count is the number of edges labelled with it at both ends. |
| CommunityResults.WithCommunities | feature_materializer_service/pkg/app/graph_community_builder.go:91-202 | Communities, members and counts describe the components; an empty graph is returned as it is. |
| CommunityLaws.CommunityKeysDistinct | feature_materializer_service/pkg/app/graph_community_builder.go:145-168 | No two communities share a key. |
| CommunityFields.CommunityNamed | feature_materializer_service/pkg/app/graph_community_builder.go:145-168 | Community i is numbered i + 1 and named after its most mentioned node, of those the one with the smallest key; communities come in the order of those keys. |
| CommunityFields.CommunityCounts | feature_materializer_service/pkg/app/graph_community_builder.go:130-168 | Its counts are those of its lines in the membership list, and of the edges both of whose endpoints are in that list under its key. |
| CommunityFields.MembersInOrder | feature_materializer_service/pkg/app/graph_community_builder.go:169-220 | The membership list goes community by community, in each by falling mentions and then by key. |
| CommunityLaws.SameCommunityIffConnected | feature_materializer_service/pkg/app/graph_community_builder.go:169-178 | Two entities are listed under one community exactly when known edges connect them. |
| CommunityFields.SameCommunityIffChain | feature_materializer_service/pkg/app/graph_community_builder.go:99-178 | In terms of nodes and edges: exactly when a chain of edges, each between keys of nodes, leads from one to the other. |
| CommunityLaws.OneCommunityEach | feature_materializer_service/pkg/app/graph_community_builder.go:169-178 | Every node is a member of exactly one community. |
| CommunityLaws.EntityCountsSum | feature_materializer_service/pkg/app/graph_community_builder.go:165 | Entity counts sum to the number of nodes. |
| CommunityLaws.EdgeCountsSum | feature_materializer_service/pkg/app/graph_community_builder.go:130-138 | Edge counts sum to the number of edges with both endpoints known. |
| CommunityLaws.PartitionUnique | feature_materializer_service/pkg/app/graph_community_builder.go:204-220 | The list of groups is determined by the graph. |
| CommunityLaws.CommunitiesIgnoreOrder | feature_materializer_service/pkg/app/graph_community_builder.go:91-202 | Communities and members depend on neither node order, edge order nor map iteration order. |
| Assignment.PartitionAssignment.AssignPartitions | shared_lib/messaging/subscriber.go:114-126 | Assigning replaces the table under the next generation. |
| Assignment.PartitionAssignment.RevokeAllPartitions | shared_lib/messaging/subscriber.go:128-139 | Revoking empties the table, moves the generation, and returns what was assigned. |
| Assignment.PartitionAssignment.TokenOf | shared_lib/messaging/subscriber.go:152-166 | The token carries the partition's generation, or is invalid. |
| Assignment.PartitionAssignment.IsCurrent | shared_lib/messaging/subscriber.go:168-178 | A token is current when it is valid and its generation is the partition's. |
| Assignment.ReachableConsistent | shared_lib/messaging/subscriber.go:102-139 | In every reachable table all entries carry the current generation, which counts rebalances modulo 2^64. |
| Assignment.TokensFollowAssignment | shared_lib/messaging/subscriber.go:114-178 | After an assignment exactly its partitions get valid tokens, exactly those are current, and no other token is; after a revocation no token is, whoever made it. |
| Assignment.OldTokenCurrentIff | shared_lib/messaging/subscriber.go:114-178 | For every run of rebalances: an earlier token is current exactly when its partition is assigned now and the run is a multiple of 2^64 long. |
| Assignment.WrappedTokenCurrent | shared_lib/messaging/subscriber.go:114-178 | A run of 2^64 rebalances makes an old token current again. |
| Assignment.OldTokenStale | shared_lib/messaging/subscriber.go:114-178 | No token issued before a rebalance is current again within the next 2^64 - 1 rebalances. |
| Assignment.CurrentIffSameEpoch | shared_lib/messaging/subscriber.go:114-178 | Below a whole cycle, comparing generations is the same as counting rebalances, as the subscriber model does. |
| CommitBuffer.CommitTable.RegisterInFlight | shared_lib/messaging/subscriber.go:762-776 | A partition without a state gets one starting at the offset; an existing one is kept. |
| CommitBuffer.CommitTable.ReadyToCommit | shared_lib/messaging/subscriber.go:778-815 | The loop returns the drain of the buffer with the request added, deletes an empty state, and does nothing for a stale request. |
| CommitBuffer.CommitTable.ClearPartitions | shared_lib/messaging/subscriber.go:1153-1162 | Exactly the listed partitions lose their states. |
| CommitBuffer.DrainMeaning | shared_lib/messaging/subscriber.go:799-808 | A drain emits the consecutive buffered run from nextOffset, keeps exactly the rest, and stops at a gap. |
| CommitBuffer.SettledMeaning | shared_lib/messaging/subscriber.go:788-812 | A request of the assignment hands on exactly the run it completes, each request under its own offset; what stays waits for the next offset, a state nobody waits in is deleted, and other partitions are left alone. |
| CommitBuffer.LifetimeMeaning | shared_lib/messaging/subscriber.go:788-808 | Over a lifetime the emitted offsets are consecutive from its start without gap or repeat, and completed offsets are the emitted plus the buffered ones. |
| CommitLifetimes.TableGrounded | shared_lib/messaging/subscriber.go:762-815 | In every run of registrations, completions and clears each partition's state is a lifetime started at the first registration or completion that found no state, and everything it emitted or buffers is finished work. |
| CommitLifetimes.TrackMeaning | shared_lib/messaging/subscriber.go:762-815 | The offsets counted as registered and finished are those of the steps since the partition was last cleared. |
| CommitLifetimes.PassesUnfinishedIff | shared_lib/messaging/subscriber.go:788-812 | In every such run a completion commits past unfinished work exactly when a registered offset below the start of its lifetime is unfinished. |
| CommitLifetimes.OnlyEarlyDeletionPasses | shared_lib/messaging/subscriber.go:810-812 | With offsets polled in order, it never does so unless a state of the partition was deleted while a registered offset was unfinished. |
| CommitLifetimes.DeletionExposesIff | shared_lib/messaging/subscriber.go:810-812 | With the state deleted, the next offset polled and finished is committed past unfinished work exactly when some registered offset is unfinished. |
| CommitLifetimes.EarlyDeletionPassesSix | shared_lib/messaging/subscriber.go:810-812 | Registering 5, 6, 7 and finishing 5 deletes the state; finishing 7 then commits 7 while 6 runs. |
| Subscriber.ReleaseBacklogForPartitions | shared_lib/messaging/subscriber.go:1108-1132 | The in-place filter keeps in order exactly the messages of other partitions and releases the others. |
| SubscriberSteps.FilterMeaning | shared_lib/messaging/subscriber.go:1108-1132 | What that keeps, and what it releases, are the items at strictly increasing positions: exactly those of the other partitions, and exactly the rest. |
| SubscriberAccounting.CounterIsInFlight | shared_lib/messaging/subscriber.go:363-485 | In every run the wait-group counter equals prepared message, backlog, shard channels, messages held by workers and replays admitted but not sent; and nothing panics: no send on or second close of a closed channel, no negative counter. |
| SubscriberAccounting.ReleasedExactlyOnce | shared_lib/messaging/subscriber.go:464-485 | In every run each admission is held in one place or has been released once, over dispatch, replay, stale skip, revocation and shutdown. |
| SubscriberAccounting.ClosedMeansAllReleased | shared_lib/messaging/subscriber.go:368-387 | When the channels are closed every admission has been released and nothing is in flight. |
| SubscriberAccounting.ClosedAdmitsNothing | shared_lib/messaging/subscriber.go:1090-1106 | Once admission has stopped, no continuation admits anything, replays included. |
| SubscriberAccounting.StepDelta | shared_lib/messaging/subscriber.go:567-629 | Every step changes the gate and the held admissions by the same amount, for any one admission and for all. |
| SubscriberAccounting.StepAccounted | shared_lib/messaging/subscriber.go:1083-1151 | Every step keeps the accounting invariant. |
| SubscriberCopies.WorkKeeps | shared_lib/messaging/subscriber.go:631-739 | A worker never copies a message and gives up its one copy only by finishing with it unsent. |
| SubscriberCopies.PollKeeps | shared_lib/messaging/subscriber.go:567-629 | The poll loop makes a copy only of the message it has just polled. |
| SubscriberCopies.StepTracked | shared_lib/messaging/subscriber.go:545-565 | Every step keeps messages in the shard of their key, with at most one live copy each. |
| SubscriberLaws.OneLiveCopy | shared_lib/messaging/subscriber.go:545-565 | In every run a polled message has at most one live copy, and none in any other shard: one worker at a time has it. |
| SubscriberLaws.ListenerRunsBounded | shared_lib/messaging/subscriber.go:829-900 | In every run at most four events hand a polled message to its listener, and no replay count exceeds three. |
| SubscriberReplays.ForgetCovers | shared_lib/messaging/subscriber.go:1035-1043 | Forgetting a replay key never uncovers a run of another message that may still run. |
| SubscriberLaws.CommitsAreJustified | shared_lib/messaging/subscriber.go:657-760 | In every run, for every commit that reached the broker some event of the run found no listener for its message, or was its listener returning success or already-processed, or was the dead-letter queue taking it: an invalid message, a non-retryable failure, a panic, or a replay with three counted. |
| SubscriberLaws.VerdictIsFinal | shared_lib/messaging/subscriber.go:657-760 | In every run the first such verdict on a message, or a refusal by the dead-letter queue, is the last: in its epoch it is not polled or started again, and no second verdict is given. |
| SubscriberDeeds.FailureIsReplayed | shared_lib/messaging/subscriber.go:725-900 | After a retryable failure, or one the dead-letter queue refuses, no commit is requested, and the worker's next event, however much later, counts one more replay below three, and otherwise asks the dead-letter queue and commits exactly if that takes the message. |
| SubscriberDeeds.RunNotices | shared_lib/messaging/subscriber.go:657-900 | The history kept in the state holds exactly what the events of the run did, and counts the listener runs. |
| SubscriberLaws.RebalanceFencesRun | shared_lib/messaging/subscriber.go:531-543 | In every run, after a rebalance no listener run, admission, commit check or first commit attempt starts for a message polled before it, buffered commit states included, and no request of it enters one; no event polls it, starts it or offers it to the broker. |
| SubscriberFencing.StaleNeverStarts | shared_lib/messaging/subscriber.go:685-760 | The same from any state. |
| SubscriberFencing.StaleNeverBuffered | shared_lib/messaging/subscriber.go:778-797 | From any state: after a rebalance no commit request of an earlier message enters a commit state. |
| SubscriberFencing.StaleNeverQueued | shared_lib/messaging/subscriber.go:603-616 | After a rebalance no dispatch check lets an earlier message into a shard channel. |
| SubscriberFencing.CommitsLandFenced | shared_lib/messaging/subscriber.go:531-543 | A commit landing on its first attempt lands under its message's assignment; later attempts land there or later, within MaxCommitAttempts. |
| SubscriberFencing.LandsAgainIff | shared_lib/messaging/subscriber.go:981-1010 | After a rebalance some continuation commits a message polled before it if and only if its commit is being retried. |
| SubscriberFencing.CommitAfterRevokeReachable | shared_lib/messaging/subscriber.go:981-1010 | Some run commits an offset of a revoked partition. |
| SubscriberLaws.NoSilentLoss | shared_lib/messaging/subscriber.go:567-900 | In every run a message some event polled under the assignment in force, before cancellation or shutdown, is in flight in one place or being reported, or waits in the commit queue, its commit state or with the coordinator; or some event offered it to the broker or was the dead-letter queue refusing it. |
| SubscriberLaws.ChannelsBounded | shared_lib/messaging/subscriber.go:264-276 | In every run no channel holds more than its capacity, the commit channel no more than all shards' together. |
| SubscriberLaws.WorkersNeverStuck | shared_lib/messaging/subscriber.go:631-760 | A worker that has a message can always take a step, unless the channel it sends to is full. |
| SubscriberLaws.StatesAreLifetimes | shared_lib/messaging/subscriber.go:778-815 | In every run the commit states are a run of the commit table, so each is a lifetime of commit requests collected since the last revocation. |
| SubscriberLaws.EmitsPastUnfinishedIff | shared_lib/messaging/subscriber.go:778-815 | In every run what the coordinator emits passes unfinished work exactly when a registered offset below the start of the lifetime is unfinished, and, polled in order, never before a state of the partition was deleted early. |
| SubscriberOvertake.SevenOvertakesSix | shared_lib/messaging/subscriber.go:810-812 | Whenever 6 and 7 hash to different shards, a run from the start commits 7 while the listener of 6 is still running under the same assignment. |
| SubscriberLoss.DropIsRecorded | shared_lib/messaging/subscriber.go:657-900 | A worker lets go of such a message only after a commit request or a refusal by the dead-letter queue. |
| SubscriberLoss.CollectSafe | shared_lib/messaging/subscriber.go:778-815 | The reorder buffer loses no current commit request. |
| Outbox.Table.WriteMessage | shared_lib/messaging/postgres_outbox.go:130-165 | A new dispatch key adds one PENDING row with the given content, no attempts, due now; a known key adds nothing; a blank key is derived. |
| Outbox.Table.ReadPending | shared_lib/messaging/postgres_outbox.go:167-252 | Claims the oldest unlocked due or expired rows up to the limit for the given owner, token and lease, thirty seconds by default, leaves the others alone, and returns the claimed ones as they were enqueued. |
| Outbox.Table.MarkSent | shared_lib/messaging/postgres_outbox.go:254-282 | Takes effect exactly for a PROCESSING row with the claim's owner and token; otherwise reports an error and changes nothing. |
| Outbox.Table.MarkFailed | shared_lib/messaging/postgres_outbox.go:284-316 | The same, returning the row to PENDING with one more attempt and a new due time. |
| Outbox.SelectOldest | shared_lib/messaging/postgres_outbox.go:192-200 | Picks distinct rows, as many as the limit allows, with no older row left out. |
| Outbox.InsertKeepsUnique | shared_lib/messaging/postgres_outbox.go:146-151 | The table keeps one row per dispatch key. |
| Outbox.EnqueueIdempotent | shared_lib/messaging/postgres_outbox.go:146-151 | Repeating an enqueue leaves the table as it is. |
| OutboxProtocol.StepSound | shared_lib/messaging/outbox_relay.go:82-119 | Every step of every relay keeps the protocol's invariant. |
| OutboxLaws.EffectsPerClaim | shared_lib/messaging/outbox_relay.go:82-107 | In every run a SENT row was published, attempts counts the successful MarkFailed calls, and attempts plus publishes never exceed the row's claims. |
| OutboxLaws.RowsPersist | shared_lib/messaging/postgres_outbox.go:130-316 | No committed row disappears or changes its message, attempts never fall, and SENT is final. |
| OutboxLaws.RowsAreEnqueued | shared_lib/messaging/postgres_outbox.go:130-165 | In every run every row carries the key and the message of the event that enqueued it. |
| OutboxLaws.MarkTakesEffectIff | shared_lib/messaging/postgres_outbox.go:261-300 | Claim fencing: in every sound state a mark changes the table exactly when the batch's claim is the row's current one, and then the row is SENT, or due after the backoff with one more attempt; a superseded claim changes nothing. |
| OutboxLaws.CrashEnds | shared_lib/messaging/outbox_relay.go:82-107 | A crash changes no row, and afterwards its batch publishes and marks nothing. |
| OutboxLaws.LeaseProtects | shared_lib/messaging/postgres_outbox.go:192-209 | In every run an unfinished batch owns its rows until its lease runs out, and no other batch's mark touches them. |
| OutboxLaws.SharedOnlyAfterExpiry | shared_lib/messaging/postgres_outbox.go:192-209 | In every run two batches publish or still hold the same row only if the earlier lease ran out before the later claim. |
| OutboxLaws.ClaimableInTime | shared_lib/messaging/postgres_outbox.go:192-200 | Whatever crashed or failed, after the longest lease or backoff exactly the rows that are not SENT are claimable. |
| OutboxLaws.PublishedAtMostOnce | shared_lib/messaging/outbox_relay.go:92-107 | If no lease expires early, no MarkSent fails and no relay dies in between, every row is published at most once, and exactly once if SENT. |
| OutboxLaws.RepublishedAfterExpiry | shared_lib/messaging/outbox_relay.go:92-107 | An early expiry alone lets a row be published twice. |
| OutboxRepublish.RepublishedIff | shared_lib/messaging/outbox_relay.go:82-107 | From every reachable state another publish of a row can follow exactly when the row is not SENT or an unfinished batch still has it to publish. |
| OutboxRepublish.LeftAfterLease | shared_lib/messaging/postgres_outbox.go:192-209 | A batch has a SENT row left to publish only after its own lease has run out. |
| Relay.ProcessBatch | shared_lib/messaging/outbox_relay.go:82-119 | Publishes and marks the claimed rows one after the other, going on past failures, and reports whether any failed. |
| Relay.BatchSettles | shared_lib/messaging/outbox_relay.go:91-107 | After an undisturbed batch every claimed row is SENT or due exactly when the backoff is over, and no other row has changed. |
| Relay.AnyRefusedMeaning | shared_lib/messaging/outbox_relay.go:91-118 | The failure flag is set exactly when some row of the batch was refused. |
| Relay.NoLostWakeup | shared_lib/messaging/signaled_outbox.go:25-35 | In every run a notified commit has a token waiting, a relay about to read, or a read that started after it and saw it unless it failed; likewise the retry after a failed batch. |
| Relay.WakeupIsRead | shared_lib/messaging/outbox_relay.go:50-119 | The same over events: after a notification the signal is waiting or being served, or a later event is a read; likewise after a batch with a failure, with its timer. |
| Relay.ReadsAreAsked | shared_lib/messaging/outbox_relay.go:50-119 | The relay does not spin: reads and tokens together are at most the notifications and fired timers, and a timer fires at most once for each batch with a failure. |
| Relay.AllSeenWhenIdle | shared_lib/messaging/outbox_relay.go:50-65 | While the relay waits on an empty signal channel and its last read did not fail, it has read since every notified commit. |
| Relay.LostIff | shared_lib/messaging/outbox_relay.go:85-118 | A commit will be read without a further notification unless the relay has not read since and has no token or timer left; if it was notified, its last read then failed. |
| Relay.FailedReadLoses | shared_lib/messaging/outbox_relay.go:85-89 | That happens: a failed read uses up its token and sets no timer. |
| Relay.CrashLosesWakeup | shared_lib/uow/uow.go:70-72 | A writer that dies between commit and notification loses the wakeup. |
| Transactions.Database.DoOnce | shared_lib/db/tx_runner.go:72-124 | No error exactly when BEGIN, the function and COMMIT went through, and then all of the attempt's writes and rows are applied; otherwise nothing is, and the error is that of the first stage that failed, never retryable for a recovered panic. |
| Transactions.Database.Do | shared_lib/db/tx_runner.go:44-70 | At most max(1, RetryAttempts) attempts; the result and the data are those of the last one; every earlier one failed with a retryable error of BEGIN, the function or COMMIT and was not cancelled, and the last one succeeded, failed otherwise, was cancelled or used up the attempts. |
| Transactions.Database.DoWork | shared_lib/uow/uow.go:43-74 | The unit of work's runner has no retry attempts, so one attempt with outbox rows joined; the signal is sent exactly after a commit whose attempt had an accepted enqueue. |
| Transactions.WrittenMeaning | shared_lib/db/tx_runner.go:72-124 | A business key holds what the last write of it wrote, and without one what it held. |
| Transactions.EnqueuedMeaning | shared_lib/messaging/postgres_outbox.go:117-151 | The rows afterwards are those before, and one PENDING row with its content, due at once, for exactly every accepted enqueue of a key not there yet. |
| Transactions.AnyTakenMeaning | shared_lib/uow/uow.go:57-68 | The flag is set exactly when some enqueue was accepted. |
| Transactions.SignalMeaning | shared_lib/uow/uow.go:60-72 | A commit that added an outbox row signals; a commit leaves the outbox as it was exactly when every key it enqueued was already there. |
| Transactions.SignalWithoutRow | shared_lib/uow/uow.go:60-72 | So a unit of work that enqueues a known key again signals without a new row. |
| Transactions.EnqueuedUnique | shared_lib/messaging/postgres_outbox.go:117-151 | Any transaction keeps one row per dispatch key. |
| Transactions.RepeatChangesNothing | shared_lib/messaging/postgres_outbox.go:117-151 | Repeating a committed unit of work's enqueues changes no row. |
| ServedModel.Store.UpsertSpec | shared_lib/servedmodel/local_store.go:85-115 | Creates at generation 1, leaves an equal specification alone, otherwise moves generation and version and clears the status; a failure leaves the file as it was. |
| ServedModel.Store.UpdateStatus | shared_lib/servedmodel/local_store.go:117-137 | Succeeds exactly for an existing record whose generation the status observed, and then stores it, with a new version unless it was there already; every failure leaves the file as it was. |
| ServedModel.Store.DeleteRecord | shared_lib/servedmodel/local_store.go:151-162 | Removes exactly the record, or reports that it is not there. |
| ServedModel.Store.ResetAll | shared_lib/servedmodel/local_store.go:232-240 | Empties the store under a new version. |
| ServedModel.RecordStays | shared_lib/servedmodel/local_store.go:85-162 | Over every run a record stays as it is, field by field, until a step that goes through gives it a status, changes its specification or namespace, deletes it or resets the store. |
| ServedModel.AcceptedStatusStays | shared_lib/servedmodel/local_store.go:117-137 | So an accepted status stays until then. |
| ServedModel.ReachableConsistent | shared_lib/servedmodel/local_store.go:85-137 | In every reachable store records have generation at least 1 and a status that is empty or of the current generation. |
| ServedModel.VersionDeterminesItems | shared_lib/servedmodel/local_store.go:85-162 | The version never falls, and while it stands still the items do too. |
| ServedModel.EqualVersionsEqualItems | shared_lib/servedmodel/local_store.go:85-162 | Two states of a run with equal versions have equal items. |
| ServedModel.GenerationCountsChanges | shared_lib/servedmodel/local_store.go:103-112 | Within one incarnation the generation counts the changes of specification or namespace, so equal generations mean equal specifications. |
| ServedModel.StaleStatusRefused | shared_lib/servedmodel/local_store.go:125-127 | A status worked out for an older specification of the incarnation is refused. |
| ServedModel.RecreatedAcceptsIff | shared_lib/servedmodel/local_store.go:91-137 | A record made anew and kept accepts a status exactly when it observed one plus the number of changes since. |
| ServedModel.RecreatedAcceptsStaleStatus | shared_lib/servedmodel/local_store.go:91-137 | So the status of a deleted record of generation g is accepted for its successor after exactly g - 1 changes of it. |
| ServedModelWatch.NothingMissed | shared_lib/servedmodel/local_store.go:186-304 | Once events and channel are drained the consumer has listed the current version, exactly unless its namespace is empty among others. |
| ServedModelWatch.LastDeletionMissed | shared_lib/servedmodel/local_store.go:285-304 | Deleting the only record of the watched namespace while others have some is missed. |
| ServedModelWatch.StepFollowing | shared_lib/servedmodel/local_store.go:285-304 | Every write, event, receive and listing keeps the invariant behind that. |
| ServedModelWatch.DeliveredVersionMayBeOld | shared_lib/servedmodel/local_store.go:296-302 | The version in the channel may be older than the store's. |
| ServedModelWatch.WaitingIsOldIff | shared_lib/servedmodel/local_store.go:285-304 | In every run the version waiting in the channel is older than the last one seen exactly when a check found a new version and the channel full since it was sent. |
| Promotion.ReportFromTaskResults | agent_registry_service/pkg/app/agent_registry_usecase.go:746-807 | The rates are the numbers of results with each flag set over the number of results, zero without any, and the report passes when all three reach their thresholds, zero standing for one. |
| Promotion.DefaultGateWantsEverything | agent_registry_service/pkg/app/agent_registry_usecase.go:762-777 | With the default thresholds a report passes exactly when there are tasks and all of them succeeded in every respect. |
| Promotion.Registry.StartPromoting | agent_registry_service/pkg/app/agent_registry_usecase.go:505-511 | A promotion goes on exactly for an adapter that is EVALUATED when it is read. |
| Promotion.Registry.CheckReport | agent_registry_service/pkg/app/agent_registry_usecase.go:512-521 | It goes on exactly with a recorded report that fits the adapter as read and passed. |
| Promotion.Registry.FindChampion | agent_registry_service/pkg/app/agent_registry_usecase.go:982-994 | The champion of the adapter's lineage is read; with none, or a specification alone, nothing is compared. |
| Promotion.Registry.EnforceNoRegression | agent_registry_service/pkg/app/agent_registry_usecase.go:995-1007 | It goes on exactly when that champion has no report or no rate falls by more than the tolerance below its latest report. |
| Promotion.Registry.CommitPromotion | agent_registry_service/pkg/app/agent_registry_usecase.go:530-548 | One transaction makes the adapter PROMOTED and champion of the command's lineage, without testing again what was read. |
| Promotion.Registry.RecordEvaluation | agent_registry_service/pkg/app/agent_registry_usecase.go:600-608 | The report is recorded in a transaction of its own. |
| Promotion.Registry.SaveEvaluationStatus | agent_registry_service/pkg/app/agent_registry_usecase.go:488-495 | The adapter becomes EVALUATED or REJECTED by it in a later one, whatever its status is by then. |
| PromotionLaws.PromotionsAreEarned | agent_registry_service/pkg/app/agent_registry_usecase.go:505-521 | In every run every promoted adapter was EVALUATED when read and had a passing report on record about itself, for the specification, split and rubric it was trained against, not behind what it was compared with. |
| PromotionLaws.StatusHasReport | agent_registry_service/pkg/app/agent_registry_usecase.go:467-550 | In every run an EVALUATED or PROMOTED adapter has a passing report about itself on record, and a REJECTED one a failing report. |
| PromotionLaws.ReportsAreGiven | agent_registry_service/pkg/app/agent_registry_usecase.go:746-807 | In every run every report carries the results of the evaluation event that recorded it, and its verdict on them. |
| PromotionLaws.FallBounded | agent_registry_service/pkg/app/agent_registry_usecase.go:502-550 | In every run, whatever interleaves, from one promotion of a lineage to a later one no rate falls by more than the tolerances used plus what the comparisons fell short of the champion. |
| PromotionLaws.ComparisonProtectsIff | agent_registry_service/pkg/app/agent_registry_usecase.go:995-1006 | A comparison keeps every candidate it accepts within the tolerance of given rates exactly when it was made with rates nowhere below them. |
| PromotionLaws.NoRegressionBeyondTolerance | agent_registry_service/pkg/app/agent_registry_usecase.go:981-1008 | From a seated champion on, over any run whose writes were compared with the champion's latest report as it still is and made on the adapter's own latest report, each champion rate falls by at most the sum of the tolerances used. |
| PromotionExact.RuleHoldsIff | agent_registry_service/pkg/app/agent_registry_usecase.go:981-1008 | In every reachable state such runs keep the rates the champion was promoted on, within tolerance, if and only if its latest report is nowhere worse than the one it was promoted on. |
| PromotionExact.OlderReportLosesHalf | agent_registry_service/pkg/app/agent_registry_usecase.go:505-522 | A run from the start promotes on an older, better report, and a careful promotion without tolerance then halves all rates. |
| PromotionExact.OverlapLoses | agent_registry_service/pkg/app/agent_registry_usecase.go:505-548 | From any state a run can reach, two overlapping promotions without tolerance of passing candidates, both acceptable to the champion, can both be written, the worse one last. |
| PromotionExact.OverlapDrops | agent_registry_service/pkg/app/agent_registry_usecase.go:505-548 | So from every reachable state whose champion is not perfect, promotions without tolerance can make it perfect and then less than that. |
| PromotionExact.TakesBackIff | agent_registry_service/pkg/app/agent_registry_usecase.go:505-548 | They can take back exactly all of it if and only if none of the champion's rates is zero, since no report with a zero rate passes. |
| PromotionExact.OverlapLosesHalf | agent_registry_service/pkg/app/agent_registry_usecase.go:505-548 | A run from the start replaces a perfect champion by one half as good without tolerance. |

## Left out

- Embedding vectors: similarity is the dot product of given real vectors, so normalisation, rounding, the embedding provider, its errors, and the averaged node embeddings are not modelled.
- Resolver.ResolveGraphEntities: does not model the error returns for a missing snapshot, provider or vector dimension, which leave the graph alone.
- Titles, summaries, ranks, report texts, evidence and identifiers copied from the snapshot: text building without further laws.
- CommunityResults.WithCommunities: requires distinct entity keys. Its one caller passes on the resolver's output (OutputKeysDistinct) or, without a resolver, the extraction's nodes, which are the values of a map by key (graph_materialization_usecase.go:422-426); what the loops would do with repeated keys is not modelled.
- CommunityResults.FindGroups: the same.
- Communities.CommunityGroups: the same.
- ChunkRewrite.ResolvedNodeChunks: leaves open the order of chunks with equal key and index, as `sort.Slice` does.
- Integers are unbounded except for the 64-bit assignment generation; mention counts, offsets, generations of records and versions do not wrap.
- SubscriberLaws.RebalanceFencesRun: takes each assignment check and the action right after it as one step; only checks followed by a blocking send or by retries are separate steps.
- SubscriberFencing.StaleNeverStarts: counts epochs without wrap-around; CurrentIffSameEpoch relates them to the 64-bit generation.
- SubscriberLaws.ListenerRunsBounded: keys the replay map by (topic, partition, offset); the formatted string is the same key for non-negative partitions and offsets.
- SubscriberLaws.NoSilentLoss: says nothing once the context is cancelled or admission has stopped, where the code drops replays on purpose.
- A message is polled at most once in an epoch, since a consumer's position only moves forward; the broker's own behaviour is not modelled.
- Liveness: that every message is committed or the outbox empties. A worker can block sending to its own full channel, and a batch is capped without a follow-up wakeup.
- Order of same-key messages across replay and backlog, and of published outbox rows: the code does not guarantee them.
- Pausing, lag, health, metrics, tracing, topic management and backoff lengths: no law of their own.
- Outbox.Table.ReadPending: takes owner, fresh token, clock and locked rows as parameters; the generated relay identity is not modelled.
- OutboxLaws.EffectsPerClaim: assumes one monotone clock and fresh claim tokens; a claim may take any set of claimable rows, more than the limit and the order allow.
- Relay.NoLostWakeup: is about the start of a batch read; lease expiry wakes nobody.
- Transactions.Database.Do: takes a failed COMMIT as not applied and models no other transactions between attempts.
- ServedModel.Store.UpsertSpec: compares specifications as one value, and leaves out `UpdatedAt`, locking and the JSON file format.
- ServedModelWatch.NothingMissed: assumes a file event after every successful write.
- PromotionLaws.FallBounded: uses real numbers for rates, one organisation, and the order in which reports were recorded for that of `evaluated_at`, the start time of their transactions.
- Scoring of golden tasks, datasets, leak checks and training dispatch: they feed the gate but hold no run-level law.
