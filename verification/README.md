# Verified model of chaosbox

A Dafny model of four parts of chaosbox. Code that updates arrays, queues, maps and fields is
proved to compute a specification, and what the program promises is proved of the
specification in terms that do not mention how it computes: sums over pairs, paths, balls,
canonical texts, histories and bags of tokens. `dafny verify dfyconfig.toml` checks everything.

**Community detection.** The deterministic Leiden optimiser: levels (`LeidenLevel`), local
moving (`LeidenMove`), refinement (`LeidenRefine`), aggregation (`LeidenAggregate`), labels
(`LeidenLabels`), modularity (`LeidenQuality`) and the loop over levels (`LeidenPartition`).
Each step has a specification over label sequences and a method over arrays and queues that
is proved to compute it. Modularity is a sum over all ordered pairs of nodes
(`RealSums`, `LeidenLevel`), connectivity is the existence of a path inside the community
(`LeidenPaths`). The 32-level cap is a parameter, so leaving by a break and running out of
levels are different exits. Weights and the resolution are real numbers, and the resolution
is only assumed positive.

**MCP transport.** Framing of the input (`McpFraming`), the exchange of one active call
with its admission queue, control queue and partially written frame (`McpExchange`), both
together from arriving bytes to completed responses (`McpConnection`), what the client is told
byte for byte (`McpExact`), and the classes whose fields the server updates (`McpServer`). Each `select!` arm is an event of
an adversarial environment. Every consumed frame that is owed a response gets a token;
conservation of tokens is the exactly-once property of sections 4.1 and 5 of the JSON-RPC
2.0 Specification.

**Guarded publication.** Against a shared database (`PgPublication`, `PgStore`, and what a
reported result means in `PgReconcile`): any number
of publishers, each statement of each transaction a step, with lost connections, crashes and
commits that land late or never. In memory (`EvidenceModel`, `EvidenceSealing`,
`EvidenceHistory`, `EvidenceExact`, `EvidenceStore`): the store as a class over maps, sealing
of the evidence closure, exactly when a publication is accepted, and the streamed digest text.

**Bounded search.** Hop-bounded paths and reachability (`BoundedSearch`), and the budgeted
lexical context (`ContextSearch`), over one theory of balls and breadth-first search
(`GraphSearch`).

Assumptions, stated as hypotheses of the lemmas that use them: an encoded response contains
no newline byte (`LineFree`); a build digest determines the build it was computed from, in
particular its generation (`Faithful`).

Three things the program does not promise are shown with their exact conditions. A commit
whose outcome was lost is reconciled by build id alone, so success can be reported although
the live build of that id is another version (`MisreportExactly`). A refused registration may
have recorded its first part (`RefusedUnchangedExactly`). Decision slots join candidate and
question by a colon, so ids of different lengths can collide, though minted ids, all of one
length, do not (`SlotsExact`, `CandidatesConfusedExactly`).

## Model

| member | source | states |
|---|---|---|
| `LeidenPartition.Partition` | crates/chaosbox-core/src/leiden.rs:71-105 | the loop over levels returns the labels, quality and kind of exit of the specified multi-level run, for any level cap, labels being canonical ranks cut to 32 bits |
| `LeidenPartition.PartitionOutcome` | crates/chaosbox-core/src/leiden.rs:71-105 | for every graph, positive resolution and cap: refinement never gets stuck, so the second break never fires; any cap of at least an explicit bound is never reached; unless the cap was reached every community is connected in the positive-weight graph; modularity is at least that of all singletons on every exit |
| `LeidenPartition.ReturnedLabels` | crates/chaosbox-core/src/leiden.rs:102-104 | the returned quality is the definitional modularity of the returned ranks on the base graph and at least that of singletons, the named communities are connected unless the cap was reached, and the 32-bit labels equal the ranks if and only if no rank exceeds 32 bits |
| `LeidenPartition.EdgeOrderIrrelevant` | crates/chaosbox-core/src/leiden.rs:1-4 | two runs on edge lists that are permutations of each other return equal labels, quality and exit |
| `LeidenPartition.PartitionSteps` | crates/chaosbox-core/src/leiden.rs:71-105 | a run is a chain of levels from single nodes on the graph of the edges, each the next of the one before, ended by the first level that breaks or by the cap, whose membership it returns; without weight it leaves single nodes |
| `LeidenPartition.LevelExact` | crates/chaosbox-core/src/leiden.rs:81-101 | a level breaks if and only if local moving left every node alone, or moved nothing and refinement merged nothing, and then returns the moved communities; otherwise the clusters become the next nodes, each in the community of its members |
| `LeidenPartition.LevelsOutcome` | crates/chaosbox-core/src/leiden.rs:81-102 | from any consistent level: what remaining levels can do to connectivity, quality and the exit, with a measure that each non-breaking level strictly lowers |
| `LeidenPartition.NextClimbs` | crates/chaosbox-core/src/leiden.rs:82-100 | a level that goes on either has strictly fewer nodes or strictly higher base modularity, and never lower modularity |
| `LeidenPartition.NextQuotient` | crates/chaosbox-core/src/leiden.rs:92-100 | after a level the aggregated graph is still the quotient of the base graph under the node map, for weights and for modularity excess |
| `LeidenPartition.NextShaped` | crates/chaosbox-core/src/leiden.rs:92-100 | labels carried to the next level stay below its length and every zero-strength node is alone again |
| `LeidenPartition.LastLevel` | crates/chaosbox-core/src/leiden.rs:82-91 | a break always means convergence, and the projected communities are connected |
| `LeidenPartition.NoMergerHelps` | crates/chaosbox-core/src/leiden.rs:82-86 | when the last level moved nothing, joining any two of the communities the loop leaves with does not raise modularity |
| `LeidenPartition.LiftConnected` | crates/chaosbox-core/src/leiden.rs:97-102 | communities connected on an aggregated level are connected on the base graph when each aggregated node is |
| `LeidenPartition.SameObjective` | crates/chaosbox-core/src/leiden.rs:92-103 | a partition of an aggregated level and its projection to the base graph have the same objective |
| `LeidenPartition.NextPartFacts` | crates/chaosbox-core/src/leiden.rs:92-95 | the carried-over labels agree with the old ones through the refined clusters, whatever member wrote last |
| `LeidenPartition.NextInertAlone` | crates/chaosbox-core/src/leiden.rs:92-100 | nodes without strength stay in communities of their own on the next level |
| `LeidenPartition.CarryOver` | crates/chaosbox-core/src/leiden.rs:92-95 | the loop that writes each node community at its cluster computes the specified next labels |
| `LeidenPartition.RunLevel` | crates/chaosbox-core/src/leiden.rs:81-101 | one pass of the level loop takes exactly the specified branch and produces the specified next level |
| `LeidenPartition.SumStrengths` | crates/chaosbox-core/src/leiden.rs:73-73 | the total is the sum of all strengths |
| `LeidenMove.MoveNodes` | crates/chaosbox-core/src/leiden.rs:110-162 | the queue-driven loop over arrays terminates and leaves exactly the labels of the specified run; the flag says whether any label changed |
| `LeidenMove.MoveChangesObjective` | crates/chaosbox-core/src/leiden.rs:129-151 | moving one node raises the level objective by exactly twice the difference of its gains |
| `LeidenMove.StepOk` | crates/chaosbox-core/src/leiden.rs:122-160 | one visit keeps labels, queue and list of empty labels consistent and every zero-strength node alone, and a visit that moves a node strictly raises the objective |
| `LeidenMove.RunOutcome` | crates/chaosbox-core/src/leiden.rs:122-161 | when the queue is empty the objective has not fallen, has strictly risen if a node moved, and if none moved every node is settled: no neighbouring or empty community would gain |
| `LeidenMove.BetterShrinks` | crates/chaosbox-core/src/leiden.rs:122-160 | a strict rise of the objective strictly shrinks the set of labellings still better, which bounds the number of moves |
| `LeidenMove.BestBelowGain` | crates/chaosbox-core/src/leiden.rs:129-138 | the chosen community gains at least as much as the current one and every neighbouring one |
| `LeidenMove.BestBelowFirst` | crates/chaosbox-core/src/leiden.rs:129-138 | among equally good communities the current one, then the smallest index, is chosen |
| `LeidenMove.TargetExact` | crates/chaosbox-core/src/leiden.rs:126-144 | a visited node that is in company and loses in every community on offer takes the unused label on top; any other goes to a touched community of greatest gain, staying put unless one is strictly better, the smallest among equals |
| `LeidenMove.MoveStepExact` | crates/chaosbox-core/src/leiden.rs:122-160 | what a visit changes: the label of the visited node only, the stack of unused labels, and the queue, where exactly the neighbours left outside and not waiting are appended in ascending order |
| `LeidenMove.RunSteps` | crates/chaosbox-core/src/leiden.rs:122-161 | a run is one visit after another until the queue is empty |
| `LeidenMove.StartExact` | crates/chaosbox-core/src/leiden.rs:118-121 | the run starts with every node queued in order and the unused labels stacked, smallest on top |
| `LeidenMove.GainInNumbers` | crates/chaosbox-core/src/leiden.rs:129-129 | the gain of a node from a community: link weight less gamma times its strength times theirs over the total |
| `LeidenMove.EmptyAtHand` | crates/chaosbox-core/src/leiden.rs:139-144 | whenever a node that is not alone wants to be alone, an empty label is at hand, so the pop never fails |
| `LeidenMove.TablesAfterMove` | crates/chaosbox-core/src/leiden.rs:127-150 | updating two entries of the size and weight tables keeps them equal to the sizes and strength sums of the new labelling |
| `LeidenMove.GainFromTables` | crates/chaosbox-core/src/leiden.rs:129-129 | the gain computed from the table equals the definitional gain over all pairs |
| `LeidenMove.WeightsTo` | crates/chaosbox-core/src/leiden.rs:50-63 | the row accumulates, for exactly the communities touched by kept neighbours, the weight to each |
| `LeidenMove.BestCommunity` | crates/chaosbox-core/src/leiden.rs:129-138 | the loop over neighbouring communities computes the specified best one and its gain |
| `LeidenMove.PickTarget` | crates/chaosbox-core/src/leiden.rs:126-144 | the target chosen with the tables, including opening an empty community, is the specified one |
| `LeidenMove.Visit` | crates/chaosbox-core/src/leiden.rs:123-152 | one visit updates labels, tables and empty list exactly as specified |
| `LeidenMove.Requeue` | crates/chaosbox-core/src/leiden.rs:153-158 | neighbours outside the new community and not queued are appended in ascending order |
| `LeidenMove.FillTables` | crates/chaosbox-core/src/leiden.rs:112-117 | the tables start as sizes and strength sums of the initial labels |
| `LeidenMove.UnusedLabels` | crates/chaosbox-core/src/leiden.rs:118-118 | the list holds exactly the unused labels, smallest last |
| `LeidenRefine.Refine` | crates/chaosbox-core/src/leiden.rs:167-214 | the loop with incrementally kept cut and weight tables computes the specified refinement |
| `LeidenRefine.RefinementConnected` | crates/chaosbox-core/src/leiden.rs:164-166 | after any number of visits every refined cluster is connected and inside one community, and clusters are named by a member of their own |
| `LeidenRefine.RefinementProgress` | crates/chaosbox-core/src/leiden.rs:164-211 | if local moving has settled and some community has two members, refinement merges at least one pair, so the number of clusters falls |
| `LeidenRefine.FirstVisitMerges` | crates/chaosbox-core/src/leiden.rs:188-211 | the first visited member of a settled community with company passes the test and merges |
| `LeidenRefine.SettledIsConnected` | crates/chaosbox-core/src/leiden.rs:186-193 | a settled node among singletons passes the well-connectedness test |
| `LeidenRefine.GainfulPeer` | crates/chaosbox-core/src/leiden.rs:194-204 | a settled node with company has a neighbour in its community whose singleton it may join at no loss |
| `LeidenRefine.JoinChangesCut` | crates/chaosbox-core/src/leiden.rs:206-206 | when a singleton joins a cluster, the true cut weight of the cluster changes by exactly the amount the code adds |
| `LeidenRefine.CutTablesJoin` | crates/chaosbox-core/src/leiden.rs:205-211 | joining keeps the tables equal to the true cut, strength and singleton status of every cluster |
| `LeidenRefine.BestClusterEligible` | crates/chaosbox-core/src/leiden.rs:195-204 | the chosen cluster is another, well-connected, touched cluster of the community with non-negative gain, best among these, strictly better than any of smaller index |
| `LeidenRefine.PassExact` | crates/chaosbox-core/src/leiden.rs:173-214 | over a whole pass, node k leaves its own cluster at visit k if and only if it is alone in it, well connected, and some cluster is eligible then, and joins an eligible one of greatest gain, the smallest among equals; nothing else changes |
| `LeidenRefine.RefineStepExact` | crates/chaosbox-core/src/leiden.rs:188-212 | the same for one visit from any clusters |
| `LeidenRefine.WellConnectedInNumbers` | crates/chaosbox-core/src/leiden.rs:186-193 | well connected: the cut inside the community is at least gamma times strength times the strength of the rest over the total |
| `LeidenRefine.EligibleInNumbers` | crates/chaosbox-core/src/leiden.rs:194-204 | eligible: touched inside the community, well connected, and the link weight is at least the expected one |
| `LeidenRefine.RefinementNeverLowers` | crates/chaosbox-core/src/leiden.rs:164-214 | after any number of visits the objective of the clusters is at least that of single nodes |
| `LeidenRefine.StepRaises` | crates/chaosbox-core/src/leiden.rs:201-211 | a visit never lowers the objective of the clusters |
| `LeidenRefine.StepMerges` | crates/chaosbox-core/src/leiden.rs:205-210 | a merge joins the visited singleton to the cluster of an adjacent node of its community |
| `LeidenRefine.StepKeepsClusters` | crates/chaosbox-core/src/leiden.rs:188-212 | one visit keeps clusters connected, rooted and inside communities |
| `LeidenRefine.ChooseCluster` | crates/chaosbox-core/src/leiden.rs:195-204 | the loop over candidate clusters computes the specified choice |
| `LeidenRefine.RefineVisit` | crates/chaosbox-core/src/leiden.rs:188-212 | one visit changes labels and tables exactly as specified |
| `LeidenRefine.CommunityStrengths` | crates/chaosbox-core/src/leiden.rs:169-172 | strength of every community |
| `LeidenRefine.InitialExternal` | crates/chaosbox-core/src/leiden.rs:176-185 | cut weight of every singleton inside its community |
| `LeidenAggregate.Aggregate` | crates/chaosbox-core/src/leiden.rs:216-232 | the double loop builds the specified quotient level |
| `LeidenAggregate.AggregateValid` | crates/chaosbox-core/src/leiden.rs:216-232 | the quotient level is symmetric, positive and free of self loops, and its total strength is the old total |
| `LeidenAggregate.AggregateAffinity` | crates/chaosbox-core/src/leiden.rs:216-232 | between any two clusters the new affinity is the sum over their members, inner weight counted twice |
| `LeidenAggregate.AggregateStrength` | crates/chaosbox-core/src/leiden.rs:30-43 | the strength of an aggregated node is the sum of the strengths of its members |
| `LeidenAggregate.AggregateExcess` | crates/chaosbox-core/src/leiden.rs:92-98 | modularity excess of the aggregated level is the block sum of the old one, so modularity is preserved by projection |
| `LeidenAggregate.InnerAffinity` | crates/chaosbox-core/src/leiden.rs:219-229 | the inner weight, each edge once, is half of what the cluster has inside |
| `LeidenLabels.Dense` | crates/chaosbox-core/src/leiden.rs:235-242 | rewrites the array in place to the specified dense labels and returns their number |
| `LeidenLabels.DenseFacts` | crates/chaosbox-core/src/leiden.rs:234-242 | dense labels describe the same partition and exactly fill 0 up to the count, which equals the number of nodes if and only if every label is used once |
| `LeidenLabels.DenseInOrder` | crates/chaosbox-core/src/leiden.rs:234-242 | dense labels are numbered in the order of their first appearance |
| `LeidenLabels.DenseOfAlone` | crates/chaosbox-core/src/leiden.rs:83-86 | when there are as many labels as nodes, dense labels number the nodes in order |
| `LeidenLabels.Renumber` | crates/chaosbox-core/src/leiden.rs:245-259 | returns ranks of the same partition in canonical order, cut to 32 bits |
| `LeidenLabels.RanksExact` | crates/chaosbox-core/src/leiden.rs:244-259 | of two communities the one with more members has the smaller rank, of equally large ones the one whose first node comes first; no rank is left out, and ranks past 32 bits become the largest |
| `LeidenLabels.CanonicalUnique` | crates/chaosbox-core/src/leiden.rs:244-259 | canonical ranks are unique: equal partitions, however labelled, get equal ranks |
| `LeidenLabels.CanonicalAgree` | crates/chaosbox-core/src/leiden.rs:251-252 | two canonical numberings agree rank by rank |
| `LeidenLabels.SaturationExact` | crates/chaosbox-core/src/leiden.rs:256-256 | cutting to 32 bits leaves the ranks unchanged if and only if none exceeds the limit |
| `LeidenLabels.RankGroups` | crates/chaosbox-core/src/leiden.rs:251-252 | groups are sorted by size descending, then by smallest member |
| `LeidenLabels.RankTable` | crates/chaosbox-core/src/leiden.rs:253-257 | each community maps to its position among the ranked groups |
| `LeidenQuality.ModularityOf` | crates/chaosbox-core/src/leiden.rs:261-279 | the two-table computation returns the modularity defined over all ordered pairs |
| `LeidenQuality.ContributionsAddUp` | crates/chaosbox-core/src/leiden.rs:274-278 | the per-community contributions add up to the pairwise definition |
| `LeidenQuality.WithinExcess` | crates/chaosbox-core/src/leiden.rs:263-273 | inside weight less expected weight of a community is its pairwise excess |
| `LeidenQuality.SameByClass` | crates/chaosbox-core/src/leiden.rs:261-279 | a sum over pairs with equal labels splits into sums over communities |
| `LeidenLevel.NewLevel` | crates/chaosbox-core/src/leiden.rs:18-28 | the adjacency of an edge list: self loops, out-of-range ends and non-positive weights dropped, parallel edges merged, both directions entered |
| `LeidenLevel.FromMaps` | crates/chaosbox-core/src/leiden.rs:30-43 | strengths are row sums plus twice the inner weight |
| `LeidenLevel.LevelOfValid` | crates/chaosbox-core/src/leiden.rs:18-28 | the base level is symmetric, positive, free of self loops and has no inner weight |
| `LeidenLevel.LevelOfWeights` | crates/chaosbox-core/src/leiden.rs:18-28 | two nodes are joined if and only if some edge of positive weight lists them, in either order, and by the sum of the weights of all such edges |
| `LeidenLevel.EndsSwapped` | crates/chaosbox-core/src/leiden.rs:18-28 | swapping the two ends of an edge leaves the level unchanged |
| `LeidenLevel.ModularityOfEdges` | crates/chaosbox-core/src/leiden.rs:261-279 | on the base level modularity is the sum over ordered pairs of one label of their weight less gamma times the product of their strengths over the total, all over the total |
| `LeidenLevel.LevelOfPermuted` | crates/chaosbox-core/src/leiden.rs:18-28 | permuting the edge list gives the same level |
| `LeidenLevel.EdgeWeightPermuted` | crates/chaosbox-core/src/leiden.rs:20-26 | the merged weight of a pair does not depend on the order of the edges |
| `LeidenLevel.ExcessSum` | crates/chaosbox-core/src/leiden.rs:129-129 | gain of a node towards a community is its weight there less the expected weight |
| `LeidenLevel.ExcessSymmetric` | crates/chaosbox-core/src/leiden.rs:30-43 | modularity excess is symmetric |
| `LeidenLevel.ObjectiveOfPartition` | crates/chaosbox-core/src/leiden.rs:261-279 | the objective depends on the partition and not on its labels |
| `McpFraming.FramingExact` | crates/chaosbox/src/mcp_server.rs:861-883 | for every chunking of the input and every abandoned read, the frames delivered are exactly the leading newline-ended frames of what arrived, and reading fails exactly on an over-budget or cut-off frame |
| `McpFraming.ChunkingIrrelevant` | crates/chaosbox/src/mcp_server.rs:861-883 | two schedules that brought the same bytes and were drained delivered the same frames and ended alike |
| `McpFraming.PollExact` | crates/chaosbox/src/mcp_server.rs:861-883 | one poll delivers exactly the next frame, stays pending exactly while it is unfinished, and fails exactly when it is over budget or cut off |
| `McpFraming.PollKeepsBytes` | crates/chaosbox/src/mcp_server.rs:861-883 | a poll neither loses nor repeats a byte |
| `McpFraming.ParseFlatten` | crates/chaosbox/src/mcp_server.rs:861-883 | parsing complete frames followed by a tail gives those frames and the parse of the tail |
| `McpFraming.ParseExact` | crates/chaosbox/src/mcp_server.rs:861-883 | lines of at most 64 KiB, newline included, are the frames, up to a first line or rest that is longer; a rest without newline is waited for while input is open, ends the stream cleanly if empty, and is cut off otherwise |
| `McpServer.Frames.constructor` | crates/chaosbox/src/mcp_server.rs:844-850 | an empty reader over open input |
| `McpServer.Frames.Next` | crates/chaosbox/src/mcp_server.rs:861-883 | the read loop on the retained line does what the specified poll does, including what it retains when abandoned |
| `McpExchange.StepKeeps` | crates/chaosbox/src/mcp_server.rs:1003-1078 | every turn of the loop, whatever arm runs, keeps all transport invariants: queue and control bounds, conservation of owed responses, distinct live ids, ordered deadlines, intact output |
| `McpExchange.ConnectionKeeps` | crates/chaosbox/src/mcp_server.rs:528-577 | the invariants hold at every point of every connection, over any number of exchanges |
| `McpExchange.ExchangeExactlyOnce` | crates/chaosbox/src/mcp_server.rs:981-1079 | in every run one final response is created; on completion the active request is answered and every frame owed a response is written exactly once or queued exactly once |
| `McpExact.FinalAnswer` | crates/chaosbox/src/mcp_server.rs:1003-1079 | in every run that completes exactly one final response is written: the encoding of the value the call first completed with, or of the refusal of a refused request, or, if its cancellation came first, of the cancellation; each replaced by an error when it exceeds 8 MiB |
| `McpExact.UndisturbedExchange` | crates/chaosbox/src/mcp_server.rs:981-1079 | a call that completes with nobody else on the connection is answered with exactly that value once enough writes of any sizes have gone through |
| `McpExact.RequestExact` | crates/chaosbox/src/mcp_server.rs:1055-1071 | an id in use is refused, a ping answered at once, any other request queued for ten seconds while fewer than eight wait and 256 KiB are not exceeded, and refused otherwise |
| `McpExact.CancelExact` | crates/chaosbox/src/mcp_server.rs:1044-1054 | cancelling settles the active call, or takes the first queued request of that id out and answers it, or does nothing |
| `McpExact.WriteExact` | crates/chaosbox/src/mcp_server.rs:946-970 | a late or empty write ends the connection, any other moves exactly the bytes written, and the one after the last completes the line |
| `McpExchange.ConnectionExactlyOnce` | crates/chaosbox/src/mcp_server.rs:540-577 | over a whole connection each frame owed a response is answered once or outstanding once, and between exchanges only queued requests are outstanding |
| `McpExchange.FrontExpiresFirst` | crates/chaosbox/src/mcp_server.rs:1010-1037 | no queued request expires before the front one, so checking the front alone is sound |
| `McpExchange.WireSplits` | crates/chaosbox/src/mcp_server.rs:944-970 | at every point the output is the completed responses in order followed by a prefix of the one being written, and a reader splitting at newlines recovers exactly these |
| `McpExchange.CancelKeeps` | crates/chaosbox/src/mcp_server.rs:1044-1054 | cancelling the active or a queued request keeps the invariants, takes exactly that request out of waiting and puts exactly one response to it in flight; any other target changes nothing |
| `McpExchange.InputKeeps` | crates/chaosbox/src/mcp_server.rs:1038-1076 | every kind of incoming frame keeps the invariants |
| `McpExchange.FinishCallKeeps` | crates/chaosbox/src/mcp_server.rs:1014-1017 | completion puts exactly one response to the active request in flight |
| `McpExchange.DequeueKeeps` | crates/chaosbox/src/mcp_server.rs:1034-1053 | a request leaves the queue only together with the token it is owed |
| `McpExchange.AdmitKeeps` | crates/chaosbox/src/mcp_server.rs:1062-1066 | admission keeps at most 8 requests and 256 KiB queued, ids distinct and deadlines ordered |
| `McpExchange.WriteKeeps` | crates/chaosbox/src/mcp_server.rs:946-970 | a write keeps the invariants and either puts at least one more byte on the wire or turns exactly the written response from in flight into completed |
| `McpExchange.HeadKeeps` | crates/chaosbox/src/mcp_server.rs:1004-1009 | choosing the next output keeps the invariants |
| `McpExchange.ExpiryKeeps` | crates/chaosbox/src/mcp_server.rs:1027-1037 | an expired front request leaves the queue and exactly one response to it is put in flight; otherwise nothing changes |
| `McpExchange.NextRequestKeeps` | crates/chaosbox/src/mcp_server.rs:541-577 | taking the next frame or queued request starts an exchange in a consistent state, refused at once if the frame does not decode or the request waited past its deadline |
| `McpConnection.EveryFrameAnswered` | crates/chaosbox/src/mcp_server.rs:861-1079 | from bytes to responses, for every chunking and interleaving: the frames taken are the leading frames of what arrived, completed and outstanding responses are exactly those owed to these frames, one each, and every completed response is the encoding of one carrying the id of its frame or none |
| `McpConnection.RefusedIsTold` | crates/chaosbox/src/mcp_server.rs:555-576 | a request refused because it did not decode or waited too long is answered with that refusal unless it was cancelled |
| `McpConnection.ServeHonest` | crates/chaosbox/src/mcp_server.rs:540-1079 | each step of a connection keeps the transport invariants, that every response made is the encoding of one under its id, and that refused requests are told so |
| `McpConnection.TalkKeeps` | crates/chaosbox/src/mcp_server.rs:540-1079 | at every point of every connection the responses owed are exactly those of the frames taken |
| `McpConnection.InputOwes` | crates/chaosbox/src/mcp_server.rs:1038-1076 | a frame is owed one response exactly if it is malformed or a request |
| `McpExchange.FreshId` | crates/chaosbox/src/mcp_server.rs:1055-1059 | an id that passes the duplicate check is not live |
| `McpExchange.ReplyKeeps` | crates/chaosbox/src/mcp_server.rs:1072-1075 | queueing a control response keeps the invariants and puts exactly that response in flight, or fails on a full control queue |
| `McpServer.Exchange.constructor` | crates/chaosbox/src/mcp_server.rs:998-1002 | an exchange starts with the call running, refused or not, and nothing to write |
| `McpServer.Exchange.LoopHead` | crates/chaosbox/src/mcp_server.rs:1004-1009 | picks the next output or completes, as the specified state does |
| `McpServer.Exchange.Select` | crates/chaosbox/src/mcp_server.rs:1012-1077 | each arm changes the fields as the specified step does |
| `McpServer.Exchange.Receive` | crates/chaosbox/src/mcp_server.rs:1038-1076 | one incoming frame changes the fields as specified |
| `McpServer.Exchange.CancelRequest` | crates/chaosbox/src/mcp_server.rs:1045-1054 | cancellation changes the fields as specified |
| `McpServer.Exchange.IsDuplicate` | crates/chaosbox/src/mcp_server.rs:1055-1058 | in every consistent state, true exactly for the live ids: active and unanswered, queued, or of a control response not flushed |
| `McpServer.Exchange.Respond` | crates/chaosbox/src/mcp_server.rs:1072-1075 | appends a control response or fails when eight are queued |
| `McpServer.Exchange.Write` | crates/chaosbox/src/mcp_server.rs:946-969 | advances the offset or flushes, failing on a deadline or a zero write |
| `McpServer.Exchange.Expire` | crates/chaosbox/src/mcp_server.rs:1031-1036 | moves the front request to an expiry response |
| `McpServer.Exchange.Run` | crates/chaosbox/src/mcp_server.rs:1003-1078 | the loop over any event sequence ends as the specified run does |
| `PgPublication.StepKeeps` | crates/chaosbox-pg/src/store.rs:186-271 | every step of any publisher, under every interleaving, keeps locks exclusive, checked facts true and the history consistent |
| `PgPublication.PublicationSafe` | crates/chaosbox-pg/src/store.rs:186-271 | over every interleaving with failed locks, crashes, lost connections and late commits: stored headers never change, each repository history is a chain of stored builds of strictly increasing generation that ends at the pointer and names no build twice, and success is reported only for a build id its pointer has named |
| `PgPublication.PointerMovesInRuns` | crates/chaosbox-pg/src/store.rs:208-242 | at every point of every run a pointer moves only by a landing commit, from the predecessor its author expected to a new build of strictly larger generation |
| `PgPublication.RunKeeps` | crates/chaosbox-pg/src/store.rs:186-271 | runs keep the invariant and only extend what is stored |
| `PgPublication.LandKeeps` | crates/chaosbox-pg/src/store.rs:251-260 | a landing commit appends to one history and leaves what other open transactions checked true |
| `PgPublication.OneTransactionPerRepository` | crates/chaosbox-pg/src/store.rs:200-202 | two open transactions are on different repositories |
| `PgPublication.StoredIsNotNewer` | crates/chaosbox-pg/src/store.rs:219-220 | no stored build of a repository is newer than the live one |
| `PgPublication.NewBuildNotStored` | crates/chaosbox-pg/src/store.rs:327-353 | a build that may replace the live one cannot already be stored as this version, so the header written is new |
| `PgPublication.AttemptExact` | crates/chaosbox-pg/src/store.rs:203-271 | undisturbed, an attempt succeeds if and only if the live build is this version already, or the expected predecessor is live, the build is newer, local checks pass and its id is new; the pointer and headers afterwards are stated in both cases |
| `PgReconcile.SuccessIsStored` | crates/chaosbox-pg/src/store.rs:259-270 | unless another version is published under the same id in the same repository, a reported success, even a reconciled one, means the build is stored as described |
| `PgReconcile.MisreportExactly` | crates/chaosbox-pg/src/store.rs:208-270 | a run from some database can report success for a build that is not what is stored if and only if the attempts contain a line that starts from what this attempt expects to replace, each replacing the one before, and ends in another version under its id |
| `PgReconcile.MisreportHasLine` | crates/chaosbox-pg/src/store.rs:208-270 | every misreported success comes of such a line, read off the history |
| `PgReconcile.LineMisreports` | crates/chaosbox-pg/src/store.rs:259-270 | every such line can be played: commit sent and lost, line published, success reconciled |
| `PgReconcile.CommonExpectationExactly` | crates/chaosbox-pg/src/store.rs:208-270 | when attempts on one id expect the same predecessor, a misreport is possible if and only if two of them describe different versions and the predecessor may precede both |
| `PgReconcile.LateLandingExactly` | crates/chaosbox-pg/src/store.rs:259-270 | after an attempt has reported, its commit can still land if and only if the server has it undecided |
| `PgReconcile.RefusalIsDefinite` | crates/chaosbox-pg/src/store.rs:199-270 | a failure reported without reconciliation is definite: the attempt has not landed and in no continuation will |
| `PgReconcile.ReconciledOtherVersion` | crates/chaosbox-core/src/lib.rs:687-691 | an instance: two builds of one repository and generation with different contents share an id, and a run misreports |
| `PgStore.Database.PublishTx` | crates/chaosbox-pg/src/store.rs:186-271 | the whole attempt, exactly, with arbitrary steps of others in between: it stops at a held lock, at a live build it retries or may not follow, at failed local checks, at an insert another open attempt holds up, or at an id stored as another version, each if and only if that is what it meets; otherwise it goes on to the commit, and the result is the answer, or what the reconciling read finds. Every step taken is stated. With nobody else at work success, pointer and headers are stated in both directions |
| `PgStore.Database.Prepare` | crates/chaosbox-pg/src/store.rs:199-250 | the statements up to the commit: which it takes, at which it stops and with what result, by what the lock, the live query, the checks and the insert meet |
| `PgStore.Database.Admit` | crates/chaosbox-pg/src/store.rs:199-242 | lock, live query and live checks: open if and only if the lock was free, the live build is the expected older one or absent as expected, and the local checks passed; else the step it ended at and its result |
| `PgStore.Database.Settle` | crates/chaosbox-pg/src/store.rs:259-270 | an acknowledged or rejected commit reports what was decided, a lost one whether a fresh read finds its build active, and the transaction is undecided only if the server had not decided |
| `PgStore.Database.Others` | crates/chaosbox-pg/src/store.rs:186-271 | steps of other publishers leave this attempt alone |
| `EvidenceHistory.HistoryKept` | crates/chaosbox-store/src/store.rs:400-486 | over any run of operations: pointers name stored builds of their repository, never older than before, and builds, sealed rows and every first-written record stay as they are |
| `EvidenceHistory.OpKeeps` | crates/chaosbox-store/src/store.rs:264-486 | each operation keeps all store invariants and only adds |
| `EvidenceHistory.OnlyPublishMoves` | crates/chaosbox-store/src/store.rs:460-484 | only a publication naming the active build as predecessor, or none where there is none, moves a pointer, to a newly stored build of strictly larger generation |
| `EvidenceExact.PublishAcceptedExactly` | crates/chaosbox-store/src/store.rs:400-486 | in a consistent store a publication is accepted if and only if its coverage is absent or its counts are those of the evidence, its edges stay inside, its id is new, it names the active build and is newer or names none where there is none, and no edge cites unknown evidence, more than a thousand pieces, or has rows too long; which error refuses it is stated too |
| `EvidenceExact.PublishExactly` | crates/chaosbox-store/src/store.rs:481-485 | the whole state after a publication: active build, stored build and, for each of its relationships, the rows of the last edge with that id; nothing on refusal |
| `EvidenceExact.FactsFor` | crates/chaosbox-store/src/store.rs:406-461 | every build has the counts, named evidence and rows in terms of which acceptance is stated |
| `EvidenceExact.CoverageIs` | crates/chaosbox-store/src/store.rs:406-453 | the coverage agrees if and only if each count is that of the edges all of whose evidence is produced, supporting and of the class, and the fact counts add up |
| `EvidenceExact.RowsExact` | crates/chaosbox-store/src/sealed_evidence.rs:159-200 | sealing one edge yields one row per cited piece of evidence in ascending order with the stored fields, or the error of the first check that fails |
| `EvidenceExact.ClosureError` | crates/chaosbox-store/src/sealed_evidence.rs:135-149 | a closure that fails has the error of its first failing edge in key order |
| `EvidenceExact.DecisionExact` | crates/chaosbox-store/src/store.rs:292-310 | a decision replaces what its slot holds if and only if that failed or has another cache key |
| `EvidenceExact.FilesExact` | crates/chaosbox-store/src/store.rs:265-285 | a registration is refused if and only if it lists a foreign file; the files before the first such are registered, the last digest of a path standing |
| `EvidenceHistory.RefusedUnchangedExactly` | crates/chaosbox-store/src/store.rs:264-486 | a refused operation leaves every field unchanged if and only if it is not a registration with something new before the first foreign file and not one of a new run |
| `EvidenceHistory.FilesUnchangedExactly` | crates/chaosbox-store/src/store.rs:265-285 | registering a list changes nothing if and only if the last digest of every path before the first foreign file is registered already |
| `EvidenceHistory.WithFilesExact` | crates/chaosbox-store/src/store.rs:271-284 | every path before the first foreign file ends with its last listed digest and nothing else changes |
| `EvidenceHistory.RefusedRegistrationKeepsFirst` | crates/chaosbox-store/src/store.rs:271-284 | an instance: a refused registration that has kept its first file |
| `EvidenceHistory.SealedForGood` | crates/chaosbox-store/src/sealed_evidence.rs:63-82 | what a publication sealed for a relationship is the complete evidence of that moment, is accepted by the reader and is never changed by later operations |
| `EvidenceHistory.NeverRepublished` | crates/chaosbox-store/src/sealed_evidence.rs:72-77 | a published id is refused for ever |
| `EvidenceHistory.PublishedSealed` | crates/chaosbox-store/src/sealed_evidence.rs:78-81 | publication adds rows for exactly the relationships of the new build and touches no other |
| `EvidenceHistory.PublishedActive` | crates/chaosbox-store/src/store.rs:482-484 | after publication no stored build of the repository is newer than the active one |
| `EvidenceHistory.DecisionStands` | crates/chaosbox-store/src/store.rs:292-310 | a recorded answer stands as long as decisions for its slot carry the same cache key |
| `EvidenceHistory.SlotsExact` | crates/chaosbox-store/src/store.rs:298-298 | two pairs share a slot if and only if they are equal or one candidate id continues the other past a colon and the questions make up the difference |
| `EvidenceHistory.CandidatesConfusedExactly` | crates/chaosbox-store/src/store.rs:298-298 | two candidate ids can share a slot if and only if one continues the other past a colon; ids of one length, as minted ids are, never do |
| `EvidenceHistory.SlotsConfused` | crates/chaosbox-store/src/store.rs:298-298 | an instance of the failing side, which minted ids do not reach |
| `EvidenceSealing.RowsComplete` | crates/chaosbox-store/src/sealed_evidence.rs:159-200 | sealed rows are exactly the evidence named by the edge or any claim on it, contradictions included, each once, strictly ascending and within the limits, so the reader accepts them |
| `EvidenceSealing.RowsFailExactly` | crates/chaosbox-store/src/sealed_evidence.rs:159-200 | in a consistent store sealing an edge fails if and only if it names unknown evidence, more than a thousand rows, or rows too long to write |
| `EvidenceSealing.ClosureExact` | crates/chaosbox-store/src/sealed_evidence.rs:135-149 | the closure has one entry per edge id, the rows of the last edge with that id |
| `EvidenceSealing.ClosureFailsExactly` | crates/chaosbox-store/src/sealed_evidence.rs:135-149 | the closure fails if and only if the rows of some edge, shadowed or not, fail |
| `EvidenceSealing.DirectClassesDisjoint` | crates/chaosbox-store/src/store.rs:412-446 | no edge counts as both extracted and resolved, so the coverage subtraction cannot underflow |
| `EvidenceStore.ReadEvidence` | crates/chaosbox-pg/src/reader.rs:436-472 | the first rows up to the limit of a stored list that is short enough and strictly ascending, nothing for a missing list, and an error exactly when a check fails |
| `EvidenceStore.Counter.Write` | crates/chaosbox-store/src/sealed_evidence.rs:30-36 | a piece is accepted exactly when it fits in what is left of the limit |
| `EvidenceStore.Fits` | crates/chaosbox-store/src/sealed_evidence.rs:197-198 | however the rows are cut into pieces, they are accepted exactly when their total fits |
| `EvidenceStore.MemoryStore.ValidateClaim` | crates/chaosbox-store/src/sealed_evidence.rs:44-54 | true exactly when all cited evidence is stored |
| `EvidenceStore.MemoryStore.ClaimsByRelation` | crates/chaosbox-store/src/sealed_evidence.rs:151-157 | each group holds exactly the claims about its relation |
| `EvidenceStore.MemoryStore.CollectIds` | crates/chaosbox-store/src/sealed_evidence.rs:164-169 | the set of ids is the one named by the edge and its claims, unless a claim is unsound |
| `EvidenceStore.MemoryStore.ListRows` | crates/chaosbox-store/src/sealed_evidence.rs:173-196 | rows in ascending order of id, or failure at missing evidence or file |
| `EvidenceStore.MemoryStore.EvidenceRows` | crates/chaosbox-store/src/sealed_evidence.rs:159-200 | returns the specified rows or the specified error |
| `EvidenceStore.MemoryStore.EvidenceClosure` | crates/chaosbox-store/src/sealed_evidence.rs:135-149 | returns the specified closure, or the error of the first failing edge in key order |
| `EvidenceStore.MemoryStore.PublicationEvidence` | crates/chaosbox-store/src/sealed_evidence.rs:124-133 | returns the closure keyed by relationship |
| `EvidenceStore.MemoryStore.LastEdges` | crates/chaosbox-store/src/sealed_evidence.rs:87-98 | keeps the last edge of each id and fails only if the rows of some edge fail |
| `EvidenceStore.MemoryStore.StreamClosure` | crates/chaosbox-store/src/sealed_evidence.rs:105-118 | writes the closure object piece by piece in ascending key order |
| `EvidenceStore.MemoryStore.PublicationDigest` | crates/chaosbox-store/src/sealed_evidence.rs:83-120 | the text hashed is exactly the canonical text of the build and its publication evidence, and it exists exactly when that evidence does |
| `EvidenceExact.CanonicalExact` | crates/chaosbox-store/src/sealed_evidence.rs:83-120 | the canonical text is the build, then one member per relationship in ascending order, separated by commas, ended by a zero character |
| `EvidenceStore.MemoryStore.SealBuild` | crates/chaosbox-store/src/sealed_evidence.rs:72-82 | refuses a stored id, otherwise adds exactly the closure |
| `EvidenceStore.MemoryStore.CheckCoverage` | crates/chaosbox-store/src/store.rs:406-453 | true exactly when the coverage agrees with the counted provenance |
| `EvidenceStore.MemoryStore.CountDirect` | crates/chaosbox-store/src/store.rs:412-427 | the number of edges resting entirely on produced, supporting evidence of one class |
| `EvidenceStore.MemoryStore.CheckInside` | crates/chaosbox-store/src/store.rs:454-461 | true exactly when every edge joins nodes of the build |
| `EvidenceStore.MemoryStore.Publish` | crates/chaosbox-store/src/store.rs:400-486 | the whole new state and the outcome: nothing on refusal; on success rows added, pointer moved and build stored |
| `EvidenceStore.MemoryStore.EnsureSnapshotFiles` | crates/chaosbox-store/src/store.rs:265-285 | files are registered up to the first that lists another snapshot |
| `EvidenceStore.MemoryStore.PutEvidence` | crates/chaosbox-store/src/store.rs:322-334 | refused unless its file is registered; the first write wins |
| `EvidenceStore.MemoryStore.PutClaim` | crates/chaosbox-store/src/store.rs:335-342 | refused if it cites missing evidence or reuses an id for another claim |
| `EvidenceStore.MemoryStore.PutDecision` | crates/chaosbox-store/src/store.rs:292-310 | replaces an absent, failed or differently keyed decision and keeps any other |
| `EvidenceStore.MemoryStore.PutInference` | crates/chaosbox-store/src/store.rs:311-318 | the first write wins |
| `EvidenceStore.MemoryStore.EnsureRun` | crates/chaosbox-store/src/store.rs:357-387 | registers the run, then the set, and refuses a set registered with other inputs |
| `EvidenceStore.MemoryStore.PutCandidate` | crates/chaosbox-store/src/store.rs:388-399 | refused for an unregistered set; the first write wins |
| `BoundedSearch.BoundedPath` | crates/chaosbox-core/src/lib.rs:755-796 | a path is returned if and only if the end is within the hop limit; it is a simple walk from start to end and no walk is shorter |
| `BoundedSearch.Reachable` | crates/chaosbox-core/src/lib.rs:800-822 | the result is exactly the ball of the given radius without its centre |
| `BoundedSearch.Adjacency` | crates/chaosbox-core/src/lib.rs:763-771 | each row lists the other ends of the links of its node with their link ids, in link order, hence exactly its neighbours |
| `BoundedSearch.Expand` | crates/chaosbox-core/src/lib.rs:812-818 | expanding one node adds exactly its unseen neighbours, queued at the next distance, and the search stays exact |
| `BoundedSearch.ExpandTraced` | crates/chaosbox-core/src/lib.rs:776-792 | the same with back links, stopping exactly when the target is a neighbour, then at its exact distance |
| `BoundedSearch.VisitTraced` | crates/chaosbox-core/src/lib.rs:772-793 | one turn of the queue stops exactly when the front node is within the hop limit and adjacent to the target, and otherwise keeps the search exact |
| `BoundedSearch.TraceBack` | crates/chaosbox-core/src/lib.rs:781-788 | following back links gives a simple walk of exactly the distance |
| `BoundedSearch.Shortest` | crates/chaosbox-core/src/lib.rs:752-796 | no walk is shorter than the exact distance |
| `GraphSearch.WalkInBall` | crates/chaosbox-core/src/lib.rs:752-822 | a walk of k steps ends within the ball of radius k |
| `GraphSearch.BallHasWalk` | crates/chaosbox-core/src/lib.rs:752-822 | every member of the ball of radius k is reached by a walk of at most k steps |
| `GraphSearch.SearchDiscover` | crates/chaosbox-core/src/lib.rs:772-791 | a node first seen from the queue front gets its exact distance |
| `GraphSearch.SearchDone` | crates/chaosbox-core/src/lib.rs:772-795 | with an empty queue exactly the ball of the hop limit has been seen |
| `GraphSearch.BallSeen` | crates/chaosbox-core/src/lib.rs:772-795 | everything nearer than the front of the queue has been seen |
| `ContextSearch.RenderContext` | crates/chaosbox-core/src/navigation.rs:785-869 | fails exactly on a repeated id, a dangling link, or when not even the empty packet fits; the seeds are exactly the scoring nodes in order of score and id; the order is as many seeds as the budget allows, then breadth first by first parent and id, full unless it holds everything within reach; the packet is its longest prefix that fits, each link between kept nodes as often as listed and by id; the flag is clear exactly when nothing within depth of a lexical seed is missing |
| `ContextSearch.PacketLinks` | crates/chaosbox-core/src/navigation.rs:838-851 | the packet holds every link between kept nodes as often as it is listed, no other, by id |
| `ContextSearch.FlagExact` | crates/chaosbox-core/src/navigation.rs:814-867 | the flag is clear if and only if the kept nodes are everything within depth of a seed |
| `ContextSearch.Grow` | crates/chaosbox-core/src/navigation.rs:811-836 | the budgeted search yields the seeds, then nodes in breadth-first order with exact distances, and turns a node away only from a full order and only if one within depth is missing |
| `ContextSearch.GrowOne` | crates/chaosbox-core/src/navigation.rs:824-835 | appending an unseen neighbour keeps the order breadth first and distances exact |
| `ContextSearch.ExpandNode` | crates/chaosbox-core/src/navigation.rs:824-835 | expanding one node appends its unseen neighbours in ascending order while there is room |
| `ContextSearch.TurnAway` | crates/chaosbox-core/src/navigation.rs:828-831 | a node turned away is within depth and missing |
| `ContextSearch.KeptMisses` | crates/chaosbox-core/src/navigation.rs:863-867 | a node trimmed from the end is within depth, so trimming must set the flag |
| `ContextSearch.Trim` | crates/chaosbox-core/src/navigation.rs:837-868 | drops nodes from the end until the packet fits and fails only if the empty packet does not |
| `ContextSearch.InducedLinks` | crates/chaosbox-core/src/navigation.rs:838-851 | exactly the links with both ends kept, sorted by id, links of one id in their original order |
| `ContextSearch.BuildIndex` | crates/chaosbox-core/src/navigation.rs:53-69 | fails exactly on a repeated node id or a dangling link, otherwise indexes neighbours in both directions |
| `ContextSearch.Seeds` | crates/chaosbox-core/src/navigation.rs:794-810 | the scoring nodes by score descending, then by id |

## Left out

- Floating-point rounding: weights, gains, resolution and modularity are real numbers, so strict gains, independence of edge order and the unreachable second break are claims about exact arithmetic.
- Connectivity when the level cap is reached: the code does not promise it there, since the unrefined partition is returned.
- `usize` overflow of counters, sums and generations, and the `i64` conversion of generations, counts and limits.
- Ordered maps are maps over numbers traversed in ascending order; string identities are numbers except where their text matters (decision slots). Library sorts are modelled as insertion.
- JSON parsing and printing, SHA-256 and SQL text: encoders are arbitrary functions, a frame is classified by a parameter, and the digest is the text that is hashed. Hash collisions, including two repositories sharing an advisory lock number, are not modelled.
- The fixed preference among simultaneously ready `select!` arms: every order is allowed, so what is proved holds for the preferred one.
- The idle database connection of `serve_mcp` and what a call computes; a call is an event that delivers some response, or its refusal.
- Response tokens are numbers added to the model to state exactly-once delivery; the program has no such field.
- PgStore.Database.PublishTx: local staging checks, and writing node, edge, text and audit rows in the same transaction, are one success flag, because only the header, the history and the active row are shared between publishers; the staging checks themselves are the in-memory model.
- PgStore.Database.Prepare: the same flag stands for staging and row writes.
- Concurrent publication is modelled on values, one atomic step per statement; `PgStore` adds the sequential client.
- A repository query that fails before the commit is sent is a dropped connection that rolls back.
- Edge classes and navigation summaries.
- Lookups, `add_node`, `add_edge`, `outgoing`, `incoming`, build diffs: they would add only easy members.
- Lexical scoring and the serialised size of a context packet are parameters.
- Extraction, file walking, SCIP ingestion, inference clients, embeddings, rendering, the CLI and the Python scripts.
