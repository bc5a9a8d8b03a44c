# A verified model of the orchestration cores

This project models the parts of the repository whose correctness is not visible from any
single function, and proves what they promise for every input, every log and every
interleaving. `dafny verify dfyconfig.toml` checks all of it.

* **Clone detector** (`tools/quality/duplicates.py`): the stack-driven Merkle hasher
  (`Merkle`, `Digests`, `TreeDeletion`), the inverted index (`FuzzyGroups`), complete-link clustering (`Clusters`), the
  report of near duplicates (`FuzzyReport`), nested-finding suppression (`Pruning`) and the
  comparison with a base revision (`Findings`).
* **JSON-RPC peer and agent turns** (`_jsonrpc.py`, `_stdio.py`): the protocols as state
  machines, one step for each stretch of code between two suspension points (`JsonRpc`,
  `AcpTurn`, `AcpErrors`), and classes with the program's own fields that are proved to take those steps
  (`JsonRpcPeer`, `AcpClient`). The peer follows sections 4, 4.1, 5 and 5.1 of the JSON-RPC 2.0
  Specification.
* **Implementation/review workflow** (`Workflow`): the graph in supersteps, with everything that
  agents, CI and people decide left open.
* **Conversations** (`Conversation`, `ConversationContent`, `ConversationTurns`, `Steering`): an event log folded into
  a transcript; **approvals** (`Approvals`, `ApprovalsShown`, `ApprovalStore`): the store that is updated
  incrementally while the log is folded anew; **polling** (`Polling`): a page following a log;
  and all of it together on a page (`ConversationPage`).
* **Stand-ins** (`StandIns`, `StandInDraws`, `StandInPage`, `PortStandIns`, `TwoRuns`), the **run stream**
  (`RunStream`) and the **addresses** (`PercentEncoding`, `Routes`).

`Runs` holds the induction principles for runs of a step function; `SetFacts`, `Ordering` and
`Options` are shared helpers.

Six statements one might expect are false of the code. Each is kept as the code has it, shown by a
concrete input, and replaced by the exact condition:

* A turn can complete without an update that was read for it, in three ways: its session is closed
  while it is consumed (`AcpTurn.ClosedMidTurn`); or the session is closed and prompted again before
  an earlier turn of it is cleaned up, because it stops early (`AcpTurn.RobbedOfStream`) or only
  after its completion (`AcpTurn.ClosedBeforeCleanUp`), and the clean-up unregisters by session. It
  yields every update exactly when none was read after an event that unregistered its stream
  (`AcpTurn.YieldsAllExactly`).
* Deleting code can be a finding: the same statement deleted from three identical copies leaves three
  copies the base did not have (`Findings.ShortenedCopies`), and code can be shortened into copies
  the base did have (`Findings.ShortenedIntoOld`). There is none exactly when nothing grew: counting
  what joined each group and identity against what it lost (`Findings.DeletionExactly`).
* The comment on `portFor` says that stand-ins are distinct for every new port of one length. They
  are among the ports the page numbers itself, but a numbered port can coincide with the one shown
  for the daemon (`PortStandIns.DaemonMayCoincide`), exactly when that one reads like a number
  already handed out (`PortStandIns.AllDistinct`). A real port that equals a stand-in is shown as it
  is, and so like another (`PortStandIns.RealMayCoincide`, `PortStandIns.PortsShownApart`).
* Removing comments from a node keeps its digest unless the node loses its last child: then it
  turns into a leaf and its count changes from 0 to 1 (`Merkle.LoneComment`,
  `Merkle.CommentRemoval`).
* Different code can have the same digest even if the hash has no collision: a leaf that reads like the
  digest of a child (`Digests.LeafReadsLikeDigest`). With that excluded, digests are equal exactly for
  the same code (`Digests.DigestsExactly`).
* A page that is shown another run files the requests it still holds under the new conversation
  (`ConversationPage.StalePublished`), exactly when it holds any (`ConversationPage.StaleExactly`).
  The application reads its address once, so this needs a page that is reused.

## Model

| member | source | states |
|---|---|---|
| `Merkle.Fingerprints` | tools/quality/duplicates.py:39-79 | The explicit-stack traversal terminates, finds every child value it pops, and yields exactly the digests, leaf counts and nodes of the recursive definition in post-order; a tree with a parse error yields an error instead |
| `Merkle.Advance` | tools/quality/duplicates.py:46-79 | One turn of the loop keeps the machine able to run to its end, and what it yields followed by what then remains is what remained before |
| `Merkle.Finish` | tools/quality/duplicates.py:56-77 | A finished node gets the value of the recursive definition, and its children's values leave the dictionary |
| `Merkle.Collect` | tools/quality/duplicates.py:72-75 | Popping the children in order gives their joined digests and summed counts and removes exactly their entries |
| `Merkle.SameCodeSamePrints` | tools/quality/duplicates.py:47-79 | Trees that differ at most in comments, ids, byte ranges and (blinded) hidden leaf texts have the same digest, count and sequence of fingerprints |
| `Merkle.CommentRemoval` | tools/quality/duplicates.py:48-75 | Removing the comment children of one node keeps its count if and only if a child is left, and then keeps its digest too |
| `Merkle.LoneComment` | tools/quality/duplicates.py:48-75 | A module that holds nothing but a comment counts 0, and 1 once the comment is removed |
| `Merkle.StripKeepsPrints` | tools/quality/duplicates.py:48-79 | Removing comments throughout a tree, wherever a node keeps another child, keeps its digest and count and every fingerprint, in order |
| `Merkle.StrippedIsSameCode` | tools/quality/duplicates.py:48-55 | The stripped tree is the same code as the tree |
| `Merkle.RenamedIsSameCode` | tools/quality/duplicates.py:57-69 | Changing the text of blinded leaves only gives the same code |
| `Merkle.RenamingKeepsPrints` | tools/quality/duplicates.py:57-79 | Renaming identifiers and changing literals keeps every blinded digest and count of the whole tree, in order |
| `Digests.DigestsExactly` | tools/quality/duplicates.py:56-77 | Two nodes have the same digest if and only if they are the same code, given a hash without collisions on what is hashed and of one length, kinds without NUL, and no leaf that reads like digests |
| `Digests.LeavesExactly` | tools/quality/duplicates.py:57-69 | Two leaves are the same code if and only if their kinds are hashed alike and, unless both are blinded names, strings or numbers, the file has the same bytes where they stand |
| `Digests.KindsExactly` | tools/quality/duplicates.py:57-65 | Blinded, two kinds are hashed alike if and only if both are names, both strings, both numbers, or both the same; otherwise if and only if they are the same |
| `Digests.LeavesAre` | tools/quality/duplicates.py:51-51 | A node is a leaf if and only if it has no children or is a literal |
| `Digests.SkippedAre` | tools/quality/duplicates.py:48-50 | Kinds that contain the word comment are skipped, in Python continuations too, and nothing else |
| `Digests.LeafReadsLikeDigest` | tools/quality/duplicates.py:65-75 | Whatever the hash, a leaf that reads like a child's digest has the digest of the node with that child |
| `TreeDeletion.PrintsWithout` | tools/quality/duplicates.py:46-79 | Deleting a subtree leaves every fingerprint as it is, in order, except the subtree's, which are gone, and its ancestors', which are replaced by those of what the ancestors became |
| `TreeDeletion.SubtreeDeleted` | tools/quality/duplicates.py:46-79 | So the file that is left, wherever its byte ranges moved, has the digests and counts of the old one but for the subtree's and its ancestors' |
| `FuzzyGroups.Candidates` | tools/quality/duplicates.py:103-105 | The candidates are exactly the units listed under one of the shingles for the language |
| `FuzzyGroups.Post` | tools/quality/duplicates.py:111-112 | A unit is listed under each of its shingles and no other listing changes |
| `FuzzyGroups.AddEdges` | tools/quality/duplicates.py:106-110 | Exactly the candidates that reach the threshold get an edge, with their score |
| `FuzzyGroups.ScoreMeans` | tools/quality/duplicates.py:107-108 | The score times the union is the intersection; it is 1 exactly for equal sets and 0 exactly for disjoint ones |
| `FuzzyGroups.FindEdges` | tools/quality/duplicates.py:99-112 | For every unit list and threshold in (0, 1], the edges found through the growing index are exactly the same-language pairs that brute-force Jaccard accepts, with their scores |
| `FuzzyGroups.CandidatesMeaning` | tools/quality/duplicates.py:102-105 | With an index of the earlier units, the candidates are the earlier units of the language that share a shingle |
| `Clusters.Cluster` | tools/quality/duplicates.py:113-127 | Every unit is in the lowest-numbered cluster all of whose members neighbour it, all clusters considered although only neighbours' clusters are tried; clusters and membership agree, so the units are partitioned |
| `Clusters.Choose` | tools/quality/duplicates.py:118-127 | The choice fits and no lower-numbered cluster does |
| `Clusters.Join` | tools/quality/duplicates.py:122-127 | Joining or opening a cluster keeps clusters and membership in agreement |
| `Clusters.FirstFitUnique` | tools/quality/duplicates.py:117-127 | First fit determines the clustering |
| `Clusters.CompleteLink` | tools/quality/duplicates.py:93-98 | Every pair inside a cluster is a pair of neighbours |
| `Clusters.NoMerge` | tools/quality/duplicates.py:93-98 | Every unit of a cluster misses a neighbour in each lower-numbered cluster, so no two clusters could be merged into one clique |
| `Clusters.MembersListed` | tools/quality/duplicates.py:113-127 | A cluster lists exactly the units labelled with it, in increasing order |
| `FuzzyReport.ClusterReportable` | tools/quality/duplicates.py:134-136 | Every pair of a cluster has an edge, so every later lookup of an edge is defined |
| `FuzzyReport.EdgeScore` | tools/quality/duplicates.py:135-136 | Looking an edge up by smaller and larger index gives the similarity of the pair, which reaches the threshold |
| `FuzzyReport.Compare` | tools/quality/duplicates.py:133-144 | A member is described against its least similar peer, the earliest among equals, with the shingles each has and the other lacks |
| `FuzzyReport.Describe` | tools/quality/duplicates.py:132-148 | A group describes each member of its cluster and has the least of their sizes |
| `FuzzyReport.IdentityMeans` | tools/quality/duplicates.py:145-147 | A group's identity holds the path and blinded hash of each member, sorted by path and then by hash |
| `FuzzyReport.ReportOne` | tools/quality/duplicates.py:130-148 | A cluster is reported if and only if it spans three files, under the key of its sorted paths and blinded hashes |
| `FuzzyReport.Report` | tools/quality/duplicates.py:128-149 | The report holds nothing but qualifying clusters, and the key of every qualifying one; of clusters that share a key, the last is the one kept |
| `FuzzyReport.Groups` | tools/quality/duplicates.py:93-149 | The whole grouping: sorted units, first-fit clusters of the brute-force similarity graph, and their report |
| `Pruning.PruneNested` | tools/quality/duplicates.py:169-183 | The loop keeps what the ordered, recursive definition keeps |
| `Pruning.PrunedFacts` | tools/quality/duplicates.py:169-183 | Pruning invents nothing; every input location lies inside a location of a kept group with the same path set; no kept group is covered by one kept before it; nothing is left only if there was nothing |
| `Pruning.NestedSuppressed` | tools/quality/duplicates.py:171-182 | A finding whose locations lie inside those of a larger one, one in one and some smaller, is not reported |
| `Pruning.CoveredSuppressed` | tools/quality/duplicates.py:172-182 | Neither is one that is covered by a finding with more bytes, or as many and an earlier kind (exact, type2, type3), or key |
| `Pruning.PrunedExactly` | tools/quality/duplicates.py:169-183 | Without the loop: a finding is reported if and only if no earlier one of the dictionary covers it |
| `Pruning.OwnSpreadKept` | tools/quality/duplicates.py:176-177 | A finding with a file spread of its own is always reported |
| `Pruning.PruneOrderFree` | tools/quality/duplicates.py:172-174 | The result does not depend on the order of the input |
| `Pruning.PruneIdempotent` | tools/quality/duplicates.py:169-183 | Pruning twice is pruning once |
| `Findings.NewDuplication` | tools/quality/duplicates.py:269-280 | Without stored groups the units are grouped at 0.8: the report of the first-fit clusters of the sorted units. The findings are the pruned new ones, in whatever order they were collected, each a new near-duplicate group with its members' locations or a new exact or type-2 group; there are none if and only if nothing is new, which for a revision made by deletion is if and only if nothing grew |
| `Findings.CollectDirect` | tools/quality/duplicates.py:270-278 | Collects exactly the groups that span three files and grew in files or copies |
| `Findings.CollectFuzzy` | tools/quality/duplicates.py:158-166 | Collects exactly the near-duplicate groups that spread to more files or have an identity that became more frequent |
| `Findings.GroupsOf` | tools/quality/duplicates.py:155-157 | Stored groups are taken as they are; otherwise the units are grouped at 0.8 |
| `Findings.FuzzilyNewMeans` | tools/quality/duplicates.py:153-165 | A group is new if and only if a member's language and exact hash became more frequent, or its files outnumber those that had units with a member's language and exact hash |
| `Findings.ListingsPruneAlike` | tools/quality/duplicates.py:169-183 | Any two listings of one dictionary are pruned alike |
| `Findings.GroupsOwnUnits` | tools/quality/duplicates.py:128-149 | The grouping never invents a unit |
| `Findings.DeletionPasses` | tools/quality/duplicates.py:93-166 | A revision obtained by deleting whole units and locations, shifting byte ranges and injectively renaming files, in which nothing was shortened, has no findings, however deletion reshuffled the greedy clusters and their keys |
| `Findings.DeletionExactly` | tools/quality/duplicates.py:152-280 | A revision made by deletion, shifting and injective renaming, shortened code included, has no findings if and only if no group that spans three files gained more files or copies than it lost, and no near-duplicate group more files than its identities lost, nor one of its identities more units than it lost |
| `Findings.DirectExactly` | tools/quality/duplicates.py:270-278 | An exact or type-2 group is found if and only if it spans three files and gained more files or more copies than it lost |
| `Findings.FuzzyExactly` | tools/quality/duplicates.py:152-166 | A near-duplicate group is found if and only if it gained more files than its identities lost, or one of its identities gained more units than it lost |
| `Findings.ShortenedCopies` | tools/quality/duplicates.py:270-278 | A concrete revision: the same statement deleted from three identical copies is a finding |
| `Findings.ShortenedIntoOld` | tools/quality/duplicates.py:270-278 | A concrete revision: code shortened to what three other files already hold is a finding although the base had the group |
| `JsonRpc.EveryRunKeeps` | langgraph-acp/src/langgraph_acp/_jsonrpc.py:82-247 | On every interleaving: ids are handed out and written once; every waiting caller's future is pending or settled; a caller returns what its future was settled with; each incoming request is answered at most once, under its own id; after the end nothing is pending |
| `JsonRpc.InvKept` | langgraph-acp/src/langgraph_acp/_jsonrpc.py:82-247 | Every step keeps that invariant |
| `JsonRpc.FailKeeps` | langgraph-acp/src/langgraph_acp/_jsonrpc.py:243-247 | Failing what is pending settles the future of every caller still waiting |
| `JsonRpc.SettledStays` | langgraph-acp/src/langgraph_acp/_jsonrpc.py:208-209 | No step changes a settled future |
| `JsonRpc.SettledBy` | langgraph-acp/src/langgraph_acp/_jsonrpc.py:203-222 | A step settles an open future if and only if it is a response with its own id read while it is pending, the end of the connection, or the cancellation of its caller |
| `JsonRpc.SettledOnce` | langgraph-acp/src/langgraph_acp/_jsonrpc.py:82-106 | Exactly one event of a run settles a settled request, and a reply comes from a response with the request's own id that carries this reply |
| `JsonRpc.NobodyLeftWaiting` | langgraph-acp/src/langgraph_acp/_jsonrpc.py:126-168 | Once what was pending has been failed, no caller waits on an open future, and no later event can make one |
| `JsonRpc.StrangersIgnored` | langgraph-acp/src/langgraph_acp/_jsonrpc.py:188-209 | Late, foreign and malformed responses change nothing; calls of the far side never touch our requests, whatever id they carry; notifications are not answered |
| `JsonRpc.ReplyReadsBack` | langgraph-acp/src/langgraph_acp/_jsonrpc.py:203-241 | Every reply, as it is written, reads back as that reply under the id of its request |
| `JsonRpc.RequestReadsBack` | langgraph-acp/src/langgraph_acp/_jsonrpc.py:94-101 | Every request, as it is written, reads as a call of that method with those parameters |
| `JsonRpc.ErrorsAreRead` | langgraph-acp/src/langgraph_acp/_jsonrpc.py:210-222 | A response is an error if and only if it has an error object, with the replacements for a code that is no integer and a message that is no text |
| `JsonRpc.CallGoesRound` | langgraph-acp/src/langgraph_acp/_jsonrpc.py:82-106 | Between two running peers, a request reaches the callback with its method and parameters, and the callback's reply settles that request |
| `JsonRpcPeer.SettleOpen` | langgraph-acp/src/langgraph_acp/_jsonrpc.py:243-247 | The loop fails exactly the pending futures that are open |
| `JsonRpcPeer.Peer.Request` | langgraph-acp/src/langgraph_acp/_jsonrpc.py:82-102 | Refuses when closed, else takes a new id, registers an open future and writes; unregisters if the transport is closing |
| `JsonRpcPeer.Peer.AfterWait` | langgraph-acp/src/langgraph_acp/_jsonrpc.py:102-106 | The caller returns with its future's outcome and its entry is gone |
| `JsonRpcPeer.Peer.Dispatch` | langgraph-acp/src/langgraph_acp/_jsonrpc.py:188-201 | An object is a notification, a request to answer, or a response |
| `JsonRpcPeer.Peer.ResolveResponse` | langgraph-acp/src/langgraph_acp/_jsonrpc.py:203-222 | Settles the open future pending under the response's id, and nothing else |
| `JsonRpcPeer.Peer.Answer` | langgraph-acp/src/langgraph_acp/_jsonrpc.py:224-241 | Writes the answer under the request's id unless the connection is gone |
| `JsonRpcPeer.Peer.EndReported` | langgraph-acp/src/langgraph_acp/_jsonrpc.py:164-168 | Then every caller still waiting has a settled future |
| `JsonRpcPeer.Peer.Aclose` | langgraph-acp/src/langgraph_acp/_jsonrpc.py:126-136 | Closing settles every future a caller waits on |
| `AcpTurn.CompletionsNeverStray` | langgraph-acp/src/langgraph_acp/_stdio.py:657-674 | On every interleaving a completion is only ever in the queue of the turn whose own task queued it, so a cancelled turn's completion is in none |
| `AcpTurn.TurnYieldsAll` | langgraph-acp/src/langgraph_acp/_stdio.py:597-649 | Unless a session is closed that has a turn not yet cleaned up, a turn that ran to its end yielded every update of its session read between its opening and its completion, in order, then its completion, and nothing else |
| `AcpTurn.YieldsAllExactly` | langgraph-acp/src/langgraph_acp/_stdio.py:365-382 | On every interleaving, a completed turn yielded every update of its session read between its opening and its completion, and then its completion, if and only if none of them was read after an event that unregistered its stream: the session or the client closed, or another turn of the same session cleaned up |
| `AcpTurn.YieldsFiled` | langgraph-acp/src/langgraph_acp/_stdio.py:466-473 | A completed turn yielded exactly the updates filed with it, in order, then its completion |
| `AcpTurn.RegisteredUntilPopped` | langgraph-acp/src/langgraph_acp/_stdio.py:365-382 | A turn not yet cleaned up has its session's stream until such an event and never again after it |
| `AcpTurn.ClosedMidTurn` | langgraph-acp/src/langgraph_acp/_stdio.py:654-655 | A concrete run in which closing the session mid-turn loses an update of a turn that completes |
| `AcpTurn.RobbedOfStream` | langgraph-acp/src/langgraph_acp/_stdio.py:639-649 | A concrete run in which stopping one turn unregisters the stream of a later turn of the same session, which completes without an update |
| `AcpTurn.ClosedBeforeCleanUp` | langgraph-acp/src/langgraph_acp/_stdio.py:635-640 | A concrete run in which no session is closed while a turn waits for an item: the session is closed and prompted again between a turn's completion and its clean-up, and the second turn completes without an update |
| `AcpTurn.StreamsKept` | langgraph-acp/src/langgraph_acp/_stdio.py:365-382 | If no session is closed that has a turn not yet cleaned up and a closed client reads nothing, such a turn keeps its session's stream |
| `AcpTurn.QueueChange` | langgraph-acp/src/langgraph_acp/_stdio.py:446-473 | All a step can do to a turn's queue: nothing, take the first item, add an update, or add the turn's own completion once |
| `AcpErrors.ErrorsFailTurns` | langgraph-acp/src/langgraph_acp/_stdio.py:628-638 | On every run a consumer is given the completion if and only if the answer is no error and the last 8192 characters it was given, no tool having run, are no provider's error; otherwise the turn fails and yields nothing more |
| `AcpErrors.UpdatesPassOn` | langgraph-acp/src/langgraph_acp/_stdio.py:612-627 | An update is passed on, except an error, which fails the turn at once |
| `AcpClient.Client.OpenStream` | langgraph-acp/src/langgraph_acp/_stdio.py:365-379 | A session's updates are claimed by a new turn, and refused while another turn has them |
| `AcpClient.Client.Deliver` | langgraph-acp/src/langgraph_acp/_stdio.py:466-473 | Files an update with the streaming turn of its session, or drops it |
| `AcpClient.Client.FinishRun` | langgraph-acp/src/langgraph_acp/_stdio.py:657-674 | The completion goes behind the updates that preceded it, in the turn's own queue |
| `AcpClient.Client.FinishUnread` | langgraph-acp/src/langgraph_acp/_stdio.py:671-674 | An answer that cannot be read queues nothing |
| `AcpClient.Client.Leave` | langgraph-acp/src/langgraph_acp/_stdio.py:639-649 | The generator's clean-up unregisters the stream by session and cancels a running request |
| `AcpClient.Client.Next` | langgraph-acp/src/langgraph_acp/_stdio.py:610-638 | The consumer is given an update, an error, or the completion, after which the generator is still to be cleaned up |
| `AcpClient.Client.StopConsuming` | langgraph-acp/src/langgraph_acp/_stdio.py:639-649 | The generator is cleaned up when it is closed early, or resumed after its last item |
| `Workflow.ReviewModeKept` | workflows/implementation_review_graph.py:227-247 | Naming the ref keeps a review run in review and the others out of it; only a review run can fail there |
| `Workflow.RefNamed` | workflows/implementation_review_graph.py:230-238 | The ref of a review: the head of the change request it names, else the branch given, else the head; nothing else of the inputs changes, and only an unreadable change request fails |
| `Workflow.ReviewingMeans` | workflows/implementation_review_graph.py:243-247 | A run is in review when it says so, or is given a ref or a change request |
| `Workflow.EnabledMeans` | workflows/implementation_review_graph.py:223-224 | A switch is on if and only if it reads true in any mixture of cases |
| `Workflow.OptionalNodes` | workflows/implementation_review_graph.py:306-309 | On every run the specification, the refutation and the verification run only where they were asked for |
| `Workflow.TargetsOfFacets` | workflows/implementation_review_graph.py:576-583 | All review facets converge on one node |
| `Workflow.StepAt` | workflows/implementation_review_graph.py:562-595 | A superstep moves the whole run from one place (a node, or all facets at once) to the next |
| `Workflow.EveryRun` | workflows/implementation_review_graph.py:562-595 | On every run, whatever agents, CI and people decide, the invariant holds and the mode is the one the run started in |
| `Workflow.PromptMatchesEdge` | workflows/implementation_review_graph.py:275-332 | Every time implementation ran it ran alone, with the base prompt from naming, the CI prompt from a failed check, the findings prompt from the reranker or triage |
| `Workflow.ImpactIsReviewed` | workflows/implementation_review_graph.py:306-332 | At impact analysis CI has passed since the last implementation, and every facet and then the reranker have run since that pass |
| `Workflow.RunsAreBounded` | workflows/implementation_review_graph.py:208-211 | Non-review runs never reach triage, run the reranker at most twice, make at most one findings-driven fix and take at most 16 supersteps plus two per CI failure; review runs never reach naming, impact analysis or human review |
| `Workflow.RunsEnd` | workflows/implementation_review_graph.py:306-332 | A non-review run in which CI fails finitely often ends |
| `Conversation.TranscriptWellFormed` | apps/web/src/graph-conversation.tsx:142-301 | For every log: no two adjacent assistant turns, no empty turn, no two adjacent reasoning parts, and exactly one tool-call part for each call id seen and for no other |
| `Conversation.StepEdits` | apps/web/src/graph-conversation.tsx:199-301 | Every event appends a turn, extends the last assistant turn, says more about one part, or changes nothing |
| `ConversationContent.NothingLost` | apps/web/src/graph-conversation.tsx:202-239 | For every log, what the assistant turns say, and all reasoning put end to end, is exactly what the log has the node say and think, in order |
| `ConversationContent.CallsProject` | apps/web/src/graph-conversation.tsx:175-197 | Every tool-call part is what the events about that call alone make it |
| `ConversationTurns.OpenedBy` | apps/web/src/graph-conversation.tsx:160-174 | Every turn was opened by an event that came when all earlier turns were there; its id is that event's number, and a person's turn shows that event's words |
| `ConversationTurns.FailureShown` | apps/web/src/graph-conversation.tsx:292-297 | The failure shown is that of the last failing event, unless the run was forked after it |
| `ConversationTurns.BlankMeans` | apps/web/src/graph-conversation.tsx:233-233 | A thought is passed over if and only if trimming leaves nothing of it |
| `Steering.ShownExactly` | apps/web/src/graph-conversation.tsx:202-226 | For every text, the user turns showing it are the sends of it plus the most by which pickups were ever ahead of sends |
| `Steering.MostAheadIsMaximum` | apps/web/src/graph-conversation.tsx:148-148 | That most is the maximum over all prefixes of the log, floored at 0 |
| `Steering.ShownOnce` | apps/web/src/graph-conversation.tsx:209-225 | If every pickup follows its send, each sent message is shown exactly once |
| `Approvals.OpenShownOnce` | apps/web/src/graph-conversation.tsx:303-332 | With unique ids, every open request is in exactly one of `requests` and `unplaced`, once |
| `Approvals.RequestsAreRaised` | apps/web/src/graph-conversation.tsx:261-313 | The requests presented are those the log raised, in order |
| `ApprovalsShown.Presented` | apps/web/src/graph-conversation.tsx:279-362 | Every placed approval has its request event's kind, reason, command, tool and call; waits if and only if it is open; is decided if and only if it is not open and the log's last word on it is a decision; shows that decision if it is a known one; offers the known choices of its open entry; and stands at the open assistant turn, else the next |
| `ApprovalsShown.PresentedApart` | apps/web/src/graph-conversation.tsx:314-331 | Every approval held apart is an open request the log did not raise, in order; it waits, has no turn, and says what the snapshot says |
| `ApprovalsShown.PermittedMeans` | apps/web/src/graph-conversation.tsx:356-358 | The choices offered are the known ones among those allowed, in order |
| `ApprovalsShown.ResolvedIsLastWord` | apps/web/src/graph-conversation.tsx:153-158 | The decision collected for a request is that of the last event that resolves it |
| `Approvals.PrefixStable` | apps/web/src/graph-conversation.tsx:142-301 | As the log grows, requests keep their positions and turns keep their role and id |
| `Approvals.StoreTracks` | apps/web/src/graph-conversation.tsx:702-705 | After any polls the store has the requests of the longest log seen, in order, each with its turn |
| `Approvals.StoreEqualsFold` | apps/web/src/graph-conversation.tsx:702-705 | After any number of polls of a growing log, the store equals the latest fold's `requests`, contents, order and turns, if and only if no id was raised twice |
| `ApprovalStore.CollectResolved` | apps/web/src/graph-conversation.tsx:153-158 | The first pass collects the last decision for each request |
| `ApprovalStore.GraphConversation` | apps/web/src/graph-conversation.tsx:138-333 | The two loops compute the fold, its requests and the unplaced ones |
| `ApprovalStore.Store.Publish` | apps/web/src/approvals.ts:55-78 | Replaces the entry of the same id in place, keeping its turn, or appends; other threads are untouched; listeners are told if and only if something changed |
| `ApprovalStore.Store.PublishConversation` | apps/web/src/graph-conversation.tsx:702-705 | Publishes every request of a fold in order |
| `Polling.EveryRunKeeps` | apps/web/src/graph-conversation.tsx:420-482 | On every interleaving at most one load is in force, and it asks for what comes right behind what the page holds |
| `Polling.PageHoldsPrefix` | apps/web/src/graph-conversation.tsx:420-482 | At every moment the page holds exactly the events of its run's log up to its cursor: no gap, no duplicate, nothing of another run |
| `Polling.ServedIsNext` | apps/web/src/graph-conversation.tsx:438-441 | What an append-only log returns after the cursor is what comes next behind the events held |
| `Polling.AdvanceCursor` | apps/web/src/graph-conversation.tsx:445-447 | The loop moves the cursor to the largest sequence number of the feed |
| `ConversationPage.OfNodeMeans` | apps/web/src/graph-conversation.tsx:671-674 | A conversation is folded from its node's events and the run's forks, in order, and from nothing else |
| `ConversationPage.EveryRunKeeps` | apps/web/src/graph-conversation.tsx:671-705 | On every interleaving of polls, refreshes, node changes, failures, cancelled loads, publications, and run changes at which the events still held raised no request, the store of every conversation is what publishing the folds of its own log made it |
| `ConversationPage.StaleExactly` | apps/web/src/graph-conversation.tsx:428-433 | Showing another run leaves its conversation's store empty if and only if the events still held, which are published under it, raised no request |
| `ConversationPage.StalePublished` | apps/web/src/graph-conversation.tsx:702-705 | A concrete run change that files a request under a conversation whose log is empty |
| `ConversationPage.PublishedIsFold` | apps/web/src/graph-conversation.tsx:680-705 | A publication that folded at least as much as any before leaves the store equal to the fold of what the page holds, if and only if no id was raised twice there |
| `ConversationPage.StoreIsFoldOfLog` | apps/web/src/graph-conversation.tsx:420-482 | For a page that stays with its run, every publication leaves the store equal to the requests folded from exactly the log's events up to the cursor, if and only if no id was raised twice among them |
| `StandIns.NextNotZero` | e2e/terminal/page/stand-ins.ts:103-110 | The 32-bit xorshift never steps to 0 |
| `StandIns.SeedNeverZero` | e2e/terminal/page/stand-ins.ts:103-110 | On every run the state of the sequence is not 0 |
| `StandIns.FillAt` | e2e/terminal/page/stand-ins.ts:75-86 | A stand-in has the id's length and kept characters, and hexadecimal digits elsewhere |
| `StandInDraws.GapShowsDraw` | e2e/terminal/page/stand-ins.ts:81-81 | Every replaced digit shows the low four bits of a draw of its own, one draw for each |
| `StandInDraws.FirstDraws` | e2e/terminal/page/stand-ins.ts:103-110 | The first three draws of any page |
| `StandInDraws.EngineIdExactly` | e2e/terminal/page/stand-ins.ts:80-80 | An engine id is a lower-case word, a dash and exactly twelve hexadecimal digits |
| `StandInDraws.OtherIdsReplaced` | e2e/terminal/page/stand-ins.ts:79-81 | Of any other id every hexadecimal digit is replaced, and nothing else |
| `StandIns.EngineIdKept` | e2e/terminal/page/stand-ins.ts:79-81 | The stand-in of an engine id is an engine id with the same prefix |
| `StandIns.AssignedForGood` | e2e/terminal/page/stand-ins.ts:75-86 | An assigned stand-in of an id is never replaced |
| `StandIns.PortAssignedForGood` | e2e/terminal/page/stand-ins.ts:88-100 | Nor is that of a port |
| `StandIns.Reapplied` | e2e/terminal/page/stand-ins.ts:75-100 | On every run, applying to what is already shown changes neither the text nor the state |
| `StandInPage.Page.constructor` | e2e/terminal/page/stand-ins.ts:45-50 | A fresh page, with the daemon's port if given |
| `StandInPage.Page.StandInFor` | e2e/terminal/page/stand-ins.ts:75-86 | Replacing digit by digit gives the specified stand-in and state |
| `StandInPage.Page.PortFor` | e2e/terminal/page/stand-ins.ts:88-100 | Gives the specified stand-in and enters it if the port is new |
| `StandInPage.Page.Apply` | e2e/terminal/page/stand-ins.ts:63-73 | Token by token, the page shows what the run of the specification shows |
| `PortStandIns.PortTextIsFixed` | e2e/terminal/page/stand-ins.ts:96-96 | Cutting and padding gives the last digits of the number, zeros included |
| `PortStandIns.FixedDiffers` | e2e/terminal/page/stand-ins.ts:92-96 | Numbers less than a power of ten apart do not share so many last digits |
| `PortStandIns.FewPorts` | e2e/terminal/page/stand-ins.ts:92-95 | There are no more known ports of a length than numbers of that length |
| `PortStandIns.PortsDistinct` | e2e/terminal/page/stand-ins.ts:92-96 | On every run all ports numbered by the page get different stand-ins, across all lengths |
| `PortStandIns.AllDistinct` | e2e/terminal/page/stand-ins.ts:45-48 | With a daemon port, all stand-ins differ if and only if the daemon's does not read like a number handed out |
| `PortStandIns.PortsShownApart` | e2e/terminal/page/stand-ins.ts:88-100 | On every run, a port that was no stand-in when it came and a different port, neither the daemon's, are shown alike if and only if the second is the first one's stand-in |
| `PortStandIns.ShownLike` | e2e/terminal/page/stand-ins.ts:88-100 | The same on any page whose ports were numbered |
| `PortStandIns.RealMayCoincide` | e2e/terminal/page/stand-ins.ts:89-89 | Without a daemon, ports 40000 and then 54321 are both shown as 54321 |
| `PortStandIns.DaemonMayCoincide` | e2e/terminal/page/stand-ins.ts:45-48 | A concrete page on which two ports get one stand-in |
| `TwoRuns.RunsAgree` | e2e/terminal/page/stand-ins.ts:75-100 | Two runs with the same shapes and the same equality pattern stay in corresponding states |
| `TwoRuns.SameEverywhere` | e2e/terminal/page/stand-ins.ts:75-110 | If moreover no real value equals an issued stand-in, they show the same text at every position |
| `RunStream.SplitLines` | apps/web/src/runtime.tsx:223-225 | Takes exactly the finished lines off the buffer |
| `RunStream.LinesUnique` | apps/web/src/runtime.tsx:224-225 | A text is taken apart at its line feeds in one way only |
| `RunStream.LinesOfCut` | apps/web/src/runtime.tsx:222-225 | What was left before a cut, continued by what follows it, has the lines still missing |
| `RunStream.UpToFirstFailure` | apps/web/src/runtime.tsx:226-241 | A reader has the effects of the non-empty lines up to the first failing one, and stops with its message |
| `RunStream.WholeStream` | apps/web/src/runtime.tsx:218-243 | A stream amounts to its newline-terminated lines up to the first error; the unterminated rest is never read |
| `RunStream.ReadChunk` | apps/web/src/runtime.tsx:226-241 | The lines of a chunk yield and publish in order and stop at an error |
| `RunStream.ReadRunResponse` | apps/web/src/runtime.tsx:218-243 | For every way of cutting the stream into chunks, contents, published approvals, error and the thread's stored approvals are those of the whole stream |
| `PercentEncoding.RoundTrip` | apps/web/src/api.ts:209-211 | Decoding undoes encoding on every text that can be encoded |
| `PercentEncoding.EncodeDefined` | apps/web/src/api.ts:209-211 | A text can be encoded if and only if no half of a surrogate pair stands alone |
| `PercentEncoding.EncodedPlain` | apps/web/src/api.ts:209-211 | An encoded component has unreserved characters and escapes only (section 2.1 of RFC 3986), so no slash |
| `PercentEncoding.PointOfOctets` | apps/web/src/routes.ts:29-31 | The UTF-8 octets of every scalar value decode to it |
| `PercentEncoding.PointExactly` | apps/web/src/routes.ts:29-33 | The decoder takes octets for a code point if and only if they are its UTF-8 form |
| `PercentEncoding.UnreservedAre` | apps/web/src/api.ts:209-211 | The characters that stand for themselves |
| `PercentEncoding.EscapedExamples` | apps/web/src/api.ts:209-211 | Escapes are written in upper case |
| `Routes.RunsMatchExact` | apps/web/src/routes.ts:25-36 | The pattern matches exactly the paths of its form and finds their two segments |
| `Routes.NoEmptyIds` | apps/web/src/routes.ts:25-33 | No path whatever routes to a conversation without a run or a node |
| `Routes.ConversationRoundTrip` | apps/web/src/api.ts:209-211 | Routing the printed address of a conversation gives back its ids if and only if neither is empty |
| `Routes.LoopRoundTrip` | apps/web/src/routes.ts:22-24 | The address of a loop leads back to it if and only if its id is neither empty nor `new` |
| `Routes.RunRoundTrip` | apps/web/src/routes.ts:43-44 | The address of a run leads back to it if and only if its id is neither empty nor `new` |
| `Routes.StepRoundTrip` | apps/web/src/routes.ts:34-42 | The address of a step's conversation leads back to it if and only if neither id is empty and the thread's does not begin with `graph--` and go on |
| `Routes.ThreadRoundTrip` | apps/web/src/routes.ts:45-46 | The address of a conversation on its own leads back to it if and only if its id is not empty |
| `Routes.FixedPages` | apps/web/src/routes.ts:17-21 | The pages with an address of their own, with or without a slash at the end |
| `Routes.NewPages` | apps/web/src/routes.ts:20-22 | The pages of a new run and a new loop |

## Left out

- SHA-256 and the JSON text of an identity are function parameters, so every statement holds for any hash; hexadecimal rendering of digests is not modelled.
- Tree-sitter, file walking, unit extraction, exceptions, configuration and the command line of the clone detector; parsing is represented by an error flag and a syntax tree whose nodes have distinct ids.
- Jaccard scores are exact reals instead of floating-point quotients.
- FuzzyReport.Compare: does not attach the source excerpts of the differing shingles, which are copied from the units for display; the sorted lists of shingles are sets.
- Findings.DeletionPasses: covers deletion of whole records; deletion that shortens code is covered by `Findings.DeletionExactly`. Both are stated on unit and location records, because extracting records from syntax trees is not modelled; stored groups have to consist of the revision's own units.
- The dictionary order of Python's `kept` and `result` is a sequence or a map; `Findings` proves that the order does not matter.
- JSON text, framing, stderr, timeouts, process launch and reaping of the agent connection; only the atomic stretches between suspension points are modelled, and notifications we send are not.
- JsonRpc.EveryRunKeeps: the far side's callback and the look at the process's end are events that may come at any time; what they compute is arbitrary.
- AcpTurn.TurnYieldsAll: a closed client reads nothing, because closing it stops the read loop; an answer that is neither an object nor null never becomes a completion, as in the program, and leaves the consumer waiting.
- The retry, reopening and failure handling of workflow nodes, and state keys that routing and prompts do not read; CI's verdict is a truth value, facets are any non-empty set, and edges read the state after all writes of a superstep. The wording of prompts is not modelled.
- Coercion of event payloads to text: events come with typed fields; fields that are always null are omitted, and tool arguments and results are texts.
- React rendering, run snapshots and their errors, listeners beyond whether they are told, and answering approvals; `Polling` assumes a server whose answer is some first part of the append-only log after the cursor.
- StandInPage.Page.Apply: the regular expressions that find ids and ports, and timestamps, tunnel addresses, directories and process ids, are not modelled; ids and ports come as tokens.
- ConversationPage.StoreIsFoldOfLog: is about a page that stays with its run; one that comes back to a run can hold less of its log than it published before, and the store keeps what was published.
- Conversations are keyed by run and node, while the store's keys are the texts `graph--<run>--<node>`, which two pairs of ids containing `--` could share.
- PortStandIns.PortsDistinct: ports are non-empty strings of digits, which is what the pattern for ports hands over.
- RunStream.ReadRunResponse: status handling, byte decoding and a consumer that stops early are not modelled; JSON parsing is a parameter, and a line that cannot be read fails like an error event.
- Browsers resolve `.` and `..` segments of an address before the page sees it; `Routes` starts from the pathname given to the router.
