# Lux kernel: verified model

This project models the security core of the Lux kernel in Dafny and proves what it promises over whole runs: the Raft
consensus used for topology changes, the audit log, the three gates that share it, the boot pipeline and the
reservation ledger.

Code that updates objects in place is modelled by classes whose methods are proved equal to functions on values (the
`*Spec` modules); the properties are then lemmas about those functions, over every input or every sequence of calls.

| Area | Modules |
|---|---|
| Raft node | `RaftSpec`, `RaftOverlay`, `RaftNode` |
| Raft exchanges and their progress | `RaftExchange` |
| Raft cluster and its safety | `RaftCluster`, `RaftHistory`, `RaftLogs`, `RaftInvariant`, `RaftFrame`, `RaftSteps`, `RaftMoves`, `RaftLead`, `RaftReplicate`, `RaftActions`, `RaftDeliveries`, `RaftRuns`, `RaftSafety`, `RaftTheorems` |
| Follower commits and repeated votes | `RaftCommitRule`, `RaftFollowers`, `RaftPair`, `RaftStaleTail`, `RaftRedelivery`, `RaftVotes` |
| Consensus driver | `ConsensusSpec`, `ConsensusTraffic`, `Driver` |
| Audit log | `Wire`, `Audit`, `AuditBinding` |
| Gates and kernel | `Capability`, `PolicySpec`, `PolicyGate`, `PolicyRuns`, `LedgerSpec`, `Metabolism`, `Bits`, `Graph`, `KernelSpec`, `KernelAnswers`, `WasmShim` |
| Boot | `Cbor`, `Manifest`, `ManifestFaults`, `Decode`, `Boot` |
| Reservations | `ReservationSpec`, `ReservationLife`, `Reservations` |

## The cluster and its hypotheses

A cluster is a map of nodes that list each other as peers, each peer once and never themselves, and a set of packets in
flight. An action starts an election, submits an entry, delivers a packet or drops one; the theorems hold for every
finite sequence of actions. The network may delay, reorder and drop anything and may deliver packets again, except
vote requests and granted votes. The code counts granted replies without looking at their senders, so votes that arrive
twice count twice: `RaftVotes.ElectionSafeIff` proves that with such a network Election Safety holds in all runs of a cluster if
and only if the cluster has at most three nodes.

The hypotheses of the theorems can be met together: in the run of `RaftStaleTail.FollowerCommitsAnotherEntry` a leader reports a
commit and another leader follows in a later term.

The history variables of the safety proof (who voted for whom, the log of each term's leader, acknowledgements) appear
in the proof only. Except for the leader log named in `AcceptedBatchIsStored`, the theorems speak about runs alone.

## Where code and documentation differ

The model follows the code.

- A follower sets its commit index to the smaller of the leader's commit index and its own last index
  (`src/consensus/raft.rs:413-415`), where Figure 2 of the Raft paper uses the last new entry. A follower with a stale tail can
  therefore commit an entry that no leader committed. `RaftStaleTail.CommitsAgreeIff` proves that committed entries agree in all
  runs of a cluster if and only if it has at most two nodes. For one delivery, `RaftCommitRule.CommitRightIff` gives the exact
  condition, on what the follower sees before it handles the batch: the rule is right if and only if the leader's commit index or
  the follower's log ends within the batch, or the batch cuts the log, or the log ends in an entry of the leader's own term, or
  the follower has committed its whole log already. This condition ranges over leader logs, not over runs.
  `RaftFollowers.CommittedPrefixesAgree` proves agreement of all nodes over runs in which followers
  take commit indices only from batches that meet it.
- `rotate_generation` saturates. At the largest generation it clears the used nonces and the revocations without changing
  the generation, so a token can be used again, even a revoked one. `PolicyRuns.TokensSafeIff` gives the exact condition for each.
- Reservation ids saturate in the same way; `ReservationSpec.ReservationsSafeIff` gives the exact condition.
- `QuotaEnforcer::deduct` says that an audit event is always emitted. On a full log it returns before appending, and so do the
  other gates in effect, since a full log takes nothing.
- `run_topology_consensus` says that a `TopologyChange` event is always appended. None is when the local graph refuses or the
  log is full (`src/boot/mod.rs:170-176`), and its append result is ignored (`src/boot/mod.rs:216`).
- `verify_chain` says that any single-bit change is detected. Up to collisions of the hash that is so: `AuditBinding.OneChangeIsDetected`.
  It does not detect a last event that is replaced together with its recomputed hash (`AuditBinding.LastEventIsReplaceable`), for which
  the head hash has to be kept elsewhere. The hashed bytes do not tell an absent denial reason from an empty one.
- `RevocationLedger::epoch` says it counts revoked tokens; it counts successful calls, so revoking a token twice counts twice.

## Model

| member | source | states |
|---|---|---|
| RaftNode.RaftLog.Append | src/consensus/log.rs:38-40 | the entry is added at the end unless the log holds 256 entries, and the answer says which |
| RaftNode.RaftLog.Get | src/consensus/log.rs:44-50 | 1-based access: an entry exists exactly for indices from 1 to the length |
| RaftNode.RaftLog.TruncateFrom | src/consensus/log.rs:85-92 | entries from the 1-based index on are cut; index 0 and indices past the end change nothing |
| RaftNode.RaftNode.constructor | src/consensus/raft.rs:99-117 | a follower in term 0 with an empty log, next indices 1 and match indices 0 |
| RaftNode.RaftNode.BecomeLeader | src/consensus/raft.rs:273-280 | the loop resets the next and match index of exactly the listed peers |
| RaftNode.RaftNode.StepDown | src/consensus/raft.rs:290-294 | new term, follower, no vote; nothing else changes |
| RaftNode.RaftNode.StartElection | src/consensus/raft.rs:146-166 | new term, self vote, one request per peer with the log's last index and term; alone it leads at once |
| RaftNode.RaftNode.SendAppendTo | src/consensus/raft.rs:301-334 | the loop sends the peer's next entries, at most sixteen, with the matching predecessor and the commit index; past the last peer nothing is sent |
| RaftNode.RaftNode.Propose | src/consensus/raft.rs:177-207 | refused unless leader and below capacity; otherwise appended and sent to every peer, or committed when alone |
| RaftNode.RaftNode.OnRequestVote | src/consensus/raft.rs:336-353 | a vote is granted exactly for a current term, an up-to-date log and a free or equal vote, and answered |
| RaftNode.RaftNode.OnVoteReply | src/consensus/raft.rs:355-375 | higher terms depose, stale replies are ignored, a quorum of counted grants makes a leader |
| RaftNode.RaftNode.AppendLogEntries | src/consensus/raft.rs:426-440 | for any predecessor index, the per-entry loop yields the overlay of the batch on the log, or past the end of the log its continuation by the batch, and reports the end of the batch |
| RaftNode.RaftNode.OnAppendEntries | src/consensus/raft.rs:377-424 | refusal of old terms and of a mismatched predecessor; otherwise overlay, commit rule and reply |
| RaftNode.RaftNode.CountAcked | src/consensus/raft.rs:476-479 | the number of peer positions whose match index reaches the index |
| RaftNode.RaftNode.AdvanceCommitIndex | src/consensus/raft.rs:469-487 | the downward loop finds the greatest index of the current term that a quorum acknowledged, or keeps the commit index |
| RaftNode.RaftNode.OnAppendReply | src/consensus/raft.rs:442-467 | bookkeeping of one reply, and the entry committed by it if any |
| RaftNode.RaftNode.Step | src/consensus/raft.rs:214-269 | the node state, the messages sent and the committed entry of any message |
| RaftSpec.IndexOf | src/consensus/raft.rs:286-288 | the first position of a peer, and none exactly when it is not listed |
| RaftSpec.Matching | src/consensus/raft.rs:426-440 | how many leading batch entries the log holds already, and that the next one is missing or conflicts |
| RaftSpec.HighestCommittable | src/consensus/raft.rs:469-487 | the result is committable or the old commit index, and nothing greater is committable |
| RaftOverlay.LayExtendsLaid | src/consensus/raft.rs:428-438 | one round of the loop extends what the batch so far did to the log by one entry, for any predecessor index |
| RaftOverlay.OverlayUnchanged | src/consensus/raft.rs:426-440 | a batch without a conflict that lies within the log changes nothing, so a longer log keeps its tail |
| RaftOverlay.OverlayCuts | src/consensus/raft.rs:426-440 | otherwise the log is cut at the first missing or conflicting entry and continued with the rest of the batch |
| RaftOverlay.OverlayTwice | src/consensus/raft.rs:426-440 | laying the same batch again changes nothing |
| RaftRuns.RunKeeps | src/consensus/raft.rs:146-487 | the inductive invariant of the safety proof holds in every state of every run |
| RaftTheorems.ElectionSafety | src/consensus/raft.rs:336-375 | at most one node is leader in a given term, at whatever two moments of a run |
| RaftTheorems.LogMatching | src/consensus/raft.rs:301-440 | two logs, at whatever two moments of a run, with the same term at an index agree up to it |
| RaftTheorems.BatchMatching | src/consensus/raft.rs:377-440 | a log and a batch in flight, each at any moment of a run, with a common term at an index agree from there back to the batch's predecessor |
| RaftTheorems.TwoBatchesMatch | src/consensus/raft.rs:301-334 | two batches in flight, each at any moment of a run, with a common term at an index agree on all indices before it that both have, predecessors included |
| RaftTheorems.AcceptedBatchIsStored | src/consensus/raft.rs:399-440 | an accepted batch is entirely in the log at its place, the log agrees with the leader's up to its end, and the reported match index is that end: the ignored capacity failure never happens |
| RaftTheorems.CommitIsQuorumBacked | src/consensus/raft.rs:442-487 | a reported commit is a leader's, of its own term, and a strict majority of distinct nodes held the same log up to it in that term |
| RaftTheorems.LeaderCompleteness | src/consensus/raft.rs:282-487 | a reported entry, and everything before it, is in the log of every leader of a later term |
| RaftTheorems.StateMachineSafety | src/consensus/raft.rs:442-467 | two entries reported committed at one index, by whomever and whenever, are equal, and so is everything before them |
| RaftExchange.ReplicationCompletes | src/consensus/raft.rs:301-487 | in every state of every run, a leader and any node not ahead of its term that exchange batches and answers end, after a stated number of exchanges, with the leader's whole log at the node, the leader knowing it, all committed that the acknowledgements allow, and the node's commit index up with it |
| RaftExchange.StaleLeaderYields | src/consensus/raft.rs:377-467 | a leader of an old term that sends a batch to a node ahead of it becomes a follower of that node's term, and the node does not move |
| RaftExchange.ContinuesAfterAnswer | src/consensus/raft.rs:442-467 | after an answer that counts, the next batch for the peer is the at most sixteen entries behind what was acknowledged |
| RaftExchange.RequestsAreAnswered | src/consensus/raft.rs:336-424 | every vote request and every batch is answered once, to its sender, in the term the node is then in; a refused batch leaves the log alone and acknowledges nothing |
| RaftExchange.RepeatedRequest | src/consensus/raft.rs:336-424 | a vote request or a batch that arrives twice is answered alike and changes nothing the second time |
| RaftExchange.VoteGivenIff | src/consensus/raft.rs:296-353 | between any two nodes, a vote is given exactly when the candidate's term is not older, its last entry is of a later term or of the same in a log not shorter, and no other got the vote; the reply and the stored vote |
| RaftExchange.HigherTermDeposes | src/consensus/raft.rs:336-467 | any message of a higher term makes any node a follower of that term, and no message takes a node back |
| RaftExchange.QuorumIsLeastMajority | src/consensus/raft.rs:282-284 | the quorum is the least number that is more than half of the nodes |
| RaftExchange.ProposalAnswered | src/consensus/raft.rs:177-207 | taken exactly by a leader with fewer than 256 entries; then the entry is last and every peer is sent its next batch; a refusal changes nothing and names its cause |
| RaftCommitRule.CommitRightIff | src/consensus/raft.rs:399-415 | the commit index a batch makes a follower take is right for all leader logs that can lie behind the batch and the follower's log, if and only if the follower sees one of five signs before the call |
| RaftFollowers.RunBehind | src/consensus/raft.rs:377-424 | as long as the condition was met, the leader logs of the run itself lie behind every batch in flight and every node whose term is not past the batch's, so the rule above speaks about every delivery that is not refused as old |
| RaftFollowers.CommittedPrefixesAgree | src/consensus/raft.rs:377-424 | in runs in which followers take commit indices only from batches that meet that condition, commit indices stay within logs and any two nodes agree on what both committed, at whatever two moments |
| RaftPair.SmallClusterAgrees | src/consensus/raft.rs:377-424 | in every run of a cluster of one or two nodes, any two nodes agree on what both committed, at whatever two moments |
| RaftStaleTail.FollowerCommitsAnotherEntry | src/consensus/raft.rs:399-424 | every cluster of three nodes or more has a run in which a leader reports an entry committed at index 17 and a follower commits another one there |
| RaftStaleTail.CommitsAgreeIff | src/consensus/raft.rs:377-424 | committed entries agree in all runs of a cluster if and only if it has at most two nodes |
| RaftVotes.RepeatedGrantElects | src/consensus/raft.rs:355-375 | one granted reply delivered several times elects a candidate exactly when the deliveries fill its quorum |
| RaftRedelivery.TwoLeadersNeedFour | src/consensus/raft.rs:336-375 | when votes may be delivered again, two leaders of one term, at whatever two moments, still take four nodes |
| RaftVotes.TwoLeaders | src/consensus/raft.rs:355-375 | every cluster of four nodes or more has a run with two leaders of one term |
| RaftVotes.ElectionSafeIff | src/consensus/raft.rs:336-375 | when votes may be delivered again, all runs of a cluster have one leader per term if and only if it has at most three nodes |
| ConsensusSpec.RoundSound | src/boot/mod.rs:178-213 | whatever messages arrive, a round that commits, commits exactly the proposed edge in term 1, with enough granted votes and a quorum of the node and distinct acknowledging peers |
| ConsensusSpec.RoundComplete | src/boot/mod.rs:178-213 | enough granted votes and after them acknowledgements from enough distinct peers commit the edge, whatever messages come in between that neither depose the node nor take an acknowledgement back; a node without peers always commits |
| ConsensusTraffic.RoundAsks | src/boot/mod.rs:178-188 | a round begins by asking every peer for its vote in term 1 |
| ConsensusTraffic.RoundProposes | src/boot/mod.rs:203-213 | a round that is won sends every peer the edge as the first entry |
| ConsensusTraffic.RoundReads | src/boot/mod.rs:178-213 | messages are read from the front, and a round gives up only when none is left |
| Driver.Elect | src/boot/mod.rs:181-188 | the first receive loop ends and leaves the node and the inbox as the campaign does |
| Driver.AwaitCommit | src/boot/mod.rs:206-213 | the second receive loop ends and reports whether a message committed an entry |
| Driver.Stand | src/boot/mod.rs:178-188 | a fresh node after its campaign, and the messages sent in it |
| Driver.ProposeAndAwait | src/boot/mod.rs:203-213 | the proposal is accepted, and a commit is reported exactly when replication commits |
| Driver.RunRound | src/boot/mod.rs:178-213 | a fresh node reports a commit exactly when the round commits |
| Driver.RunTopologyConsensus | src/boot/mod.rs:161-226 | ends for every finite inbox; Ok exactly when the edge is in the sealed graph, the log had room and the round commits; the exact log, messages sent and messages left unread |
| Driver.OkMeans | src/boot/mod.rs:161-226 | after Ok the traversal and the change are recorded as permitted, by the node that asked, and the committed entry is the edge in term 1 with a quorum of distinct peers behind it unless there are none |
| Driver.ErrMeans | src/boot/mod.rs:161-226 | after Err the log says why: a denied traversal for an undeclared edge; otherwise a permitted traversal and, if there is room, a change denied to the node that asked, with a denial that halts |
| Driver.RoundLogged | src/boot/mod.rs:191-216 | the records of a round in every field a reader sees, whether or not it committed, with room for both or for the first alone |
| Wire.LittleEndianRoundTrip | src/audit/log.rs:302-304 | the little-endian fields can be read back |
| Wire.FourBytes | src/audit/log.rs:302-304 | the bytes of a 32-bit number, lowest first |
| Wire.EightBytes | src/audit/log.rs:302-304 | a 64-bit number is its low half followed by its high half |
| Wire.Utf8Injective | src/audit/log.rs:307-309 | different reasons have different bytes |
| Wire.Utf8CharValue | src/audit/log.rs:307-309 | the bytes of a code point give it back by the rules of section 3 of RFC 3629 |
| Audit.AuditLog.constructor | src/audit/log.rs:98-105 | empty, zero head |
| Audit.AuditLog.Append | src/audit/log.rs:123-170 | one chained, numbered event is added, or nothing at 512 events, and the answer says which |
| Audit.AuditLog.VerifyChain | src/audit/log.rs:178-197 | true exactly when every stored hash covers its predecessor's hash and its own fields, for any stored events |
| Audit.AuditLog.IsFull | src/audit/log.rs:214-216 | true exactly at 512 events or more |
| Audit.AuditLog.HeadHash | src/audit/log.rs:220-222 | the hash of the last event, or zero |
| Audit.RecordedIsIntact | src/audit/log.rs:123-197 | every log that appends alone produce verifies, is numbered, and has consistent denial fields |
| Audit.RecordedInOrder | src/audit/log.rs:123-170 | the log holds exactly the first 512 requests, in order and unaltered |
| Audit.AppendSays | src/audit/log.rs:123-170 | below 512 events an append adds one event that says who did what and whether and why it was denied, and keeps the others |
| AuditBinding.PreimageInjective | src/audit/log.rs:281-311 | two hashed byte strings are equal exactly when the previous hashes and all recorded fields are |
| AuditBinding.PreimageLayout | src/audit/log.rs:281-311 | the position and form of every field in the hashed bytes |
| AuditBinding.HeadBindsLog | src/audit/log.rs:178-222 | two verified logs with one head record the same, or exhibit a collision, or a preimage of zero, among the bytes they hashed |
| AuditBinding.HeadBindsAppends | src/audit/log.rs:123-222 | for append-built logs the first case is equality, event for event |
| AuditBinding.OneChangeIsDetected | src/audit/log.rs:172-197 | a changed event makes verification fail or exhibits a collision on that event or its successor, unless it is the last event changed together with its hash |
| AuditBinding.LastEventIsReplaceable | src/audit/log.rs:172-197 | the exception is real: any record with a recomputed hash can replace the last event of any verified log |
| Capability.ContainsIff | src/auth/capability.rs:69-71 | the test on words holds exactly when every right of one set, bit by bit, is in the other |
| Capability.TruncatedHolds | src/wasm/mod.rs:126-126 | truncation keeps exactly the five low bits |
| Capability.DelegateIff | src/auth/capability.rs:104-123 | a token is delegated exactly by a holder of right 3 that has every bit it passes on, and comes from that holder for its generation |
| Capability.ChainShrinks | src/auth/capability.rs:104-123 | along a delegation chain of any length the generation stays, every bit of a later token is in every earlier one, delegators held right 3 and issuers are the previous targets |
| Capability.DerivableIff | src/auth/capability.rs:104-123 | delegation reaches exactly the tokens of the same generation with no further bit, and only from a token with right 3 |
| PolicyGate.RevocationLedger.Revoke | src/auth/revocation.rs:53-60 | the id joins the set unless the set is full without it; successful calls are counted |
| PolicyGate.RevocationLedger.Clear | src/auth/revocation.rs:71-74 | empty set, zero count |
| PolicyGate.Policy.constructor | src/auth/policy.rs:51-57 | nothing used, nothing revoked |
| PolicyGate.Policy.CheckInner | src/auth/policy.rs:89-119 | the four steps in order, and the nonce is used exactly when all pass |
| PolicyGate.Policy.Check | src/auth/policy.rs:67-87 | one record of the inner decision; Ok only if it was recorded; the nonce is spent either way |
| PolicyGate.Policy.RevokeCapability | src/auth/policy.rs:124-126 | the new policy value and the answer |
| PolicyGate.Policy.RotateGeneration | src/auth/policy.rs:136-140 | saturating generation, both memories cleared |
| PolicyRuns.FullLogBurnsNonce | src/auth/policy.rs:79-85 | a check refused only because the log is full has spent its nonce for the generation |
| PolicyRuns.TwicePermitted | src/auth/policy.rs:89-140 | a generation and nonce permitted twice imply a rotation at the largest generation in between |
| PolicyRuns.PermittedAfterRevoked | src/auth/policy.rs:89-140 | the same for a token permitted after its nonce was revoked in its generation |
| PolicyRuns.TokensSafeIff | src/auth/policy.rs:89-140 | all runs with n rotations from generation g use tokens at most once if and only if g + n fits in 64 bits, and all keep revocations under the same condition |
| PolicyRuns.PermittedChain | src/auth/capability.rs:69-123 | if the last token of a delegation chain is permitted, every token of it held every bit asked for and is current, and every delegator held right 3 |
| PolicyRuns.CheckAnswer | src/auth/policy.rs:67-140 | the answer to a check after any calls, from the calls alone: Ok exactly for a current token that holds every bit asked for, with a nonce neither revoked nor taken since the last rotation, fewer than 256 taken since, and room in the log; every refusal names the first condition that fails |
| PolicyRuns.RevokeAnswer | src/auth/policy.rs:124-140 | a revocation after any calls is taken unless 256 other ids were revoked since the last rotation, and the epoch counts those taken since |
| LedgerSpec.Conservation | src/metabolism/ledger.rs:42-66 | over any run of seeds and charges, what a node was given equals its balance plus what it spent |
| LedgerSpec.GrantedOnce | src/metabolism/ledger.rs:42-54 | a node is seeded successfully once, so what it was given is that one ceiling |
| LedgerSpec.SeededIff | src/metabolism/ledger.rs:42-54 | after any calls exactly the nodes that were seeded have a balance |
| LedgerSpec.SeedAnswer | src/metabolism/ledger.rs:42-54 | a seed is taken exactly for a node not seeded before while fewer than 64 are, and a refusal says which failed |
| LedgerSpec.ChargeAnswer | src/metabolism/quota.rs:25-51 | a charge after any calls is answered Ok with a rest exactly when the grant is what was spent, the amount and that rest; otherwise quota exceeded, or on a full log nothing at all |
| Metabolism.Ledger.Seed | src/metabolism/ledger.rs:42-54 | duplicates and a 65th node are refused without change |
| Metabolism.Ledger.Deduct | src/metabolism/ledger.rs:61-66 | the new balance, or no change for an undeclared node or an underflow |
| Metabolism.QuotaEnforcer.Deduct | src/metabolism/quota.rs:25-51 | nothing at all on a full log; otherwise the charge and exactly one record of its outcome |
| Bits.BitOfSetBit | src/topology/graph.rs:55-59 | setting one bit of a 64-bit mask changes that bit and no other |
| Graph.SetEdge | src/topology/graph.rs:86-87 | setting a bit of the matrix adds exactly one edge |
| Graph.BootingGraph.constructor | src/topology/graph.rs:42-47 | no nodes, no edges |
| Graph.BootingGraph.Activate | src/topology/graph.rs:55-59 | adds exactly the node, or refuses ids above 64 |
| Graph.BootingGraph.PermitEdge | src/topology/graph.rs:70-88 | adds exactly the edge when both ends are active, otherwise refuses |
| Graph.BootingGraph.Seal | src/topology/graph.rs:94-99 | the sealed graph has the same nodes and edges |
| Graph.OperationalGraph.TraverseInner | src/topology/graph.rs:148-170 | Ok exactly for a declared edge |
| Graph.OperationalGraph.IsActive | src/topology/graph.rs:174-176 | true exactly for an activated node |
| Graph.OperationalGraph.Traverse | src/topology/graph.rs:132-146 | one record of the decision, Ok only if it was recorded |
| KernelSpec.StepIsLogged | src/wasm/mod.rs:118-157 | on a log with room each valid call adds one event saying who, what and whether permitted, and the code agrees with it |
| KernelSpec.NoUnloggedPermit | src/wasm/mod.rs:118-157 | over any run of calls the permissions given are as many as the permitted events added |
| KernelSpec.PermitsBounded | src/wasm/mod.rs:118-157 | a shim gives at most 512 permissions in its life |
| KernelSpec.FullStaysShut | src/wasm/mod.rs:118-157 | once the log is full nothing is permitted any more and the log never changes |
| KernelSpec.TokenPermittedOnce | src/wasm/mod.rs:118-131 | over any run each nonce is permitted at most once, under whatever handles |
| KernelSpec.DeductionsConserve | src/wasm/mod.rs:134-143 | a balance before a run is the balance after it plus the permitted deductions |
| KernelAnswers.PolicyCheckAnswer | src/wasm/mod.rs:118-131 | -1 for a handle that names nothing, 0 exactly when the token is current, unspent, unrevoked, holds each of the five rights asked for and the log has room, 1 otherwise; the nonce of a token that allows it is spent, room or not; nothing but log and nonces changes |
| KernelAnswers.PolicyCheckRecorded | src/wasm/mod.rs:118-131 | with room in the log, one record under the token's target, permitted exactly when the token allows it, otherwise a denial that halts with the gate's reason |
| KernelAnswers.DeductAnswer | src/wasm/mod.rs:134-143 | -1 for node 0, 0 exactly when the balance covers the amount and the log has room, 2 otherwise; recorded under the node, a denial as a failure; only that balance changes |
| KernelAnswers.TraverseAnswer | src/wasm/mod.rs:146-157 | -1 for an id 0, 0 exactly for an edge of the graph while the log has room, 3 otherwise; recorded under the source; only the log changes |
| KernelAnswers.DeductPermittedIff | src/wasm/mod.rs:134-143 | after any calls a deduction is permitted exactly when the first balance covers it on top of all deductions permitted since and the log has room |
| KernelAnswers.HandlesKept | src/wasm/mod.rs:105-109 | over any run a token stays under its handle |
| KernelAnswers.HandleGivenOut | src/wasm/mod.rs:105-109 | a handle names the token whose registration was answered with it |
| KernelAnswers.PermittedByRegistered | src/wasm/mod.rs:105-131 | a check is permitted after any calls only under a handle given out for a current token that holds each of the five rights asked for |
| WasmShim.WasmShim.constructor | src/wasm/mod.rs:92-100 | the given parts, an empty log and no handles |
| WasmShim.WasmShim.FromBootState | src/wasm/mod.rs:77-85 | the booted parts, an empty log and no handles |
| WasmShim.WasmShim.RegisterCap | src/wasm/mod.rs:105-109 | the next handle below 64, or none |
| WasmShim.WasmShim.PolicyCheck | src/wasm/mod.rs:118-131 | the kernel value and the code of the host call |
| WasmShim.WasmShim.LedgerDeduct | src/wasm/mod.rs:134-143 | the kernel value and the code of the host call |
| WasmShim.WasmShim.TopologyTraverse | src/wasm/mod.rs:146-157 | the kernel value and the code of the host call |
| Cbor.ReadWritten | src/boot/decode.rs:93-112 | a head written with any argument width is read back, and what follows it is left |
| Cbor.WrittenRead | src/boot/decode.rs:93-112 | whatever head is read was written with one of the widths |
| Cbor.LongHead | src/boot/decode.rs:93-112 | low bits 24 to 27 announce an argument of one, two, four and eight bytes, and what follows is left |
| Cbor.ShortHead | src/boot/decode.rs:93-112 | low bits below 24 are the argument, and 28 to 31 give none |
| Cbor.BytesValue | src/boot/decode.rs:93-112 | argument bytes have the highest first |
| Manifest.ParsesIff | src/boot/decode.rs:93-228 | a payload is decoded to a manifest exactly when it begins with an encoding of it, in any integer widths, within the capacities |
| Manifest.RoundTrip | src/boot/decode.rs:93-228 | the preferred encoding of a manifest followed by anything decodes to it |
| Manifest.EncodePrefixFree | src/boot/decode.rs:93-228 | no encoding is a prefix of another manifest's |
| ManifestFaults.BadBeginning | src/boot/decode.rs:93-112 | a payload that does not begin with an array of three and a 32-bit version is refused for exactly that |
| ManifestFaults.BadLists | src/boot/decode.rs:124-142 | after any version, an edge list that is no array, of indefinite length or longer than 256 is refused for exactly that |
| ManifestFaults.BadEdge | src/boot/decode.rs:124-175 | after any number of good edges, the first defect of the next one is what the payload is refused for: shape, missing or oversized number, zero id |
| ManifestFaults.BadQuotaLists | src/boot/decode.rs:177-194 | after any edges, the same for a quota list, longer than 64 |
| ManifestFaults.BadQuota | src/boot/decode.rs:177-228 | after any edges and any number of good quotas, the same for the next quota |
| Decode.Decoder.Array | src/boot/decode.rs:97-99 | the array length at the cursor, definite or not, and the cursor behind it |
| Decode.Decoder.U32 | src/boot/decode.rs:107-109 | an unsigned integer of any width that fits 32 bits |
| Decode.Decoder.U64 | src/boot/decode.rs:209-211 | an unsigned integer of any width |
| Decode.ReadEdges | src/boot/decode.rs:124-175 | the edge loop decodes the list, or gives the first failure's reason |
| Decode.ReadQuotas | src/boot/decode.rs:177-228 | the quota loop decodes the list, or gives the first failure's reason |
| Decode.ReadManifest | src/boot/decode.rs:93-122 | the decoded manifest is within the capacities and is what the payload begins with |
| Decode.ReadWire | src/boot/decode.rs:72-91 | length check, then signature check, then decoding |
| Decode.DecodesIff | src/boot/decode.rs:72-91 | accepted exactly when long enough, accepted by the signature check, and an encoding of a manifest within the capacities |
| Decode.RefusedUnread | src/boot/decode.rs:72-91 | fewer than 65 bytes, and then a signature of 64 bytes that is not accepted, are refused before the payload is looked at |
| Boot.BuildGraph | src/boot/mod.rs:280-290 | succeeds exactly when every endpoint is at most 64, with exactly the declared edges and endpoints; otherwise names the first endpoint out of range |
| Boot.BuildLedger | src/boot/mod.rs:286-288 | succeeds exactly when no node repeats, and then holds exactly the declared quotas |
| Boot.Initialise | src/boot/mod.rs:264-308 | boots exactly when decoding succeeds, endpoints are at most 64 and no quota node repeats; then traversal, activity and balances answer as the manifest's lists do; a refusal is the decoder's, or names the first endpoint out of range, or else a duplicate quota |
| Boot.QuotaForSome | src/boot/manifest.rs:76-81 | a quota is found exactly when an entry names the node |
| ReservationSpec.TtlOf | src/auth/reservation.rs:69-75 | exactly 1 to 4096 ticks |
| ReservationSpec.Find | src/auth/reservation.rs:230-236 | the first record with the id, and none exactly when there is none |
| ReservationSpec.AfterSound | src/auth/reservation.rs:249-398 | in every run: capacity, Expired never stored, ids in order and not repeated below the largest |
| ReservationSpec.LifeOf | src/auth/reservation.rs:249-398 | a record whose id is not given out again is gone for good or only moves from Active to Revoked or Consumed |
| ReservationSpec.TerminalForGood | src/auth/reservation.rs:298-379 | Revoked and Consumed are never left |
| ReservationSpec.UngrantableForGood | src/auth/reservation.rs:332-398 | what cannot be granted at one time cannot be granted or consumed at any later one |
| ReservationSpec.IdsDiffer | src/auth/reservation.rs:249-277 | ids of one run increase until the largest one |
| ReservationSpec.GivenOutOnce | src/auth/reservation.rs:249-277 | with enough ids for the run, an id given out is not given out again, clears included |
| ReservationSpec.ReservationsSafeIff | src/auth/reservation.rs:249-379 | all runs that open n reservations have unique ids if and only if n is at most 2^64, and all consume each at most once under the same condition |
| ReservationSpec.CascadeForGood | src/auth/reservation.rs:313-379 | none of them is granted or consumed by any later call |
| ReservationLife.LedgerFollowsLife | src/auth/reservation.rs:230-398 | over any run the ledger's record of a reservation is what an automaton for that one reservation makes of the calls |
| ReservationLife.AnswersAbout | src/auth/reservation.rs:284-379 | a reservation is granted, consumed and revoked exactly while no call since its opening ended it, the first two before its deadline; a grant carries what it was opened with; the effective status |
| ReservationLife.AnswersUnknown | src/auth/reservation.rs:284-379 | about an id never given out every answer is a refusal |
| ReservationLife.RevokeExact | src/auth/reservation.rs:298-306 | true exactly for a record stored as active, which becomes Revoked and is otherwise the same; no other id is touched |
| ReservationLife.ConsumeExact | src/auth/reservation.rs:358-379 | the same for a consumption before the deadline, which makes the record Consumed |
| ReservationLife.CascadeExact | src/auth/reservation.rs:313-322 | the records a cascade counts are exactly those it changes, and none is left to count; no other id is touched |
| ReservationLife.EndedForGood | src/auth/reservation.rs:298-379 | after a revocation or consumption that was taken, no call grants, consumes or revokes the id while it is not given out again |
| ReservationLife.StoredCount | src/auth/reservation.rs:249-277 | the ledger stores as many records as were opened since the last clear |
| ReservationLife.ReserveAnswer | src/auth/reservation.rs:249-277 | the number of reservations opened so far, clears included, up to the largest 64-bit number, unless 256 were opened since the last clear |
| Reservations.ReservationLedger.constructor | src/auth/reservation.rs:223-228 | empty, next id 0 |
| Reservations.ReservationLedger.FindIndex | src/auth/reservation.rs:230-236 | the linear search finds the first record with the id |
| Reservations.ReservationLedger.Reserve | src/auth/reservation.rs:249-277 | a new active record with the next id, or refused at 256 records |
| Reservations.ReservationLedger.EffectiveStatus | src/auth/reservation.rs:284-290 | the stored status, except Expired for an active record past its time |
| Reservations.ReservationLedger.Revoke | src/auth/reservation.rs:298-306 | an active record becomes Revoked, anything else is left |
| Reservations.ReservationLedger.RevokeByOriginNonce | src/auth/reservation.rs:313-322 | the cascade, and the exact number of records it reached |
| Reservations.ReservationLedger.Grant | src/auth/reservation.rs:332-348 | the grant of an active record within its time |
| Reservations.ReservationLedger.Consume | src/auth/reservation.rs:358-379 | an active record within its time becomes Consumed, anything else is refused without change |
| Reservations.ReservationLedger.Clear | src/auth/reservation.rs:396-398 | no records; the next id is kept |

## Left out

- SHA-256 and Ed25519: the hash and the signature check are parameters, and nothing is assumed about them.
- `src/hsm/` and `src/tpm/`: key stores and hardware; the TPM steps of boot always succeed, and the attestation quote and the manifest hash are not kept.
- `src/wasm/executor.rs` and `src/wasm/host.rs`: runtime plumbing and one-line forwards.
- `src/scheduler/queue.rs`, `src/python/` and the demo crates: a wrapper around a library heap, bindings and demos.
- `PeerSet::quorum_threshold`: not called by the node.
- `export_json`, `Zeroize`, `Drop`, `Debug` and `Manifest::parse_and_verify`, which is a stub.
- Raft liveness beyond RaftExchange.ReplicationCompletes: a leader sends batches only when something is proposed, and nothing makes it do so.
- Restart after a crash: the node keeps its state in memory only.
- 64-bit overflow of terms, of `match_index + 1` and of the vote counter: these are unbounded here, where the code stops with an overflow check.
- RaftTheorems.ElectionSafety: needs a network that does not deliver granted votes twice; RaftVotes.ElectionSafeIff says exactly when it does not.
- RaftFollowers.CommittedPrefixesAgree: needs the condition of RaftCommitRule.CommitRightIff wherever a follower takes a commit index, see RaftStaleTail.CommitsAgreeIff for why.
- RaftCommitRule.CommitRightIff: ranges over leader logs that are consistent with each other, with the follower's log and with the batch; it does not construct a run for each of them.
- Peer lists with repeated entries are covered by ConsensusSpec.RoundSound but not by the cluster, whose nodes list each other once.
- The containers of the `heapless` library are sequences, sets and maps with the same capacity; inserting an id that a full revocation set already holds succeeds. Hashing inside the set is not modelled.
- The `minicbor` decoder is modelled by what it accepts at the calls that are made: one-, two-, four- and eight-byte arguments of any value, definite and indefinite array heads. Its error values are not modelled.
- Decode.Decoder: keeps the unread bytes instead of a position in the buffer.
- Texts of manifest errors are constructors of an enumeration; signature errors carry any text.
