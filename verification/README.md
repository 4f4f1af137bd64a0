# Verified model of the directory-service core

A Dafny model of a sharded blockchain node: the two-round collective-signing consensus of a committee
(leader, backups, parallel subsets), the certificates it produces and how directory nodes collect them,
the transition between DS epochs (sharding, committee rotation, view change), and the arithmetic of
rewards, gas prices and broadcast duties. `dafny verify dfyconfig.toml` checks everything.

How the files fit together:

- `Curve`, `MultiSig`, `Schnorr`: an abstract commutative group of given order with scalar
  multiplication (`Curve.TwoElementGroupIsLawful` shows its laws can be met), and the signature scheme
  over it. Hashes and byte encodings are arbitrary functions.
- `Bits`, `Numbers`, `Consensus`: bitmaps over a committee, the quorum, messages and states of a session.
- `LeaderSpec`, `LeaderProof`: the leader as a transition function without redundant data, and what its
  steps keep. `SubsetGeneration`, `ConsensusLeader`: the leader as an object with counters and
  arrival-ordered lists, proved to take exactly those steps.
- `BackupSpec`, `ConsensusBackup`: the same for a backup behind its message gate.
- `Agreement`: one correct leader, any number of correct backups, and a network that loses, repeats and
  reorders; every other committee member may send the leader anything.
- `Session`: a run of correct nodes from the announcement to both certificates, for every committee and quorum.
- `MicroBlock`, `CollectionSpec`, `CollectionProof`, `CollectionProgress`, `MicroBlockCollector`: acceptance
  of certified microblocks and their collection, one per shard.
- `PoWOrdering`, `Sharding`, `ShardingCheck`, `CommitteeRotation`, `ViewChange`: the epoch transition.
- `Coinbase`, `GasPricer`, `DataSender`: rewards, gas price, who sends what.

## What the code does that its comments or interfaces suggest otherwise

- Assigning a `Challenge` or `CommitPoint` sets its initialised flag whatever the source held
  (cw/libCrypto/MultiSig.cpp:206-209, 519-522), so a leader whose challenge could not be hashed goes on
  with challenge 0, while a backup recomputing it ends in the error state. `Agreement.ErrorExactly` states
  when that happens, `Agreement.ErrorHappens` is a run of correct nodes in which it does, and
  `MultiSig.CollectiveSignatureVerifies` shows the leader's own check catches it.
- The table of a backup alone would let it finish straight from its first commit
  (`BackupSpec.UngatedSkipsRoundOne`); the gate in front of it is what rules this out.
- `SubsetEnded` is only called after a success, so its branch for "all subsets failed" never runs in a
  session.
- The view-change counter survives a completed view change while the candidate index is cleared
  (cw/libDirectoryService/ViewChangePostProcessing.cpp:64-73), so in a second view change of the same block
  consensus seat 0 is recorded as faulty instead of the leader
  (`ViewChange.ReplacedLeaderRecorded`, `ViewChange.SecondViewChangeBlamesSeatZero`).
- Every batch of fetched microblocks ends with a check of whatever final block is at hand
  (cw/libDirectoryService/MicroBlockProcessing.cpp:675), at the start of an epoch still that of an earlier
  one, and a fetched block's hash is not compared with its header as it is on the direct path
  (cw/libDirectoryService/MicroBlockProcessing.cpp:207-216). So a DS block that carries an earlier shard
  block's hash can be stored while collecting and count towards the number that stops the collection:
  `CollectionProof.TriggerCanBeEarly` is such a run. If hashes belong to their blocks, or in a node's first
  epoch, the trigger means every shard is present (`CollectionProof.TriggerMeansComplete`,
  `CollectionProof.FirstTriggerMeansComplete`).
- Held microblocks are ordered by shard id only if version, previous hash, epoch and DS block agree
  (cw/libData/BlockData/BlockHeader/MicroBlockHeader.cpp:119-125); otherwise they count as equal up to their
  transaction hashes.
- In guard mode the test that makes a member idle ignores that guards keep their seats; it is right exactly
  while winners do not outnumber the other seats (`CommitteeRotation.IdleExactlyWhenPopped`).
- Shards are dealt to clusters in contiguous ranges, not round robin as the comment at
  cw/libNetwork/DataSender.cpp:109-116 says.
- In the gas price's lower bound the division precedes the multiplication
  (cw/libDirectoryService/GasPricer.cpp:105-109), so it is a whole multiple of the mean.
- The window of co-signers that inform the lookup nodes starts at a random number modulo the co-signers less
  the window (cw/libNetwork/DataSender.cpp:289-294), so the last co-signer is never in it
  (`DataSender.WhoMayInform`).
- Several subsets are drawn only with two commits to spare, not one as the comment at
  cw/libConsensus/ConsensusLeader.cpp:112-113 suggests, since the leader is not among the peers counted
  (`LeaderProof.CommitChallenges`).
- A response message is dropped from the first subset on whose collective signature fails
  (cw/libConsensus/ConsensusLeader.cpp:656-663), so that its responses to later subsets are lost
  (`LeaderProof.ResponsesRecorded`).
- Lookup entries are counted in 32 bits (cw/libDirectoryService/Coinbase.cpp:167) and rewarded entry by entry,
  so past 2^32 of them the shares are too large and the remainder goes below zero. Unless the count wraps to
  0, where the division fails before any balance changes, some reward and some balances show it
  (`Coinbase.Overdrawn`); `Coinbase.PayoutSoundExactly` states exactly when it cannot happen. Percentages of
  more than 100 together have the same effect (`Coinbase.PercentagesExactly`). Even then no coin is created or
  lost (`Coinbase.PayoutKeepsTotal`).

## Assumptions

Messages decode to what was encoded and `Messenger::Set*` succeeds; bitmaps in messages are not longer than
the committee; the announcement validator fills the message buffer with the announced message when it accepts; the
leader and each backup process one message at a time, and the commit-window timer is a step of its own; the
random shuffles are arbitrary permutations; TOLERANCE_FRACTION is exactly 667/1000. Keys of proof-of-work
submitters are not committee members (cw/libDirectoryService/PoWProcessing.cpp:270-273). A directory node's
own shard id is the number of shards (cw/libDirectoryService/DSBlockPostProcessing.cpp:577). In its own
committee a node's entry, and no other, has the blank address. No key hashes to the coinbase address.
Empty entries that `operator[]` leaves in maps are not told apart from absent ones.

## Model

| member | source | states |
|---|---|---|
| Curve.Group.ResponsesAddUp | cw/libCrypto/MultiSig.cpp:696-757 | if every response opens its own commit under the common challenge, the summed response opens the summed commit under the summed key |
| Curve.Group.SumPermutation | cw/libCrypto/MultiSig.cpp:669-722 | aggregation of keys or commit points does not depend on arrival order |
| Curve.Group.SumModPermutation | cw/libCrypto/MultiSig.cpp:724-757 | aggregation of responses does not depend on arrival order |
| MultiSig.HonestResponseAccepted | cw/libCrypto/MultiSig.cpp:602-648 | a response computed from one's own secret and key passes the leader's check exactly when it is not zero |
| MultiSig.CollectiveSignatureVerifies | cw/libCrypto/MultiSig.cpp:887-1047 | a signature aggregated from responses that each open their commit verifies if and only if neither of its numbers is zero |
| MultiSig.AggregatePoints | cw/libCrypto/MultiSig.cpp:669-722 | the loop returns the group sum of all points, and nothing for an empty list |
| MultiSig.AggregateResponses | cw/libCrypto/MultiSig.cpp:724-757 | the loop returns the sum of all responses modulo the order, and nothing for an empty list |
| Schnorr.AttemptVerifies | cw/libCrypto/Schnorr.cpp:90-243 | a signing attempt verifies under the matching key exactly when the loop would not retry it |
| Schnorr.Sign | cw/libCrypto/Schnorr.cpp:90-243 | whatever Sign returns with success verifies, and it is the attempt with the first usable nonce |
| Consensus.NumForConsensus | cw/libConsensus/ConsensusCommon.cpp:304-306 | the least number of members that is at least 667/1000 of the committee |
| Consensus.Committee.AggregateKeys | cw/libConsensus/ConsensusCommon.cpp:118-134 | the aggregated key is the sum of exactly the keys whose bit is set, also for a bitmap shorter than the committee |
| Consensus.QuorumsOverlap | cw/libConsensus/ConsensusCommon.cpp:304-306 | for every committee size two quorums share strictly more than a third of the members |
| LeaderProof.LeaderCompleteness | cw/libConsensus/ConsensusLeader.cpp:590-663 | with a quorum of individually checked responses the signers are exactly the committed members, and the leader's own verification accepts exactly when challenge and response sum are not zero |
| LeaderProof.StepInv | cw/libConsensus/ConsensusLeader.cpp:322-762 | every step without a reset keeps the leader's invariant: certified messages, subsets of exactly q committed members, responses that open their commits, one winner |
| LeaderProof.StepFaithful | cw/libConsensus/ConsensusLeader.cpp:497-549 | everything a step multicasts is true of the session, and no step revokes the announced message or a certificate |
| LeaderProof.SingleWinner | cw/libConsensus/ConsensusLeader.cpp:289-320 | outside the error state at most one subset is concluded, and it agrees with the session's state |
| LeaderProof.FailureInv | cw/libConsensus/ConsensusLeader.cpp:457-466 | failure reports that do not reset the session affect nothing else |
| LeaderProof.FailuresReset | cw/libConsensus/ConsensusLeader.cpp:438-495 | reports of fewer members than a quorum can spare leave the session as it is; the one that makes them that many sends everyone back to the start |
| LeaderProof.CommitsExactly | cw/libConsensus/ConsensusLeader.cpp:322-390 | a commit message has an effect exactly while commits of its round are collected, if it is the member's first, its point is not neutral and it comes with the point's own hash |
| LeaderProof.ChallengeAtQuorum | cw/libConsensus/ConsensusLeader.cpp:411-427 | with one subset in use an accepted commit starts the challenge if and only if it is the q-th |
| LeaderProof.ChallengeAtTimer | cw/libConsensus/ConsensusLeader.cpp:941-966 | with several, the closing window starts the challenge if and only if at least q members have committed, and ends the session otherwise |
| LeaderProof.CommitChallenges | cw/libConsensus/ConsensusLeader.cpp:111-116 | one subset is challenged with at most one commit to spare, otherwise as many as configured; the message challenges each |
| LeaderProof.TimerChallenges | cw/libConsensus/ConsensusLeader.cpp:111-116 | the same when the window closes |
| LeaderProof.ResponsesRecorded | cw/libConsensus/ConsensusLeader.cpp:583-662 | every acceptable response of a message is put on record in its subset, or the round ends, or the message was dropped because an earlier subset's signature failed |
| LeaderProof.SecondRoundStartsOver | cw/libConsensus/ConsensusLeader.cpp:670-700 | after the first certificate only the leader's own commit is left, no failure report counts, and a new window opens if there are several subsets |
| SubsetGeneration.Shuffle | cw/libConsensus/ConsensusLeader.cpp:200-200 | shuffling yields a permutation |
| SubsetGeneration.PeersWhoCommitted | cw/libConsensus/ConsensusLeader.cpp:104-110 | lists every committed member but the leader exactly once |
| SubsetGeneration.TakeGuards | cw/libConsensus/ConsensusLeader.cpp:144-163 | adds committed guards in order until the quorum is full and puts exactly the other peers aside |
| SubsetGeneration.FillGuardsFirst | cw/libConsensus/ConsensusLeader.cpp:144-181 | the guard-first subset is the leader and the first q - 1 peers with all guards moved to the front |
| SubsetGeneration.FillInOrder | cw/libConsensus/ConsensusLeader.cpp:183-190 | any other subset is the leader and the first q - 1 shuffled peers |
| SubsetGeneration.BuiltIsPick | cw/libConsensus/ConsensusLeader.cpp:101-207 | such a subset has exactly q distinct committed members including the leader, with exactly their commit points |
| SubsetGeneration.GuardOrderIsGuardsFirst | cw/libConsensus/ConsensusLeader.cpp:142-181 | a non-guard peer is taken only when every committed guard is |
| SubsetGeneration.GenerateSubsets | cw/libConsensus/ConsensusLeader.cpp:101-207 | for every commit map with a quorum and all shuffles: the right number of subsets, each well drawn, the first one guards first in guard mode |
| LeaderNode.ConsensusLeader.constructor | cw/libConsensus/ConsensusLeader.cpp:835-887 | a new leader has committed alone and its counters, lists and bitmaps agree |
| LeaderNode.ConsensusLeader.StartConsensus | cw/libConsensus/ConsensusLeader.cpp:891-970 | announces in the initial state only; takes the specified step and keeps all counters consistent |
| LeaderNode.ConsensusLeader.GenerateConsensusSubsets | cw/libConsensus/ConsensusLeader.cpp:101-207 | draws permitted subsets and clears the collected commits |
| LeaderNode.ConsensusLeader.GenerateChallengeMessage | cw/libConsensus/ConsensusLeader.cpp:497-549 | each subset gets the challenge over its own aggregated commits and keys, whatever order commits came in |
| LeaderNode.ConsensusLeader.StartConsensusSubsets | cw/libConsensus/ConsensusLeader.cpp:209-266 | all subsets are challenged and the leader's own response is in each |
| LeaderNode.ConsensusLeader.SetStateSubset | cw/libConsensus/ConsensusLeader.cpp:93-99 | a subset's state only moves forward or back to the start |
| LeaderNode.ConsensusLeader.SubsetEnded | cw/libConsensus/ConsensusLeader.cpp:289-320 | after a success all other subsets are shut down and the session takes the winner's state; after a failure the count of running subsets drops and the session fails with the last |
| LeaderNode.ConsensusLeader.ProcessMessageCommitCore | cw/libConsensus/ConsensusLeader.cpp:322-429 | takes the specified step for any commit message; commit counter, bitmap and list stay in agreement |
| LeaderNode.ConsensusLeader.CommitWindowCloses | cw/libConsensus/ConsensusLeader.cpp:941-966 | the timer step: too few commits end the session, enough start the challenge |
| LeaderNode.ConsensusLeader.GenerateCollectiveSigMessage | cw/libConsensus/ConsensusLeader.cpp:771-818 | yields the subset's collective signature exactly if it verifies |
| LeaderNode.ConsensusLeader.ProcessOneResponse | cw/libConsensus/ConsensusLeader.cpp:590-757 | one subset's response: recorded only if it opens the sender's commit, and the q-th one concludes the round |
| LeaderNode.ConsensusLeader.ProcessMessageResponseCore | cw/libConsensus/ConsensusLeader.cpp:551-762 | takes the specified step for any response message; response counter, bitmap and list stay in agreement and within the quorum |
| LeaderNode.ConsensusLeader.ProcessMessageCommitFailure | cw/libConsensus/ConsensusLeader.cpp:438-495 | takes the specified step; the failure counter never exceeds the number of distinct reporters |
| LeaderNode.ConsensusLeader.ConcludeRound | cw/libConsensus/ConsensusLeader.cpp:664-707 | keeps the certificate, extends the message in round one, shuts the other subsets down |
| BackupNode.ConsensusBackup.ProcessMessageAnnounce | cw/libConsensus/ConsensusBackup.cpp:63-130 | the reaction to an announcement for each verdict of the validator |
| BackupNode.ConsensusBackup.ProcessMessageChallengeCore | cw/libConsensus/ConsensusBackup.cpp:187-272 | answers all subsets if every challenge is the one it recomputes, and is in error otherwise |
| BackupNode.ConsensusBackup.ProcessMessageCollectiveSigCore | cw/libConsensus/ConsensusBackup.cpp:300-378 | verifies, extends the message and commits anew in round one, finishes in round two |
| BackupNode.ConsensusBackup.RecoveryAndProcessFromANewState | cw/libConsensus/ConsensusCommon.cpp:268-270 | a recovery sends the backup back to the start and keeps its invariant |
| BackupNode.ConsensusBackup.ProcessGated | cw/libConsensus/ConsensusCommon.cpp:308-334 | behind the gate every message keeps the invariant that the state tells what was verified |
| BackupSpec.AfterAllInv | cw/libConsensus/ConsensusBackup.cpp:30-61 | the backup's invariant holds after every sequence of messages and recoveries, resets included |
| BackupSpec.DoneMeansBothRounds | cw/libConsensus/ConsensusBackup.cpp:300-378 | against an arbitrary leader, a finished backup has verified both collective signatures, each over the right message and key sum |
| BackupSpec.DoneWentThroughFinalCommit | cw/libConsensus/ConsensusCommon.cpp:308-334 | a finished gated backup went through the final commit |
| BackupSpec.UngatedSkipsRoundOne | cw/libConsensus/ConsensusBackup.cpp:30-42 | the table alone allows finishing without round one; the gate does not |
| BackupSpec.StepKeepsWord | cw/libConsensus/ConsensusBackup.cpp:132-185 | whatever arrives, a backup that has committed holds the secret of the commit it last sent, and that commit was for the round its state names |
| BackupSpec.AnswersAgain | cw/libConsensus/ConsensusBackup.cpp:187-298 | a challenge is answered as often as it comes, each time with the same responses |
| BackupSpec.CertificateTaken | cw/libConsensus/ConsensusBackup.cpp:300-378 | a valid certificate of its round takes a backup on, challenged or not; an invalid one puts it in error |
| BackupSpec.StartsAgain | cw/libConsensus/ConsensusBackup.cpp:132-148 | wherever a backup is, the leader's failure message takes it back to where it commits to the next announcement, and a silent rejection leaves it there |
| Agreement.AgreementInEveryRun | cw/libConsensus/ConsensusBackup.cpp:300-378 | at every point of every run a backup past round one holds the leader's first certificate and extended message, and a finished one the second certificate too |
| Agreement.FinishedBackupsAgree | cw/libConsensus/ConsensusBackup.cpp:366-375 | two finished backups hold the same certificates, whenever they are looked at |
| Agreement.NothingRevoked | cw/libConsensus/ConsensusLeader.cpp:654-757 | along every run the announced message and certificates are set once and for all |
| Agreement.SingleWinnerInEveryRun | cw/libConsensus/ConsensusLeader.cpp:289-320 | single winner, and second certificate only after the first, at every point of every run |
| Agreement.HonestCommitAccepted | cw/libConsensus/ConsensusLeader.cpp:322-390 | a collecting leader accepts a correct backup's commit exactly when its point is not neutral |
| Agreement.HonestResponseAccepted | cw/libConsensus/ConsensusLeader.cpp:606-643 | a correct backup's answer to a subset's challenge is accepted there exactly when it is not zero |
| Agreement.BackupsKeepWord | cw/libConsensus/ConsensusBackup.cpp:132-185 | at every point of every run the secret a backup keeps opens the commit it last sent, and that commit was for the round its state names |
| Agreement.AnswerReachesLeader | cw/libConsensus/ConsensusBackup.cpp:187-272 | in every run, what a backup actually sends in answer to the leader's challenge passes in each subset that holds its last commit exactly unless it is zero, and is then recorded, or the round ends, or an earlier subset fails |
| Agreement.RejectionIsCounted | cw/libConsensus/ConsensusBackup.cpp:82-108 | a backup that rejects the announcement reports it, and the leader counts each member's report once |
| Agreement.ErrorExactly | cw/libConsensus/ConsensusBackup.cpp:187-272 | a backup that has committed enters the error state on a leader's message if and only if it was challenged over an unhashable aggregate |
| Agreement.ErrorHappens | cw/libConsensus/ConsensusBackup.cpp:230-239 | a run of a correct leader and backup whose commit secrets cancel out ends with the committed backup in error |
| Agreement.NeverErrorAfterCommit | cw/libConsensus/ConsensusBackup.cpp:324-332 | in runs whose challenges could be hashed a backup that has committed is never in error afterwards |
| Session.SessionCompletes | cw/libConsensus/ConsensusLeader.cpp:322-762 | for every committee of more than one member, every message and every quorum with the leader in it there is a run of correct nodes, in which the leader receives only what backups sent, that ends with the leader and the whole quorum done and certified by exactly that quorum, provided the aggregates can be hashed and no challenge, response or sum is zero |
| Session.AloneNeverFinishes | cw/libConsensus/ConsensusLeader.cpp:583-662 | in a committee of one no run produces a certificate: only another member's response ends a round |
| MicroBlocks.Directory.VerifyMicroBlockCoSignature | cw/libDirectoryService/MicroBlockProcessing.cpp:54-123 | accepts exactly the blocks certified by exactly a quorum of the shard's (or the DS committee's) members |
| MicroBlocks.FinishedLeaderIsAccepted | cw/libDirectoryService/MicroBlockProcessing.cpp:54-123 | whenever a leader is done in a run, the microblock from its announced message and certificates is accepted |
| MicroBlocks.FinishedBackupIsAccepted | cw/libDirectoryService/MicroBlockProcessing.cpp:54-123 | so is the one any finished backup of that session builds |
| MicroBlocks.AcceptedBlocksOverlap | cw/libDirectoryService/MicroBlockProcessing.cpp:84-97 | two accepted microblocks of one member list share more than a third of the members as second-round signers |
| CollectionProof.RewardsOf | cw/libDirectoryService/Coinbase.cpp:70-85 | the coinbase record credits each member once per round it signed |
| CollectionProof.RaisedBy | cw/libDirectoryService/Coinbase.cpp:66-83 | reputation grows by the number of signatures and stops at 4096 |
| CollectionProof.AtMostOnePerShard | cw/libDirectoryService/MicroBlockProcessing.cpp:283-348 | in every run through an epoch no shard has two microblocks among those held |
| CollectionProof.HeldAreGenuine | cw/libDirectoryService/MicroBlockProcessing.cpp:198-357 | at every point of every run each held block of a shard was sent by one of its miners and certified by a quorum of it, and the coinbase record credits exactly that block's signers |
| CollectionProof.MissingExactly | cw/libDirectoryService/FinalBlockPreProcessing.cpp:419-447 | the missing list holds a hash exactly if the final block lists it for a shard and no held block has it |
| CollectionProof.DropsOne | cw/libDirectoryService/FinalBlockPreProcessing.cpp:1225-1238 | taking the DS block back removes the first one and nothing else |
| CollectionProgress.SubmitExactly | cw/libDirectoryService/MicroBlockProcessing.cpp:198-357 | a submission is added exactly if it is genuine, the collection runs, and its shard is neither held nor on record; it stops the collection exactly if it is the last one |
| CollectionProgress.EarlyIsKept | cw/libDirectoryService/MicroBlockProcessing.cpp:442-461 | early submissions are kept for their epoch, late ones dropped, and nothing else changes |
| CollectionProgress.BufferedIsHeld | cw/libDirectoryService/MicroBlockProcessing.cpp:359-379 | a genuine buffered block whose shard the node waits for is held once the buffer is processed, whatever else the buffer holds |
| CollectionProgress.CollectionCompletes | cw/libDirectoryService/MicroBlockProcessing.cpp:283-348 | in whatever order the shards' genuine blocks arrive, the run stops exactly at the last one with every shard present |
| CollectionProgress.FetchedAreHeld | cw/libDirectoryService/MicroBlockProcessing.cpp:544-664 | all missing genuine blocks of a fetched batch are held afterwards |
| CollectionProof.TriggerExactly | cw/libDirectoryService/MicroBlockProcessing.cpp:333-348 | when an arrival stops the collection, every shard is present if and only if no DS block was held before it |
| CollectionProof.CompleteUnlessClaimed | cw/libDirectoryService/MicroBlockProcessing.cpp:544-664 | the trigger means every shard is present unless a fetched DS block carried a hash that the final block at hand at the start of the epoch lists for a shard |
| CollectionProof.TriggerMeansComplete | cw/libDirectoryService/MicroBlockProcessing.cpp:333-348 | in every run whose block hashes belong to their blocks the trigger means every shard is present |
| CollectionProof.FirstTriggerMeansComplete | cw/libDirectoryService/MicroBlockProcessing.cpp:333-348 | when the final block at hand at the start lists no shard, as in a node's first epoch, it does in every run |
| CollectionProof.TriggerCanBeEarly | cw/libDirectoryService/MicroBlockProcessing.cpp:591-675 | a whole run that stops the collection with a shard's block missing |
| MicroBlockCollector.Collector.SaveCoinbaseCore | cw/libDirectoryService/Coinbase.cpp:32-99 | refuses a shard already on record or bitmaps that do not fit; otherwise credits every signer |
| MicroBlockCollector.Collector.ProcessMicroblockSubmissionFromShardCore | cw/libDirectoryService/MicroBlockProcessing.cpp:198-357 | takes the specified step for a block from its shard, including the trigger |
| MicroBlockCollector.Collector.CommitMBSubmissionMsgBuffer | cw/libDirectoryService/MicroBlockProcessing.cpp:359-379 | processes exactly the current epoch's buffered blocks, in any order of the buffer, and drops only stale epochs |
| MicroBlockCollector.Collector.ProcessMicroblockSubmissionFromShard | cw/libDirectoryService/MicroBlockProcessing.cpp:442-461 | buffers early submissions, processes current ones, drops late ones |
| MicroBlockCollector.Collector.ProcessMissingMicroblockSubmission | cw/libDirectoryService/MicroBlockProcessing.cpp:521-683 | takes the specified step for a batch of fetched blocks, including where it is cut short and the closing check of the final block |
| MicroBlockCollector.Collector.CheckMicroBlocks | cw/libDirectoryService/FinalBlockPreProcessing.cpp:406-478 | the missing list becomes the hashes of exactly those entries for shards whose block is not held; succeeds if there are none |
| MicroBlockCollector.Collector.RemoveDSMicroBlock | cw/libDirectoryService/FinalBlockPreProcessing.cpp:1225-1238 | takes the first DS block out |
| PoWOrdering.SorterOf | cw/libDirectoryService/DSBlockPreProcessing.cpp:634-637 | the sorted list holds exactly the solutions that no later one with the same hash replaces |
| PoWOrdering.GuardModeTrim | cw/libDirectoryService/DSBlockPreProcessing.cpp:658-729 | trimming keeps order and number, and drops a guard only when guards fill their share |
| PoWOrdering.TrimKeepsLeast | cw/libDirectoryService/DSBlockPreProcessing.cpp:652-657 | plain trimming drops a solution only if its hash is larger than all kept, and only when as many are kept as may be |
| PoWOrdering.GuardTrimKeepsLeast | cw/libDirectoryService/DSBlockPreProcessing.cpp:658-729 | in guard mode the guards with the smallest hashes are kept up to the guards' share, and of everything else again the smallest hashes |
| PoWOrdering.SortPoWSoln | cw/libDirectoryService/DSBlockPreProcessing.cpp:632-740 | sorting and trimming in all three modes compute the specified list |
| Sharding.ElectWinners | cw/libDirectoryService/DSBlockPreProcessing.cpp:60-74 | the first solutions by DS difficulty win and leave the sharding list |
| Sharding.GenerateShardCounts | cw/libUtils/ShardSizeCalculator.cpp:58-138 | every count is within tolerance of the target size, there are none exactly when the nodes are too few, and otherwise as many as the target size gives, with one more if the rest suffices; nodes are left out only when every shard is as large as it may be |
| Sharding.MixedExactly | cw/libDirectoryService/DSBlockPreProcessing.cpp:150-178 | every node is in the hash-ascending list under its own key, exactly unless an earlier one has the same mixed hash |
| Sharding.FillIsPrefix | cw/libDirectoryService/DSBlockPreProcessing.cpp:180-209 | the shards, read in order, are a prefix of the hash-ascending list |
| Sharding.FillSizes | cw/libDirectoryService/DSBlockPreProcessing.cpp:180-209 | no shard exceeds its count and a shard is begun only when all before it are full |
| Sharding.ShardingStructure.InjectPoWForDSNode | cw/libDirectoryService/DSBlockPreProcessing.cpp:212-280 | appends the committee's oldest members and makes their addresses known |
| Sharding.ShardingStructure.ComputeSharding | cw/libDirectoryService/DSBlockPreProcessing.cpp:117-210 | fills the shards in order of mixed hash; the key-to-shard map is exactly their inverse |
| ShardingCheck.CleanScan | cw/libDirectoryService/DSBlockPreProcessing.cpp:424-526 | the walk finds no misordered node exactly when all nodes are known, distinct and in order |
| ShardingCheck.ToleratedScan | cw/libDirectoryService/DSBlockPreProcessing.cpp:493-512 | after any walk that reaches the end all nodes are known and distinct, and leaving out at most two nodes for each misordered one leaves the rest in order |
| ShardingCheck.NodesAreGenuine | cw/libDirectoryService/DSBlockPreProcessing.cpp:424-492 | after such a walk every node is on the own list, or its solution was received, or it was attached by the leader and verified |
| ShardingCheck.VerifyPoWOrdering | cw/libDirectoryService/DSBlockPreProcessing.cpp:387-527 | the nested loops compute that walk and compare its count with the tolerance |
| ShardingCheck.ShardingAgreement | cw/libDirectoryService/DSBlockPreProcessing.cpp:387-527 | a backup with the same solutions, committee and last block hash passes the leader's structure with zero misordered nodes and no duplicate key |
| ShardingCheck.ProposeSharding | cw/libDirectoryService/DSBlockPreProcessing.cpp:799-829 | the leader's sequence of sorting, electing, injecting and dealing out gives the structure the agreement is about, with an exact inverse map |
| ShardingCheck.ValidateSharding | cw/libDirectoryService/DSBlockPreProcessing.cpp:408-526 | a backup with the leader's view accepts whatever it proposes, with any tolerance; what it accepts with tolerance t has all nodes known and distinct and is in order up to 2t nodes, with zero tolerance entirely |
| ShardingCheck.RetiringAreListed | cw/libDirectoryService/DSBlockPreProcessing.cpp:212-280 | every retiring committee member is on the list that is dealt out |
| ShardingCheck.WinnersAreLeast | cw/libDirectoryService/DSBlockPreProcessing.cpp:60-74 | the elected have smaller hashes than all others, and there are as many as may be elected |
| ShardingCheck.OthersAreListed | cw/libDirectoryService/DSBlockPreProcessing.cpp:60-74 | a candidate is on the list that is dealt out exactly if it was not elected |
| CommitteeRotation.SeatOf | cw/libDirectoryService/DSBlockPostProcessing.cpp:325-347 | who sits where after any number of winners, with and without guards |
| CommitteeRotation.PoppedAreInjected | cw/libDirectoryService/DSBlockPostProcessing.cpp:325-347 | the members that lose their seat are exactly those injected into the sharding |
| CommitteeRotation.IdleExactlyWhenPopped | cw/libDirectoryService/DSBlockPostProcessing.cpp:256-269 | the index test declares idle exactly the members without a seat if and only if winners do not outnumber non-guard seats |
| CommitteeRotation.RotationKeepsPlace | cw/libDirectoryService/DSBlockPostProcessing.cpp:234-348 | over every sequence of epochs, elections of the node itself included, size and guard seats are unchanged, and a node is idle exactly if it has no seat, its index being its seat otherwise |
| CommitteeRotation.JoinsInPlace | cw/libNode/DSBlockProcessing.cpp:566-591 | an elected shard node finds itself in the seat it computed from its place among the winners |
| CommitteeRotation.PrimaryIsLeader | cw/libDirectoryService/DSBlockPostProcessing.cpp:288-306 | a seated node is primary exactly when its index is the leader's |
| CommitteeRotation.OnePrimary | cw/libDirectoryService/DSBlockPostProcessing.cpp:270-306 | all members agree on the next leader, a guard in guard mode, and at most one of them is primary |
| CommitteeRotation.HashPicksLeader | cw/libDirectoryService/DSBlockPostProcessing.cpp:270-306 | the last block hash picks the leader among the guards in guard mode and among all members otherwise |
| CommitteeRotation.DSNode.UpdateDSCommitteeComposition | cw/libDirectoryService/DSBlockPostProcessing.cpp:310-348 | the deque edits give the specified committee and drop the winners' addresses |
| CommitteeRotation.DSNode.UpdateMyDSModeAndConsensusId | cw/libDirectoryService/DSBlockPostProcessing.cpp:234-308 | index, leader index and mode as specified |
| CommitteeRotation.DSNode.ProcessDSBlockAsShardNode | cw/libNode/DSBlockProcessing.cpp:538-624 | the same moment at a shard node: it follows the committee and takes its seat when elected |
| CommitteeRotation.DSNode.FinishDSEpoch | cw/libDirectoryService/DSBlockPostProcessing.cpp:630-631 | after both updates the node still knows its seat |
| ViewChange.CalculateNewLeaderIndex | cw/libDirectoryService/ViewChangePreProcessing.cpp:483-538 | the first hash of the chain that does not pick the current leader |
| ViewChange.CandidateIsFirst | cw/libDirectoryService/ViewChangePreProcessing.cpp:483-538 | no hash before the one that picks the candidate picks another member |
| ViewChange.Reordered | cw/libDirectoryService/ViewChangePostProcessing.cpp:152-184 | members never recorded keep their order in front, recorded ones follow in order of last failure, repeats included |
| ViewChange.ReorderingPermutes | cw/libDirectoryService/ViewChangePostProcessing.cpp:152-184 | moving recorded members back is a permutation |
| ViewChange.FinishInv | cw/libDirectoryService/ViewChangePostProcessing.cpp:145-228 | after a view change the indices point at this node and at the candidate, who is not the replaced leader |
| ViewChange.RunKeeps | cw/libDirectoryService/ViewChangePreProcessing.cpp:299-323 | over every sequence of attempts, view changes and completed blocks the committee stays a permutation and the indices right |
| ViewChange.FinishIsPublic | cw/libDirectoryService/ViewChangePostProcessing.cpp:152-228 | with each node's own entry translated, reordering and leader index are those of the public committee |
| ViewChange.RunsAgree | cw/libDirectoryService/ViewChangePostProcessing.cpp:145-228 | nodes that go through the same attempts, view changes and blocks keep the same committee order, leader and record |
| ViewChange.ReplacedLeaderRecorded | cw/libDirectoryService/ViewChangePreProcessing.cpp:299-321 | the replaced leader is among those moved back if and only if this is the first view change of its block consensus or it holds seat 0 |
| ViewChange.LeaderBlamedAfterBlock | cw/libDirectoryService/ViewChangePreProcessing.cpp:299-321 | once the interrupted block is done, whoever leads next and fails is the one recorded |
| ViewChange.SecondViewChangeBlamesSeatZero | cw/libDirectoryService/ViewChangePreProcessing.cpp:299-321 | a run in which another member is recorded instead of the failed leader |
| ViewChange.ViewChanger.RunConsensusOnViewChange | cw/libDirectoryService/ViewChangePreProcessing.cpp:299-323 | records the faulty leader under its public address and picks a candidate other than the leader |
| ViewChange.ViewChanger.ProcessViewChangeConsensusWhenDone | cw/libDirectoryService/ViewChangePostProcessing.cpp:145-228 | reorders the committee and recomputes both indices, also where a search fails |
| Coinbase.CutsFitExactly | cw/libDirectoryService/Coinbase.cpp:190-221 | base and lookup cuts never exceed the total, for every total, exactly when the percentages sum to at most 100 |
| Coinbase.ComputeShares | cw/libDirectoryService/Coinbase.cpp:180-234 | fails exactly on overflow or an empty count; otherwise the rounded-down shares of base cut, lookup cut and the rest |
| Coinbase.CostFits | cw/libDirectoryService/Coinbase.cpp:190-234 | a base share for every node and a share for every entry on record never exceed the total |
| Coinbase.CreditedTotal | cw/libDirectoryService/Coinbase.cpp:239-243 | crediting the fees adds exactly them, unless the account would overflow |
| Coinbase.MovedConserves | cw/libData/AccountData/AccountStoreBase.tpp:240-257 | a transfer creates and destroys nothing |
| Coinbase.Treasury.PayBase | cw/libDirectoryService/Coinbase.cpp:257-312 | pays every node but guards, in order, to its own address, and remembers who is in line for the draw |
| Coinbase.Treasury.PayRecord | cw/libDirectoryService/Coinbase.cpp:327-367 | pays one record in order: guards' signatures count without payment, failed payments do not count |
| Coinbase.SpentFits | cw/libDirectoryService/Coinbase.cpp:370-372 | with percentages of at most 100 and fewer than 2^32 lookup entries the subtractions of the remainder do not underflow, for every history |
| Coinbase.PayoutConserves | cw/libDirectoryService/Coinbase.cpp:239-412 | whatever is on record, whoever is a guard and whichever payments fail, no coin is created or lost and at most the total reward leaves the coinbase account |
| Coinbase.PayoutIsWhole | cw/libDirectoryService/Coinbase.cpp:239-412 | without guards a funded account pays out exactly the total reward |
| Coinbase.PayoutByAccount | cw/libDirectoryService/Coinbase.cpp:245-412 | with or without guards, a funded payout raises every account by exactly a base share for each of its nodes, a signature share for each of its signatures and a lookup share for each of its lookup entries, guards excepted, plus the remainder if it is drawn |
| Coinbase.GuardsGainNothing | cw/libDirectoryService/Coinbase.cpp:257-367 | an address held by guards only, and by no lookup entry, gains nothing |
| Coinbase.SharesAreLargest | cw/libDirectoryService/Coinbase.cpp:190-234 | each share is the largest that goes round: the base cut, the lookup cut and the rest are handed out up to less than one coin per receiver |
| Coinbase.PayoutKeepsTotal | cw/libDirectoryService/Coinbase.cpp:239-412 | no payout creates or loses a coin, also where a count, a reward or the remainder wraps around |
| Coinbase.PayoutSoundExactly | cw/libDirectoryService/Coinbase.cpp:166-412 | for every record: the remainder is never negative, no more than the total leaves the account, and a funded account pays exactly the total, whatever the rewards and balances, each if and only if there are fewer than 2^32 lookup entries or one of the three counts comes to 0 |
| Coinbase.Overdrawn | cw/libDirectoryService/Coinbase.cpp:166-372 | for every other record, a reward and balances with which the payout takes one coin more than the total |
| Coinbase.PercentagesExactly | cw/libDirectoryService/Coinbase.cpp:190-372 | with right counts the remainder is never negative, for every epoch, reward and balances, if and only if the two configured percentages sum to at most 100 |
| Coinbase.Treasury.InitCoinbase | cw/libDirectoryService/Coinbase.cpp:134-412 | pays exactly when the shares can be computed; every early exit leaves all balances as they were; otherwise the balances are those of the specified payout |
| GasPricer.GetHistoricalMeanGasPrice | cw/libDirectoryService/GasPricer.cpp:55-80 | the loop computes the mean of the window without block 0, skipping what would overflow |
| GasPricer.MeanBetween | cw/libDirectoryService/GasPricer.cpp:55-80 | the mean respects every bound its window respects |
| GasPricer.MeanIsAverage | cw/libDirectoryService/GasPricer.cpp:55-80 | it is the rounded-down average of the last block and as many before it as configured, block 0 left out, whenever their sum fits in 128 bits |
| GasPricer.SortedOf | cw/libDirectoryService/GasPricer.cpp:112-117 | the ordered proposals are exactly those within the upper bound |
| GasPricer.GetIncreasedGasPrice | cw/libDirectoryService/GasPricer.cpp:82-138 | the loops compute the specified increase |
| GasPricer.IncreaseBounds | cw/libDirectoryService/GasPricer.cpp:82-138 | an increase lies between the mean and the larger of floor and upper bound |
| GasPricer.DecreaseBounds | cw/libDirectoryService/GasPricer.cpp:140-163 | a decrease lies between the floor and the larger of floor and mean |
| GasPricer.PriceFollowsLoad | cw/libDirectoryService/GasPricer.cpp:25-53 | counted by blocks: below the low share the price drops to the floor or to the mean less the drop ratio, above the high share it is at least the mean and at most the larger of floor and upper bound, in between it stays, but not below the floor |
| GasPricer.DropIsStrict | cw/libDirectoryService/GasPricer.cpp:140-163 | a drop from a mean above the floor is strictly below the mean |
| GasPricer.IncreaseFollowsProposals | cw/libDirectoryService/GasPricer.cpp:82-138 | an increase is what the middle one of the proposals within the upper bound asks for, but neither below the lower bound nor below the floor; without such proposals it is the mean |
| GasPricer.RaiseBoundsAre | cw/libDirectoryService/GasPricer.cpp:82-109 | the upper bound is the mean raised by the upper ratio, rounded down; the lower one the whole multiple of the mean that the lower ratio gives |
| GasPricer.GetNewGasPrice | cw/libDirectoryService/GasPricer.cpp:25-53 | raises, lowers or keeps according to the share of full blocks |
| GasPricer.OwnPriceAccepted | cw/libDirectoryService/GasPricer.cpp:165-213 | a node with the leader's view accepts the leader's price |
| GasPricer.AcceptsExactly | cw/libDirectoryService/GasPricer.cpp:165-213 | a price is accepted if and only if it is within the tolerance of one's own on both sides, overflowing products excepted |
| GasPricer.VerifyGasPrice | cw/libDirectoryService/GasPricer.cpp:165-213 | accepts exactly the prices within tolerance of one's own |
| GasPricer.ChainStaysAboveFloor | cw/libDirectoryService/GasPricer.cpp:25-213 | every leader-computed price of a chain that starts at or above the floor is at or above it |
| DataSender.DetermineShardToSendDataTo | cw/libNetwork/DataSender.cpp:126-147 | cluster and shard range of a co-signer |
| DataSender.SendDataToOthers | cw/libNetwork/DataSender.cpp:252-327 | a node acts exactly if it co-signed, by its rank among the co-signers |
| DataSender.SendsExactly | cw/libNetwork/DataSender.cpp:126-146 | a co-signer sends to a shard exactly when its cluster is the shard's; no range overlaps another or is lost to the guard |
| DataSender.RangesAreEven | cw/libNetwork/DataSender.cpp:126-147 | no cluster serves more shards than the rounded-up quotient of shards and clusters |
| DataSender.EveryShardIsServed | cw/libNetwork/DataSender.cpp:305-316 | every shard's cluster has a co-signer in it |
| DataSender.LookupSenders | cw/libNetwork/DataSender.cpp:287-303 | exactly min(co-signers, window) members inform the lookup nodes |
| DataSender.WhoMayInform | cw/libNetwork/DataSender.cpp:287-299 | with more co-signers than the window holds every co-signer but the last may come to inform the lookup nodes, and the last never does |

## Left out

- Message encoding, the network, gossip, peer address checks, storage, logging, clocks: messages are values, their loss and order are arbitrary.
- SHA-256, curve arithmetic and encodings, random numbers: arbitrary functions over an abstract group; random nonces, shuffles and hash values are inputs.
- LeaderNode.ConsensusLeader.ProcessMessageCommitFailure: a failure report that resets the session promises no invariant beyond its counter, because StartConsensus does not clear the commit map afterwards; `Agreement` is about runs without such a reset.
- Redundant commits kept for statistics and the scratch field for the last collective signature in the leader.
- LeaderProof.SingleWinner: does not cover sessions in the error state, where subsets keep whatever state they had.
- Schnorr.Sign: termination of the nonce loop is not claimed; running out of nonces stands for the generator failing.
- ViewChange.CalculateNewLeaderIndex: termination of re-hashing is not claimed; the chain of hashes is an input.
- Microblocks whose version, previous hash, epoch or DS block differ are not totally ordered, so the C++ set leaves open whether such a block is inserted; the model takes any held block that is neither before nor after it, with equal transaction hashes, for the same.
- CollectionProof.AtMostOnePerShard: runs are within one epoch; blocks fetched for another epoch are recorded under the current one, as the code does, and stored under theirs.
- MicroBlockCollector.Collector.CheckMicroBlocks: with no final block at hand the model leaves the missing list as it is, while the code dereferences the empty pointer (cw/libDirectoryService/FinalBlockPreProcessing.cpp:425), so the model claims nothing about such a call.
- The state-delta processing of a microblock and the checks on its header are booleans that arrive with it.
- Sharding.ShardingStructure.InjectPoWForDSNode: requires that no committee member submitted a solution; the branch that skips a duplicate key, and leaves the hash object unreset, is not modelled.
- Sharding.ShardingStructure.ComputeSharding: requires the lower tolerance to be smaller than the target size, so that every shard count is positive; otherwise the code only warns, and dealing into a shard of count zero would wrap its counter around.
- Sharding.GenerateShardCounts: requires a positive target size; the code divides by it.
- Consensus.Committee.AggregateKeys: requires a bitmap no longer than the committee; the code would read past the member list.
- Verification of solutions the leader attaches (a set of keys that verified), priorities and reputation beyond the coinbase record, difficulty adjustment.
- Receiver choice within a shard (DetermineNodesToSendDataTo): the mixed co-signed case uses two start offsets, so no clean count holds.
- The view-change state table, final block field checks, DS block assembly and persistence: single comparisons or plumbing.
- Lookup nodes, synchronisation and rejoining; in particular a node that wakes up in the middle of an epoch and starts the final block's consensus at once (cw/libNode/Node.cpp:905-920).
- No liveness is claimed anywhere: time-outs are steps that may or may not happen.
