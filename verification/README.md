# BFT diagnosis platform: verified models

The repository runs Byzantine fault tolerant protocols on consensus nodes, lets a controller drive test
campaigns against them and lets an analyzer count what they report. This project models its hardest parts
in Dafny and proves what they promise over every run, every event order and every input.

| files | component |
|---|---|
| `Common` | options, machine words and the counting facts behind quorum arguments |
| `ChainNode`, `ChainHandlers`, `ChainSystem`, `ChainLocks`, `ChainAgreement`, `ChainConflict`, `ChainReplica` | chained HotStuff: one node's handlers as functions and what they do, n nodes with an unreliable network as a step system, locks and completions read off the signed ballots, when completed blocks agree and a run in which they do not, and the node and its log as objects |
| `BasicNode`, `BasicHandlers`, `BasicSystem`, `BasicVoting`, `BasicAgreement`, `BasicDecisions`, `BasicScheduler`, `BasicExact`, `BasicProgress`, `BasicReplica` | basic HotStuff in the same forms: votes, agreement across views and what becomes of decisions, how runs are built, the runs that lose agreement when a scheduler assumption is dropped and those that go on under all three |
| `Campaign`, `CampaignPlan`, `CampaignSets`, `CampaignRules`, `Barrier`, `CampaignRounds`, `Controller` | the controller's campaign state machine, what it enumerates and which nodes it uses up, its failures, the reset barrier between rounds, both together, and the controller object |
| `PbftKeys`, `PbftNewView`, `PbftNode`, `PbftHandlers`, `PbftRun`, `PbftVotes`, `PbftExecution`, `PbftReplica` | the byte keys of the PBFT message log, new-view construction and its re-computation, one replica's handlers and what they do, its replies, votes and executions over runs, and the log and executor objects |
| `Throughput`, `Warehouse` | the analyzer's incremental counts and latency rounds |
| `Json` | leaf paths of JSON objects and the edit of one leaf |

`dafny verify dfyconfig.toml` checks everything.

How the code is rendered:

- A handler is a function from the node state to the new state and the queued messages. The same handler is
  a method of a class that updates its fields in place; its contract says that it computes that function.
  Theorems about runs are lemmas about the functions.
- The network of the HotStuff systems is a growing set of queued messages: a step delivers any of them, late,
  again or never, or lets a node propose or time out. Nodes may stop at any point. In an *open* run of
  chained HotStuff arbitrary proposals may be delivered as well.
- Hashes are injective and signatures ideal: a share exists only if its node signed. That a certificate has
  2f+1 signers is obtained from the collecting code, never from the threshold check, whose keys are
  generated with threshold parameter f (protocols/src/basic_hotstuff/common.rs:27), so that f+1 shares suffice.
- A failed `unwrap`, an `expect`, an explicit `panic!` and a checked integer overflow become an error value.
- Maps that the code iterates are visited in an arbitrary order, and results are shown not to depend on it.

Where the code differs from its comments or from what one expects, the code is followed and the difference is
a result:

- `verify_viewchanges_in_newview` and `verify_viewchange` insert an id only if it is already present, so both
  are always false and no NewView is ever accepted (`PbftNewView.VerifyViewChanges`).
- The check of the PrePrepares in a NewView compares only the common length, so every prefix and every
  extension of the right list passes (`PbftNewView.VerdictByLength`).
- PBFT thresholds are exactly 2f recorded messages, duplicates included, although the comments say 2f+1.
- A PBFT primary never advances its number, so all its PrePrepares are for one number (`PbftHandlers.OneNumber`).
- Late CheckPoints take the stable checkpoint back to a lower number (`PbftHandlers.StableFallsExactly`,
  `PbftHandlers.StableFallsBack`).
- Reply keys join fields of free length and can coincide, even for replies of different views
  (`PbftKeys.ReplyKeysCollide`, `PbftKeys.ReplyKeyPair`).
- The field lists are used up by the first probing campaign, so a second one panics; a delay item stalls
  (`CampaignPlan.CampaignEnds`). When all nodes of a round are crash nodes and the report is not last, the next
  test never starts (`Barrier.BarrierOpens`, `Barrier.AllCrashStalls`). `CampaignRounds.CampaignAlwaysEnds` has the
  exact condition for a campaign to end wherever the reports fall.
- When no node is left to join, a scalability round pops the next configured item and never runs it
  (`CampaignRules.NoneToJoin`).
- An end that is reported again after it was counted is counted twice (`Throughput.IncrementalIsBatch`).
- A latency is wrong for a start within 100000 of the largest word (`Warehouse.LatencyExact`).
- Basic HotStuff votes on any acceptable proposal whatever its view and whatever was signed before
  (`BasicNode.PrepareIgnoresViews`). Its agreement theorem therefore takes three scheduler assumptions, stated in
  `BasicSystem.Scheduled`: one proposal per view, made from the high certificate that was computed from the
  reports of the view before, and each report delivered once. All three are needed: for every f >= 1 and n = 3f+1
  all runs agree if and only if all three are kept (`BasicExact.AgreementExactly`). Runs that keep them can decide and
  report any list of commands (`BasicProgress.CanGoOn`).
- Chained HotStuff proposes on whatever certificate is at hand, and reports a command complete at the end of any
  chain of three links, whether or not views were skipped. So its completed blocks can conflict. For every f >= 1
  and n = 3f+1, all runs whose proposals carry certificates at most `gap` views old complete blocks of one parent
  chain if and only if `gap` is at most 1 (`ChainConflict.AgreementExactly`).

## Model

| member | source | states |
|---|---|---|
| `ChainSystem.CertificateUnique` | protocols/src/chain_hotstuff/protocol.rs:277-465 | in every run, even with arbitrary proposals delivered, two ballots of one view that both gather 2f+1 distinct shares are for the same block (f >= 1, n <= 3f+1) |
| `ChainSystem.ViewsFall` | protocols/src/chain_hotstuff/protocol.rs:217-275 | when proposals come from the nodes themselves, a block certified at view v has no justify or one of a view strictly below v, even if a lagging leader proposes with a newer certificate |
| `ChainSystem.ThreeChainExecution` | protocols/src/chain_hotstuff/protocol.rs:385-532 | in every run of this code every certificate at any depth of any queued message has 2f+1 signers, and every block reported complete is certified and has two certified descendants linked by parent hash, of strictly rising views |
| `ChainAgreement.OneChain` | protocols/src/chain_hotstuff/protocol.rs:217-532 | if every proposal of a run carries the certificate of the view just before it, any two certified blocks lie on one parent chain |
| `ChainAgreement.DirectAgrees` | protocols/src/chain_hotstuff/protocol.rs:385-532 | then any two completed blocks do |
| `ChainConflict.TwoCompleted` | protocols/src/chain_hotstuff/protocol.rs:217-532 | for every f >= 1 a run of 3f+1 nodes of this code, in which no proposal carries a certificate more than two views old, completes two blocks of which neither extends the other |
| `ChainConflict.AgreementExactly` | protocols/src/chain_hotstuff/protocol.rs:217-532 | for every f >= 1 and n = 3f+1 and every bound, all runs whose proposals carry certificates at most that many views old complete blocks of one parent chain if and only if the bound is at most 1 |
| `ChainConflict.Views` | protocols/src/chain_hotstuff/protocol.rs:217-532 | two branches can take turns for any number of views, every node voting for both, and each goes on completing blocks |
| `ChainSystem.LeaderHandOver` | protocols/src/chain_hotstuff/protocol.rs:84-180 | in every reachable state the number table is exactly 0..n-1, both leader fields are its entries for view and view+1 mod n, lookups succeed, and every queued vote of view v goes to the leader of v+1 |
| `ChainSystem.WiredNoPanic` | protocols/src/chain_hotstuff/protocol.rs:106-180 | once the key tables are stored no action makes a node panic, except a vote from an unknown sender |
| `ChainSystem.RunNoPanic` | protocols/src/chain_hotstuff/protocol.rs:106-383 | in every run of this code no delivery, proposal or time-out makes a node panic; with arbitrary messages only a vote that was never sent and names no configured node does |
| `ChainSystem.KeyTableDense` | protocols/src/chain_hotstuff/common.rs:41-67 | key distribution numbers the peers 0..n-1 without gaps |
| `ChainSystem.NumberTableDense` | protocols/src/chain_hotstuff/protocol.rs:84-103 | the inverse table is the same whatever order the key table is walked in |
| `ChainSystem.OneBallot` | protocols/src/chain_hotstuff/protocol.rs:420-465 | a node that is not the collector of a view never signs two ballots of it |
| `ChainLocks.NeverAgainstLock` | protocols/src/chain_hotstuff/protocol.rs:202-215 | in every run, open or closed, no ballot is signed against the lock its signer held: the justify is newer than that lock or the parent is the locked block; without a lock the justify is not of view 0 or the parent is empty |
| `ChainLocks.LocksAndCompletions` | protocols/src/chain_hotstuff/protocol.rs:466-532 | in every run each node's lock is the grandparent certificate of its last ballot that has one, and exactly the great-grandparents of signed blocks have been completed |
| `ChainLocks.SignsExactly` | protocols/src/chain_hotstuff/protocol.rs:385-532 | a proposal of the node's view is signed exactly if the lock rule permits it; then the vote goes to the next leader or is filed, and certificates, lock and execution follow the parent links; a refused one changes nothing but the record of commands |
| `ChainLocks.KeylessTakes` | protocols/src/chain_hotstuff/protocol.rs:385-532 | without a key no vote is given, but certificates, lock and execution follow; a key without a number fails |
| `ChainHandlers.RunAddressed` | protocols/src/chain_hotstuff/protocol.rs:122-180 | in every run each queued report went from a node to another one, the leader of the view after it, and each proposal to all |
| `ChainHandlers.LeavesView` | protocols/src/chain_hotstuff/protocol.rs:106-180 | leaders are looked up modulo the number of nodes, and the new one gets a report with the node's certificate unless it is the node itself |
| `ChainHandlers.CountsReport` | protocols/src/chain_hotstuff/protocol.rs:360-383 | exactly the report that makes 2f+1 moves the node on, with the first of the newest certificates among its own and the reported ones |
| `ChainHandlers.CountsVote` | protocols/src/chain_hotstuff/protocol.rs:301-358 | unknown senders fail, foreign shares are ignored, and exactly the share that makes 2f+1 forms the certificate |
| `ChainHandlers.Proposes` | protocols/src/chain_hotstuff/protocol.rs:217-275 | a request becomes a proposal to all on the high certificate, or on nothing, and is then handled as the node's own |
| `ChainSystem.VoteBacked` | protocols/src/chain_hotstuff/protocol.rs:301-358 | a certificate is formed only from 2f+1 shares of distinct signers that were each checked |
| `ChainSystem.RunInv` | protocols/src/chain_hotstuff/protocol.rs:217-532 | the table, log and voting-order invariant holds in every reachable state |
| `ChainSystem.RunBacked` | protocols/src/chain_hotstuff/protocol.rs:217-383 | all certificates held or sent are backed to any depth in every run of this code |
| `ChainReplica.HighQCIsHighest` | protocols/src/chain_hotstuff/log.rs:38-58 | the specification of the high certificate is a maximum by view of the given certificate and the collected justifies |
| `ChainReplica.Log.RecordGeneric` | protocols/src/chain_hotstuff/log.rs:20-27 | appends to the reports of one view and leaves the others |
| `ChainReplica.Log.GetHighQCByView` | protocols/src/chain_hotstuff/log.rs:38-58 | the loop returns the specified maximum |
| `ChainReplica.Log.RecordPartialSignature` | protocols/src/chain_hotstuff/log.rs:61-74 | files one share under its ballot and number, replacing only that number's share |
| `ChainReplica.ChainHotStuff.ChangeLeader` | protocols/src/chain_hotstuff/protocol.rs:106-119 | sets both leader fields from the number table, or fails when an entry is missing |
| `ChainReplica.ChainHotStuff.NextView` | protocols/src/chain_hotstuff/protocol.rs:122-180 | computes the specified view change and its report to the new leader |
| `ChainReplica.ChainHotStuff.FillNumbers` | protocols/src/chain_hotstuff/protocol.rs:84-103 | the loop adds the inverse of the received table, walked in an arbitrary order |
| `ChainReplica.ChainHotStuff.StoreKeyTable` | protocols/src/chain_hotstuff/protocol.rs:84-103 | fills the number table in an arbitrary order and enters the next view |
| `ChainReplica.ChainHotStuff.HandleVote` | protocols/src/chain_hotstuff/protocol.rs:301-358 | computes the specified vote collection |
| `ChainReplica.ChainHotStuff.HandleNewViewGeneric` | protocols/src/chain_hotstuff/protocol.rs:360-383 | computes the specified collection of reports |
| `ChainReplica.ChainHotStuff.CastVote` | protocols/src/chain_hotstuff/protocol.rs:393-465 | signs the ballot of the current view, and files it or sends it and leaves the view |
| `ChainReplica.ChainHotStuff.Advance` | protocols/src/chain_hotstuff/protocol.rs:466-532 | computes the specified pre-commit, commit and decide steps on the ancestors |
| `ChainReplica.ChainHotStuff.ReplicaHandleGeneric` | protocols/src/chain_hotstuff/protocol.rs:385-532 | computes the specified handling of a proposal, and an accepted one resets the time-out |
| `ChainReplica.ChainHotStuff.HandleGeneric` | protocols/src/chain_hotstuff/protocol.rs:277-298 | separates reports from proposals and checks the view, as specified |
| `ChainReplica.ChainHotStuff.HandleRequest` | protocols/src/chain_hotstuff/protocol.rs:217-275 | proposes on the high certificate and handles its own proposal, as specified |
| `ChainReplica.ChainHotStuff.ViewTimeout` | protocols/src/chain_hotstuff/protocol.rs:801-808 | a time-out doubles the time allowed for a view and enters the next one, and fails exactly when the leader lookup does or the doubling overflows |
| `BasicAgreement.Agreement` | protocols/src/basic_hotstuff/protocol.rs:195-840 | in every scheduled run with n = 3f+1 any two decided blocks lie on one parent chain |
| `BasicAgreement.LaterExtends` | protocols/src/basic_hotstuff/protocol.rs:276-315 | every proposal of a view later than a pre-commit quorum for (v, b) extends b |
| `BasicAgreement.LaterJustify` | protocols/src/basic_hotstuff/protocol.rs:257-315 | the justify of such a proposal is of view v or later |
| `BasicAgreement.CollectedCover` | protocols/src/basic_hotstuff/log.rs:37-57 | the certificate computed from 2f+1 reports is at least as recent as every pre-commit ballot of their senders |
| `BasicAgreement.RunSched` | protocols/src/basic_hotstuff/protocol.rs:195-315 | the report, collection, high-certificate and proposal invariant of scheduled runs |
| `BasicSystem.PhaseLadder` | protocols/src/basic_hotstuff/protocol.rs:397-840 | a decided (v, b) has 2f+1 PREPARE, PRE_COMMIT and COMMIT voters for exactly (v, b), and each COMMIT voter holds a lock of view at least v in every later state |
| `BasicSystem.Ladder` | protocols/src/basic_hotstuff/protocol.rs:397-772 | a certified ballot rests on certified ballots of all lower phases and on a proposal |
| `BasicSystem.CollectOk` | protocols/src/basic_hotstuff/protocol.rs:397-470 | a certificate is formed only from 2f+1 checked shares of distinct signers |
| `BasicSystem.RunInv` | protocols/src/basic_hotstuff/protocol.rs:195-840 | the certificate, lock and ballot invariant of every run, scheduled or not |
| `BasicNode.PrepareIgnoresViews` | protocols/src/basic_hotstuff/protocol.rs:317-394 | a proposal is signed exactly if its parent is its justify's block and the justify is newer than the lock or of the locked block, whatever the view and whatever was signed before |
| `BasicVoting.VotesExactly` | protocols/src/basic_hotstuff/protocol.rs:249-394 | the exact condition and effect of a vote on a proposal, case by case of justify and lock |
| `BasicVoting.ProposalsAccepted` | protocols/src/basic_hotstuff/protocol.rs:317-394 | in every scheduled run each queued proposal is voted for by every node whose lock is of an earlier view, or that has none |
| `BasicDecisions.DecisionsAnnounced` | protocols/src/basic_hotstuff/protocol.rs:689-840 | in every run each decision has been announced to all nodes, and the commands reported complete are exactly those of decided blocks |
| `BasicDecisions.AllReport` | protocols/src/basic_hotstuff/protocol.rs:317-840 | from any state whose nodes share a view and vote for a proposed block, every node can report it complete and leave for the next leader |
| `BasicProgress.CanGoOn` | protocols/src/basic_hotstuff/protocol.rs:188-840 | for every f >= 1, n = 3f+1 and every list of commands, a run under all three assumptions decides a block for each command, each on the one before, and every node reports every command |
| `BasicProgress.GrowOne` | protocols/src/basic_hotstuff/protocol.rs:188-840 | one view of such a run, ending with the next leader's high certificate on the block just decided |
| `BasicHandlers.LeavesView` | protocols/src/basic_hotstuff/protocol.rs:188-246 | the next leader gets a report with the node's prepare certificate unless it is the node itself |
| `BasicHandlers.CountsReport` | protocols/src/basic_hotstuff/protocol.rs:257-274 | exactly the report that makes 2f+1 gives the high certificate, the first of the newest among the node's and the reported ones |
| `BasicHandlers.Proposes` | protocols/src/basic_hotstuff/protocol.rs:276-315 | a request becomes a proposal to all on the high certificate, or on nothing |
| `BasicHandlers.PreCommits` | protocols/src/basic_hotstuff/protocol.rs:472-547 | a pre-commit message is followed exactly if its certificate is of kind PREPARE, of the node's view and signed for its own ballot |
| `BasicHandlers.Commits` | protocols/src/basic_hotstuff/protocol.rs:616-687 | a commit message is followed under the same conditions on a PRE_COMMIT certificate, which becomes the lock |
| `BasicHandlers.Decides` | protocols/src/basic_hotstuff/protocol.rs:774-840 | a decide message is followed under the same conditions on a COMMIT certificate: the command is reported and the view left |
| `BasicHandlers.CountsVote` | protocols/src/basic_hotstuff/protocol.rs:397-772 | exactly the checked share that makes 2f+1 forms the certificate and sends the next phase's message to all, or decides and announces it |
| `BasicExact.AgreementExactly` | protocols/src/basic_hotstuff/protocol.rs:195-840 | for every f >= 1 and n = 3f+1, all runs under a choice of scheduler assumptions agree if and only if all three are chosen |
| `BasicExact.WithoutA1` | protocols/src/basic_hotstuff/protocol.rs:276-394 | for every f >= 1, two proposals in one view suffice to decide two conflicting blocks, all other assumptions kept |
| `BasicExact.WithoutA2` | protocols/src/basic_hotstuff/protocol.rs:257-315 | for every f >= 1, a proposer that ignores the reports of the view before suffices to decide a block that conflicts with an earlier decision, all other assumptions kept |
| `BasicExact.WithoutA3` | protocols/src/basic_hotstuff/protocol.rs:257-274 | for every f >= 1, one report delivered 2f+1 times suffices to decide two conflicting blocks, all other assumptions kept |
| `BasicScheduler.DecideBlock` | protocols/src/basic_hotstuff/protocol.rs:317-772 | from any state whose nodes share a view, a block that they vote for is decided by 2f+1 voters, and the decision announced |
| `BasicScheduler.SignOne` | protocols/src/basic_hotstuff/protocol.rs:317-394 | a node asked for a vote in its view gives it, whatever it voted for before |
| `BasicReplica.Log.RecordNewView` | protocols/src/basic_hotstuff/log.rs:20-27 | appends to the reports of one view |
| `BasicReplica.Log.GetHighQCByView` | protocols/src/basic_hotstuff/log.rs:37-57 | the loop returns the specified maximum |
| `BasicReplica.Log.RecordPartialSignature` | protocols/src/basic_hotstuff/log.rs:59-72 | files one share under its ballot and number |
| `BasicReplica.BasicHotStuff.EnterNextView` | protocols/src/basic_hotstuff/protocol.rs:188-246 | computes the specified view change and report |
| `BasicReplica.BasicHotStuff.HandleNewView` | protocols/src/basic_hotstuff/protocol.rs:257-274 | computes the specified collection of reports |
| `BasicReplica.BasicHotStuff.HandleRequest` | protocols/src/basic_hotstuff/protocol.rs:276-315 | proposes a block on the high certificate |
| `BasicReplica.BasicHotStuff.HandlePrepare` | protocols/src/basic_hotstuff/protocol.rs:317-394 | computes the specified vote on a proposal |
| `BasicReplica.BasicHotStuff.HandlePreCommit` | protocols/src/basic_hotstuff/protocol.rs:472-547 | computes the specified pre-commit step |
| `BasicReplica.BasicHotStuff.HandleCommit` | protocols/src/basic_hotstuff/protocol.rs:616-687 | computes the specified commit step and lock |
| `BasicReplica.BasicHotStuff.HandleDecide` | protocols/src/basic_hotstuff/protocol.rs:774-840 | computes the specified decision and view change |
| `BasicReplica.BasicHotStuff.HandleVote` | protocols/src/basic_hotstuff/protocol.rs:397-772 | computes the specified collection for all three phases |
| `CampaignPlan.Enumeration` | components/src/controller/controller.rs:1241-1362 | a probing campaign visits every (phase, field, count), by phase, then field from last to first, then count 1..N, at an exactly computable round |
| `CampaignPlan.NothingElse` | components/src/controller/controller.rs:1241-1362 | it visits nothing else |
| `CampaignPlan.NoRepeat` | components/src/controller/controller.rs:1241-1362 | and nothing twice, when fields are distinct |
| `CampaignPlan.ProbeItem` | components/src/controller/controller.rs:1030-1040 | the state machine runs exactly that enumeration after the first round and then stops with all fields used up |
| `CampaignPlan.CampaignEnds` | components/src/controller/controller.rs:1134-1367 | with enough nodes and known fields, and provided the reset barrier opens in every round, a campaign ends if and only if it is orderly, and then in round k runs the k-th entry of the plan |
| `CampaignPlan.OrderlyEnds` | components/src/controller/controller.rs:1134-1367 | provided the reset barrier opens in every round, an orderly campaign runs exactly its plan and finishes after as many rounds |
| `CampaignPlan.OthersStop` | components/src/controller/controller.rs:869-869 | any other campaign stalls on a delay item or panics on missing fields |
| `CampaignPlan.RoundsOf` | components/src/controller/controller.rs:1134-1367 | the number of rounds of an item in closed form |
| `CampaignPlan.ChainSegment` | components/src/controller/controller.rs:1138-1240 | scalability, crash, feign-death and duplicate items run their successors one by one and end |
| `CampaignSets.NodesUsed` | components/src/controller/controller.rs:709-874 | in every round of every campaign with enough nodes, wherever reports fall, a scalability round for n nodes with interval i has used (n-1)/i joins, and a crash round for n nodes leaves all but n to crash |
| `CampaignRules.FailsExactly` | components/src/controller/controller.rs:1134-1367 | a report fails exactly if a count leaves the range of 16 bits or the next phase is unknown |
| `CampaignRules.ConfiguresTop` | components/src/controller/controller.rs:536-652 | the top item is popped, with all nodes to crash or all but one to join |
| `CampaignRules.GoesAhead` | components/src/controller/controller.rs:709-874 | a middle item takes one node out of its set, or none if it needs none |
| `CampaignRules.NoneToJoin` | components/src/controller/controller.rs:983-999 | with no node to join, the item on top of the stack is swallowed and the scalability item announced |
| `CampaignRules.NoneToCrash` | components/src/controller/controller.rs:848-868 | with no node to crash, or none for ambiguous messages, the next item follows |
| `CampaignRules.TooFewConspire` | components/src/controller/controller.rs:800-846 | with too few nodes to conspire, the item on top of the stack is configured first |
| `CampaignRules.SilentExactly` | components/src/controller/controller.rs:709-874 | the campaign falls silent exactly on delay and measuring items, and on feigned deaths and duplicates without a dishonest node |
| `CampaignRules.PanicsExactly` | components/src/controller/controller.rs:709-874 | it panics exactly on a first round that needs a phase |
| `CampaignRounds.CampaignAlwaysEnds` | components/src/controller/controller.rs:1134-1428 | wherever the reports of its rounds fall, a campaign with enough nodes and known fields ends if and only if it is orderly and no crash item goes up to all nodes, and then it runs its plan |
| `CampaignRounds.RoundOutcome` | components/src/controller/controller.rs:1399-1428 | over every complete interleaving of a round the next test starts exactly if some node is no crash node or the report came last |
| `CampaignRounds.FullCrashStalls` | components/src/controller/controller.rs:1147-1152 | an orderly campaign with a crash item up to all nodes has a run that never ends |
| `Controller.ConfiguredCampaign` | components/src/controller/controller.rs:151-261 | from the settings: wherever reports fall, the items run in configured order to the end if and only if they are orderly and none crashes every node |
| `Controller.ConfiguredExactly` | components/src/controller/controller.rs:151-261 | the items that settings configure: one measuring item, a scalability and a crash item if enabled, and one item per known behaviour name, in order |
| `Controller.Controller.Setup` | components/src/controller/controller.rs:151-261 | the stack is the reverse of what was there followed by the configured items, and configuration fails exactly if listed behaviours lack a number of phases |
| `Controller.Controller.PushBehaviours` | components/src/controller/controller.rs:204-246 | the loop pushes the item of every known behaviour name in order |
| `Controller.Controller.MaliciousTestNextField` | components/src/controller/controller.rs:1030-1040 | pops the last field; an empty phase is removed and an unknown one fails |
| `Controller.Controller.CompletedTest` | components/src/controller/controller.rs:1134-1367 | computes the specified middle item |
| `Controller.Controller.ConfigureAnalyzerAndConsensusNode` | components/src/controller/controller.rs:536-652 | pops and announces the next item and refills the node sets: all but the drawn node to join, or all to crash |
| `Controller.Controller.NextTest` | components/src/controller/controller.rs:709-874 | computes the specified next test, and takes exactly one node out of the set of those that can join or crash, as reported |
| `Controller.Controller.CheckResetAllSuccess` | components/src/controller/controller.rs:1542-1552 | the next test starts exactly when the counters add up to all nodes, and they are cleared |
| `Controller.Controller.ResetSuccess` | components/src/controller/controller.rs:1399-1428 | counts an acknowledgement of either kind, as specified |
| `Controller.Controller.ResetConsensusNode` | components/src/controller/controller.rs:670-707 | starts the next test at once or asks the nodes to reset |
| `Barrier.BarrierSafe` | components/src/controller/controller.rs:1399-1428 | over every interleaving of stops, crashes, acknowledgements and the report the next test starts at most once, only after the report and all acknowledgements, and with cleared counters |
| `Barrier.BarrierOpens` | components/src/protocol_actuator.rs:310-351 | a round in which nothing more can happen has started the next test exactly if some node is not a crash node or the report came last |
| `Barrier.FiresExactly` | components/src/controller/controller.rs:1399-1428 | which acknowledgement or report starts the next test, with the 16-bit sum, and that a start clears both counts |
| `Barrier.RoundIsFinite` | components/src/protocol_actuator.rs:383-392 | every event uses up one of the 2n+1 events of a round |
| `Barrier.AllCrashStalls` | components/src/protocol_actuator.rs:1002-1020 | a concrete round of crash nodes whose next test never starts |
| `PbftKeys.KeyImageInjective` | consensus/src/pbft/common.rs:14-62 | two key pre-images are equal exactly if prefix, view, number and digest are, over all 64-bit words |
| `PbftKeys.LookupsAgree` | consensus/src/pbft/common.rs:65-103 | a message is recorded under a lookup's key exactly if it is a vote of that kind, view, number and digest |
| `PbftKeys.WordRoundTrip` | consensus/src/pbft/common.rs:19-22 | the big-endian bytes of a word determine it |
| `PbftKeys.ReplyKeysCollide` | consensus/src/pbft/common.rs:104-118 | two replies whose client id and timestamp have the same joint length share a key exactly if those two concatenate alike and view, number and result are equal |
| `PbftKeys.ReplyKeyPair` | consensus/src/pbft/common.rs:104-118 | a concrete pair of replies of different views shares a key |
| `PbftNewView.MaxSequenceNumber` | consensus/src/pbft/log.rs:266-290 | the primary's loop returns the largest Prepare number in all ViewChanges, 0 if none |
| `PbftNewView.CollectPrePrepares` | consensus/src/pbft/log.rs:343-359 | the table holds, for every mentioned number, the first PrePrepare in ViewChange order |
| `PbftNewView.Rebuild` | consensus/src/pbft/log.rs:361-379 | the list is contiguous from min+1 to max with the first PrePrepare or a no-op for each number, and the sums overflow exactly at the largest word |
| `PbftReplica.Executor.VerifyPrePrepares` | consensus/src/pbft/executor.rs:836-885 | the replica's own computation accepts exactly the lists that agree with the right one on their common length |
| `PbftReplica.Executor.MaxSequenceNumberByViewChanges` | consensus/src/pbft/executor.rs:800-818 | the replica's loop returns the largest Prepare number in all ViewChanges, 0 if none |
| `PbftReplica.Executor.FirstPrePrepares` | consensus/src/pbft/executor.rs:845-861 | the replica's loop collects, for every mentioned number, the first PrePrepare in ViewChange order |
| `PbftNewView.PrimaryAndReplicaAgree` | consensus/src/pbft/executor.rs:238-259 | every NewView the primary builds passes the check |
| `PbftNewView.VerdictByLength` | consensus/src/pbft/executor.rs:881-884 | the check accepts exactly the prefixes and extensions of the right list, and of full length only that list |
| `PbftNewView.NotExecuted` | consensus/src/pbft/log.rs:292-329 | returns, once each and in any order, the first PrePrepares of the numbers in range |
| `PbftNewView.FillersAside` | consensus/src/pbft/log.rs:292-380 | the entries of a new-view list that are not fillers are exactly those |
| `PbftNewView.EntryExactly` | consensus/src/pbft/log.rs:361-379 | the entry of each number is the first PrePrepare for it, or a no-op with the hash text NULL |
| `PbftNewView.OrderKept` | consensus/src/pbft/log.rs:343-359 | PrePrepares are taken in the order of the ViewChanges |
| `PbftNewView.MessageOrderKept` | consensus/src/pbft/log.rs:343-359 | and within one ViewChange in the order of its messages |
| `PbftNewView.VerifyViewChanges` | consensus/src/pbft/executor.rs:821-830 | rejects every list |
| `PbftNewView.VerifyViewChange` | consensus/src/pbft/executor.rs:888-909 | rejects every ViewChange |
| `PbftRun.OneReplyPerSlot` | consensus/src/pbft/executor.rs:311-619 | over any delivery sequence, with any duplicates, at most one Reply per (view, number), and all Replies for a number answer its one recorded request |
| `PbftRun.RepliedIffCommitted` | consensus/src/pbft/executor.rs:493-619 | a slot has been answered exactly if 2f commits for the hash of its request are recorded |
| `PbftVotes.CommitIffPrepared` | consensus/src/pbft/executor.rs:394-490 | over any deliveries a Commit for a view and number has been sent exactly if 2f Prepares for the hash of its request are recorded |
| `PbftVotes.CommitMatches` | consensus/src/pbft/executor.rs:456-490 | each Commit sent carries the hash of its number's request, rests on 2f recorded Prepares of exactly its slot, and is the only one for it |
| `PbftVotes.PreparesMatch` | consensus/src/pbft/executor.rs:311-391 | over any deliveries as many Prepares have been sent for a slot as PrePrepares are recorded for it |
| `PbftVotes.SentAreOwn` | consensus/src/pbft/executor.rs:311-619 | everything sent names the replica and carries its signature on the unsigned message |
| `PbftExecution.ExecutionOrder` | consensus/src/pbft/executor.rs:562-618 | over any deliveries there is one execution per Reply, the digest chain follows the Replies, and a checkpoint with its digest was sent after exactly every 50th execution |
| `PbftExecution.FilesExactly` | consensus/src/pbft/executor.rs:311-662 | a verified vote is recorded exactly if its number is in the window, its view is the replica's, its number has a request of that hash and the hash has not passed that phase |
| `PbftHandlers.Announces` | consensus/src/pbft/executor.rs:262-308 | a request is announced for the number after the replica's, and the first request of that number stays |
| `PbftHandlers.PrePrepares` | consensus/src/pbft/executor.rs:311-391 | the exact conditions, failures and effect of a PrePrepare |
| `PbftHandlers.Prepares` | consensus/src/pbft/executor.rs:394-490 | the exact conditions, failures and effect of a Prepare, with the Commit at the 2f-th |
| `PbftHandlers.Commits` | consensus/src/pbft/executor.rs:493-619 | the exact conditions, failures and effect of a Commit, with the execution at the 2f-th |
| `PbftHandlers.Replies` | consensus/src/pbft/executor.rs:622-662 | the f+1-st Reply completes the client's request, or fails on text that does not decode |
| `PbftHandlers.CheckPoints2f` | consensus/src/pbft/executor.rs:665-690 | the 2f-th CheckPoint becomes stable, older or newer, and the recorded ones of lower numbers are dropped |
| `PbftHandlers.StableFallsExactly` | consensus/src/pbft/executor.rs:665-690 | the stable number falls exactly if a CheckPoint of a lower number is the 2f-th of its digest |
| `PbftHandlers.StableFallsBack` | consensus/src/pbft/executor.rs:665-690 | for every f >= 1 a run in which it falls from 100 to 50 |
| `PbftHandlers.OneNumber` | consensus/src/pbft/executor.rs:262-308 | all PrePrepares of a run are for the number after the replica's first one |
| `PbftHandlers.TimesOut` | consensus/src/pbft/executor.rs:203-234 | the view change is entered once, and fails exactly with a pending request or at the last view |
| `PbftHandlers.ViewChanges` | consensus/src/pbft/executor.rs:693-727 | a ViewChange for a later view is recorded; beyond f the replica joins, beyond 2f the primary computes the new view |
| `PbftHandlers.NewViews` | consensus/src/pbft/executor.rs:730-797 | a NewView changes nothing, and fails exactly if its list cannot be computed |
| `PbftHandlers.Dispatches` | consensus/src/pbft/executor.rs:76-122 | which messages reach their handlers in which mode and behind which signature check |
| `PbftRun.BucketsHoldMatchingVotes` | consensus/src/pbft/log.rs:440-480 | every bucket that a vote lookup reaches holds only votes of that kind, view, number and digest |
| `PbftRun.RequestsWrittenOnce` | consensus/src/pbft/log.rs:410-414 | the request of a number is never replaced, and the view never changes, over any run |
| `PbftReplica.ConsensusLog.RecordRequest` | consensus/src/pbft/log.rs:410-414 | keeps the first request of a number |
| `PbftReplica.ConsensusLog.RecordMessage` | consensus/src/pbft/log.rs:440-480 | appends to the bucket of the key and leaves the others |
| `PbftReplica.ConsensusLog.DiscardBefore` | consensus/src/pbft/log.rs:122-164 | removes exactly the checkpoint messages below the stable number |
| `PbftReplica.ConsensusLog.MaxSequenceNumberByView` | consensus/src/pbft/log.rs:266-290 | the largest Prepare number in the ViewChanges of a view |
| `PbftReplica.ConsensusLog.CreateNewViewPrePrepares` | consensus/src/pbft/log.rs:331-380 | the new-view list of a view |
| `PbftReplica.Executor.HandleRequest` | consensus/src/pbft/executor.rs:262-308 | computes the specified PrePrepare |
| `PbftReplica.Executor.HandlePrePrepare` | consensus/src/pbft/executor.rs:311-391 | computes the specified step behind the signature check |
| `PbftReplica.Executor.HandlePrepare` | consensus/src/pbft/executor.rs:394-490 | computes the specified step behind the signature check |
| `PbftReplica.Executor.HandleCommit` | consensus/src/pbft/executor.rs:493-619 | computes the specified step behind the signature check |
| `PbftReplica.Executor.ExecuteRequest` | consensus/src/pbft/executor.rs:562-618 | computes the specified execution, checkpoint and reply |
| `PbftReplica.Executor.HandleReply` | consensus/src/pbft/executor.rs:622-662 | computes the specified step |
| `PbftReplica.Executor.HandleCheckPoint` | consensus/src/pbft/executor.rs:665-690 | computes the specified step |
| `PbftReplica.Executor.BroadcastViewChange` | consensus/src/pbft/executor.rs:203-234 | enters the abnormal mode, and panics exactly if a request is pending or the view overflows |
| `PbftReplica.Executor.BroadcastNewView` | consensus/src/pbft/executor.rs:238-259 | builds the new-view message of the recorded ViewChanges, and fails exactly if there are none or a sum overflows |
| `PbftReplica.Executor.HandleViewChange` | consensus/src/pbft/executor.rs:693-727 | computes the specified step |
| `PbftReplica.Executor.HandleNewView` | consensus/src/pbft/executor.rs:730-797 | rejects every NewView, or panics where the recomputation does |
| `Throughput.IncrementalIsBatch` | components/src/analyzer/data_warehouse.rs:315-361 | after a compute round a peer's count equals one batch count over everything since the reset if and only if no end was reported again after it was counted, and is larger otherwise |
| `Throughput.OnceMeansBatch` | components/src/analyzer/data_warehouse.rs:283-305 | with each end reported once the counts agree, whatever the interleaving and whether ends precede starts |
| `Throughput.RepeatIsCountedTwice` | components/src/analyzer/data_warehouse.rs:598-604 | a concrete history that is counted twice |
| `Throughput.RoundsCounted` | components/src/analyzer/data_warehouse.rs:315-361 | over any history the round is the number of compute rounds, and starts and pending ends are those reported, since the last reset |
| `Warehouse.CountMatched` | components/src/analyzer/data_warehouse.rs:323-329 | the loop counts exactly the matched ends, in any order, and keeps the others |
| `Warehouse.EmitRows` | components/src/analyzer/data_warehouse.rs:366-387 | the loop emits one row for each end with a start and a latency within the limit, in any order, and keeps the others |
| `Warehouse.LatencyPartition` | components/src/analyzer/data_warehouse.rs:363-400 | every pending end becomes exactly one row or is kept unchanged, and every latency is at most 100000 |
| `Warehouse.LatencyExact` | components/src/analyzer/data_warehouse.rs:376-378 | the emitted latencies of a start are true differences for every completion time exactly if the start is below 2^64 - 100000 |
| `Warehouse.RowsExactly` | components/src/analyzer/data_warehouse.rs:363-400 | a row is emitted exactly for a pending end with a start and a difference modulo 2^64 of at most 100000, which is its latency |
| `Warehouse.DataWarehouse.StoreStart` | components/src/analyzer/data_warehouse.rs:283-288 | a start report |
| `Warehouse.DataWarehouse.StoreEnd` | components/src/analyzer/data_warehouse.rs:290-297 | an end report |
| `Warehouse.DataWarehouse.ComputeThroughput` | components/src/analyzer/data_warehouse.rs:315-361 | one compute round of the specified count table |
| `Warehouse.DataWarehouse.ComputeLatency` | components/src/analyzer/data_warehouse.rs:363-400 | one latency round; the starts are unchanged |
| `Warehouse.DataWarehouse.Reset` | components/src/analyzer/data_warehouse.rs:628-639 | empties every table |
| `Json.PathsExact` | utils/src/parse.rs:14-38 | every non-empty key path to a value that is not an object is listed exactly once, and nothing else |
| `Json.MapIntoStringTree` | utils/src/parse.rs:14-38 | the loop returns the specified tree and path list |
| `Json.TreeMirrors` | utils/src/parse.rs:14-38 | the label tree has a node for every key path to a value, and for no other |
| `Json.NodesAreKeys` | utils/src/parse.rs:14-38 | the nodes of an object are its keys in order, each once |
| `Json.SingleLeafEdit` | utils/src/parse.rs:40-92 | the edit of any listed path succeeds, alters that leaf, leaves the value at every other leaf path and keeps the same paths |
| `Json.ModifyHits` | utils/src/parse.rs:45-89 | the edit succeeds exactly if the path leads to a value, and alters that value |
| `Json.AlteredDiffers` | utils/src/parse.rs:55-74 | in exact arithmetic, the edit changes a value exactly if it is not null, not an object and not already the error value |
| `Json.AltersExactly` | utils/src/parse.rs:53-74 | what the edit makes of each kind of value |
| `Json.FieldsKnown` | components/src/controller/controller.rs:1535-1537 | field lists taken from valid objects with a leaf are what a probing campaign needs: non-empty, of non-empty fields, without repetition |

## Left out

- libp2p, gossip, unicast, timers, notifications and spawned tasks: delivery and time-outs are arbitrary steps.
- BLS, Ed25519, SHA-3, bincode and serde: ideal signatures, injective hashes and codecs; the PBFT signature check is an arbitrary verdict per delivery.
- Byzantine leaders or voters in either HotStuff, and agreement between PBFT replicas: the handlers lack the checks these need.
- Key distribution messages and `protocol_reset`: a run starts when the key tables are stored; stale `request_buffer` handling and other near-identical protocol variants would only repeat members.
- The 64-bit overflow of HotStuff view numbers and of PBFT commit counts: views and counts are unbounded there.
- Liveness of the protocols: no progress under timing assumptions is claimed; that runs can go on is shown by runs (`BasicProgress.CanGoOn`, `ChainConflict.Views`).
- The controller's feedback handlers, command line and message-phase parsing: the waiting set is fixed during a campaign.
- u16 overflow of the acknowledgement counters: within a round they are bounded by the number of nodes.
- PBFT proof collection, ViewChange contents and the discarding of votes: the request table they read is never written, so they have no live data.
- `PbftNode` checkpoint digests: the digest chain is an arbitrary function.
- f64 throughput values, `compute_scalability_latency` and the MySQL rows: results are counts and rows in memory; numbers in JSON are real numbers without rounding.
- Json.AlteredDiffers: does not model the rounding of 64-bit floats, where 99 added to a number as large as 1e300 leaves it unchanged.
- Overflow of the time-out doubling is a failure of the node object; the step systems let a node time out at any time.
- consensus/src/honeybadger and the older executors under consensus/src: not compiled or near copies.
