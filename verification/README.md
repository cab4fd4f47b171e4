# Models and proofs of the protocols

A Dafny model of the protocols and engines this repository builds, and proofs of what they
are for. Each network protocol is a state machine: a lock-protected handler or timer body
is one step, over arbitrary interleavings, with any number of nodes, views, terms and
values. The node itself is also written as a class with the fields of the program's
`State`; its methods are proved against the function or relation that the state machine
uses for the same step, so the theorems are about those bodies.

Safety alone would also hold of a node that answers nothing. So for each operation there is
also a theorem that says, by the history of a run, when it answers and what, or a run in which
everything it is for gets done.

| files | what they model |
|---|---|
| `Quorums`, `Text`, `Tallies` | set sizes and quorum overlap; the string operations on command lines; tallies that keep first votes |
| `PbftReplica`, `PbftSystem`, `PbftQuorums`, `PbftSafety`, `PbftTheorems`, `PbftValidity`, `PbftAnswers`, `PbftComplaints`, `PbftVotes` | module 11, PBFT-style consensus with up to f arbitrary members, crashes and view changes |
| `PbftScripts`, `PbftEvidence`, `PbftNecessity`, `PbftTorn`, `PbftExact` | runs of module 11 that end in disagreement, and exactly when there is none |
| `RaftNode`, `RaftSystem`, `RaftSafety`, `RaftReplication`, `RaftTheorems`, `RaftAnswers`, `RaftStore` | module 07, Raft with whole-log replacement, crashes and reloads |
| `RaftLocks`, `RaftLate` | the two locks a leader's thread takes before a round, and what a deposition between them can do |
| `RaftWire`, `RaftRequest`, `RaftFile`, `RaftWireRuns` | its text forms: the log, the append request, the state file, and what runs write in them |
| `BrachaNode`, `BrachaSafety`, `BrachaReach`, `BrachaVotes` | module 10, Bracha's double-echo broadcast |
| `CausalNode`, `CausalSystem`, `CausalOrder`, `CausalReach` | module 06, waiting causal broadcast |
| `Treiber`, `TreiberProgress` | module 03, the Treiber stack |
| `Transactions`, `Mvcc`, `MvccSystem`, `Occ`, `OccSystem`, `OccTheorems`, `OccConflicts` | module 09, the multi-version and the optimistic engine |
| `TwoPhaseNode`, `TwoPhase`, `TwoPhaseRuns`, `TwoPhaseFile` | module 08, two-phase commit, and its state file |
| `StateFiles` | lines and numbers in the state files of modules 07 and 08 |

What the proofs rest on:

- **PBFT.** Signatures are ideal: a signature is a member and a statement, and nobody else
  can make it. Up to f = (n-1)/3 members are arbitrary. The module's notes claim safety for
  n > 3f (11-byzantine-consensus/README.md:90), and safety across crashes because the facts it
  rests on are on disk before a message leaves (11-byzantine-consensus/README.md:122-124). The
  code falls short of both:
  - it mixes the vote threshold `2*count > n+f` with the view-change threshold `2f+1`. For
    every n = 3f+3 there is a run with f faulty members in which two correct ones decide
    differently (`Disagreement`); with three members it needs no faulty one;
  - a replica that enters a view writes its file twice (main.rs:732 and :740), first the view
    and then the proposal it votes for. One that crashes in between reloads ready to vote for
    anything. For every other n > 1 there is a run in which f members are faulty, just enough
    correct ones crash so in one view to make a vote quorum with them (f+1 when n = 3f+1), and
    two correct ones decide differently (`TornDisagreement`).

  These are the only ways: agreement holds of all runs with at most h such crashes a view if
  and only if n is not a multiple of three and h + f is no vote quorum, or n is 1
  (`AgreementExactly`). `Agreement`, and what it rests on (`LockIn`, `CommitsAgree`,
  `LockedNewView`, the invariant), are therefore about n that are no multiple of three, and
  about runs that are sparse: in no view are the members that crashed so and the faulty ones a
  vote quorum. All else holds of every n and every run. The proof of agreement carries two facts along a run: a value that was, or
  still can be, committed in a view is the only one prepared in later views by members that
  entered them whole, and a member that has complained past a view no longer commits in it.
- **Raft.** The append requests of one node to another are handled in the order they were
  sent, as the sequential sender and listener have it; any of them may be lost. The proof keeps
  the log of each term's leader as history. A heartbeat's reading of role, term, log and commit
  index is one step of the cluster, but the thread takes its lock twice (07-raft/src/main.rs:210
  and :216). With two steps, a run in which each round's node still leads the term it has read
  when it reads its log is a run of the cluster (`OneLockIsEnough`), so every theorem holds of
  it. A round that is late sends whatever log the node then has under its old term. From three
  nodes on there is a run in which a deposed leader so sends its successor's log to a node that
  has not heard of the successor and then handles an earlier, shorter request of it: its file
  ends with a commit index past its log, and it panics at every start (`LateRunStrands`). Every
  node can start again in all runs exactly when no round is late (`RestartableExactly`).
- **Two-phase commit.** One coordinator session; each request is handled at most once, as the
  coordinator never sends one again.

Where the code and its notes disagree, the model follows the code. Besides the two above: a
command with white space other than ' ', a tab for one, passes Raft's client interface, and from
then on the leader's append line has more words than the five the listener matches, so nobody
reads it (`TabCommandUnread`, `ReadExactly`); to the state machine such a request is a lost
one. A `~` in a command, which the interface refuses, would do no harm (`RoundTripExactly`).

## Model

| member | source | states |
|---|---|---|
| PbftReplica.VerifyCert | 11-byzantine-consensus/src/main.rs:193-226 | accepts exactly the certificates in which more than (n+f)/2 distinct members' first listed signatures verify for the certificate's view and value |
| PbftReplica.SelectValue | 11-byzantine-consensus/src/main.rs:285-307 | returns a verifying claim of highest view among the complaints toward the new view, whatever order the map is iterated in, and none exactly when there is no verifying claim |
| PbftReplica.CollectCert | 11-byzantine-consensus/src/main.rs:566-576 | the certificate lists every vote for the value once, with the signature that came with it, and nothing else |
| PbftReplica.CollectWishes | 11-byzantine-consensus/src/main.rs:648-655 | what a NEWVIEW forwards is every recorded complaint toward that view, and no other |
| PbftReplica.CheckRecords | 11-byzantine-consensus/src/main.rs:691-710 | the records a replica counts are the first per sender among those for the right view with a valid envelope |
| PbftReplica.Replica.constructor | 11-byzantine-consensus/src/main.rs:341-363 | a restart keeps view, vote, certificate, decision and complaint, and forgets the tallies and the expected value |
| PbftReplica.Replica.HandlePrePrepare | 11-byzantine-consensus/src/main.rs:520-545 | one PREPARE per view, only for the leader's value, only the expected one when there is one, never past a complaint |
| PbftReplica.Replica.HandlePrepare | 11-byzantine-consensus/src/main.rs:546-590 | first vote per sender, current view only, no certificate or COMMIT once the replica complained past the view |
| PbftReplica.Replica.HandleCommit | 11-byzantine-consensus/src/main.rs:591-610 | decides on a commit quorum of the current view, once |
| PbftReplica.Replica.HandleViewChange | 11-byzantine-consensus/src/main.rs:611-679 | joins on f+1 complaints, leads on 2f+1, and proposes what the complaints select |
| PbftReplica.Replica.HandleNewView | 11-byzantine-consensus/src/main.rs:680-756 | enters a later view only on 2f+1 valid complaints and the proposal they select, and prepares that proposal |
| PbftReplica.Replica.Receive | 11-byzantine-consensus/src/main.rs:507-757 | a message without its sender's signature changes nothing; any other runs the arm the state machine has for it |
| PbftReplica.Replica.TimerFires | 11-byzantine-consensus/src/main.rs:470-494 | an undecided replica complains one view past everything it complained about, with its certificate |
| PbftQuorums.ThresholdsMeetExactly | 11-byzantine-consensus/src/main.rs:336-337 | with f = (n-1)/3, every vote quorum and every set of 2f+1 complainers share a correct member, whoever the f faulty are, if and only if n is not a multiple of 3 |
| PbftQuorums.UniqueInView | 11-byzantine-consensus/src/main.rs:562-577 | for every n, at most one value can be certified in a view |
| PbftQuorums.LockIn | 11-byzantine-consensus/src/main.rs:285-307 | in a sparse state, whatever complaints a view is entered on, they select m for every (v, m) below it that committed or can still commit |
| PbftTheorems.StepKeepsInv | 11-byzantine-consensus/src/main.rs:506-757 | in a sparse state every message, timeout, proposal and restart, and every crash between the two writes of entering a view, keeps the whole invariant, the lock between views included |
| PbftTheorems.Agreement | 11-byzantine-consensus/src/main.rs:519-753 | no two correct replicas ever hold different decisions, at any two times of any run with at most f arbitrary members, crashes and view changes, as long as in no view those that crashed between the two writes of entering it and the faulty ones are a vote quorum |
| PbftTheorems.DecisionIsFinal | 11-byzantine-consensus/src/main.rs:604-608 | for every n and in every run a decision is never changed or lost, also not by a restart or a crash between two writes |
| PbftTheorems.LockedNewView | 11-byzantine-consensus/src/main.rs:680-731 | in a sparse run, once a commit quorum for (v, m) was sent, every NEWVIEW above v on which a correct replica enters proposes m |
| PbftTheorems.SelectionIsUnique | 11-byzantine-consensus/src/main.rs:285-307 | two runs of the selection over known complaints give the same value, whatever the iteration order, for every n and whether or not the lock between views holds |
| PbftTheorems.StepKeepsSound | 11-byzantine-consensus/src/main.rs:506-757 | for every n, every step, crashes between two writes included, keeps what each correct replica's votes, certificates, complaints, tallies, decision and NEWVIEWs must satisfy |
| PbftTheorems.HonestNewViewAccepted | 11-byzantine-consensus/src/main.rs:647-724 | for every n and in every run, a correct leader's NEWVIEW is never rejected by a correct replica still below that view, which enters it and votes for its proposal |
| PbftTheorems.HeldCertificates | 11-byzantine-consensus/src/main.rs:566-577 | for every n and in every state of every run the certificates correct replicas hold verify, and two of one view are for one value |
| PbftTheorems.CommitsAgree | 11-byzantine-consensus/src/main.rs:600-608 | in a sparse state two commit quorums, in whatever views, are for one value |
| PbftScripts.Round | 11-byzantine-consensus/src/main.rs:519-610 | from any reachable state in which a group of correct members, the leader of their view among them, waits for a proposal and with the faulty ones is exactly a vote quorum, and for any value, there is a run of one view in which they all vote and commit to it, a chosen one of them decides it, and nobody else's state changes |
| PbftNecessity.Disagreement | 11-byzantine-consensus/src/main.rs:711-724 | for every f there is a run with n = 3f+3 and f faulty members in which two correct members decide any two given values |
| PbftTorn.TornDisagreement | 11-byzantine-consensus/src/main.rs:725-740 | for every n > 1 that is no multiple of 3 there is a run with f faulty members, in which just so many correct ones as make a vote quorum with them crash between the two writes of entering view 1, and two correct members decide any two given values |
| PbftExact.AgreementExactly | 11-byzantine-consensus/src/main.rs:336-337 | no run with at most f = (n-1)/3 faulty members and at most h such crashes a view has two correct members decide differently, if and only if n is not a multiple of 3 and h + f is no vote quorum, or n is 1 |
| PbftExact.DisagreementIsConflict | 11-byzantine-consensus/src/main.rs:600-608 | whenever two correct members have decided differently, commit quorums for two different values have been sent |
| PbftValidity.WeakValidity | 11-byzantine-consensus/src/main.rs:379-396 | for every n and in every run without a faulty member, a decided value was proposed by the leader of some view |
| PbftComplaints.OnFileExactly | 11-byzantine-consensus/src/main.rs:611-625 | what a correct member has on file of q is a complaint it has handled from q since it last started, of the highest view among those, and nothing exactly when it has handled none |
| PbftComplaints.JoinsComplaints | 11-byzantine-consensus/src/main.rs:627-646 | a member that has handled complaints toward a view past its own from more than f members, none of them heard toward a later one, has itself complained toward that view or a later one |
| PbftComplaints.LeadsOnComplaints | 11-byzantine-consensus/src/main.rs:647-676 | and from more than 2f, being the view's leader, it has signed a NEWVIEW for it |
| PbftComplaints.ComplaintsExplained | 11-byzantine-consensus/src/main.rs:470-494 | a correct member complains only past its view, with the certificate it holds, and only when its timer fires while it is undecided or more than f members have complained to it toward that view |
| PbftComplaints.EntersOnLeadersWord | 11-byzantine-consensus/src/main.rs:680-731 | a correct member's view changes only to a later one, and only on a NEWVIEW signed by that view's leader |
| PbftAnswers.VotesExactly | 11-byzantine-consensus/src/main.rs:520-545 | a correct member answers the leader's PREPREPARE of view v with its vote if and only if v is its view, it has signed no vote in v, and it has signed no complaint toward a later view |
| PbftAnswers.ComplainsToward | 11-byzantine-consensus/src/main.rs:474-479 | when its timer fires an undecided member complains toward the first view past its own and past all it has complained toward |
| PbftVotes.FirstVotesCount | 11-byzantine-consensus/src/main.rs:546-600 | a member's PREPAREs and COMMITs on file are exactly those of the members who sent it one for its view since it entered it or last started, each with its first |
| PbftVotes.RecordsTaken | 11-byzantine-consensus/src/main.rs:691-710 | the records taken from a NEWVIEW are of each member the first that names the view and bears that member's signature |
| PbftVotes.VotesOnce | 11-byzantine-consensus/src/main.rs:520-545 | a correct member broadcasts one vote in a view, whatever crashes it goes through |
| PbftVotes.CommitsOnce | 11-byzantine-consensus/src/main.rs:563-590 | and one COMMIT, unless it starts again in between |
| RaftNode.ApplyReplays | 07-raft/src/main.rs:30-44 | a store that replays the applied prefix of the log replays the committed prefix after apply |
| RaftNode.ApplyFailsExactly | 07-raft/src/main.rs:30-32 | apply indexes past the log exactly when something is left to apply and the commit index exceeds the log |
| RaftNode.SortDescending | 07-raft/src/main.rs:253-253 | the sorted lengths descend and hold every length as often as before |
| RaftNode.AgreedLength | 07-raft/src/main.rs:225-258 | the majority-th largest length is held by a majority in this term, and one more entry is not; 0 when less than a majority answered |
| RaftNode.HighestTerm | 07-raft/src/main.rs:298-312 | the highest term among the replies and the round's own |
| RaftNode.Server.constructor | 07-raft/src/main.rs:178-188 | a node starts from its file as a follower with an empty store |
| RaftNode.Server.ApplyCommitted | 07-raft/src/main.rs:30-44 | the loop computes the recursive apply, and reports when the program would panic |
| RaftNode.Server.Campaign | 07-raft/src/main.rs:282-295 | a new term and a vote for itself, on disk before any request |
| RaftNode.Server.EndCampaign | 07-raft/src/main.rs:297-329 | leader only with a majority of votes of the round's term while still a candidate of it; deposed by any higher term |
| RaftNode.Server.RequestVote | 07-raft/src/main.rs:349-381 | one vote per term, only for a log at least as up to date, on disk before the reply |
| RaftNode.Server.Append | 07-raft/src/main.rs:383-405 | a request of a current or later term replaces the log, never lowers the commit index, and is on disk before the reply |
| RaftNode.Server.EndBeat | 07-raft/src/main.rs:225-268 | the commit index moves only while still leader of the round's term, only to an entry of that term a majority holds |
| RaftNode.Server.Command | 07-raft/src/main.rs:406-426 | only a leader appends, only commands without the delimiters |
| RaftNode.Server.Get | 07-raft/src/main.rs:427-439 | a leader answers from the store after applying what is committed |
| RaftTheorems.StepKeepsInv | 07-raft/src/main.rs:199-442 | every timer round, request, reply, command and restart keeps the whole invariant |
| RaftTheorems.ElectionSafety | 07-raft/src/main.rs:282-329 | at most one node is ever leader of a term, at any two times of a run with crashes and reloads |
| RaftTheorems.LogMatching | 07-raft/src/main.rs:396-396 | two logs that agree on the term at an index agree on everything up to it |
| RaftTheorems.LeaderCompleteness | 07-raft/src/main.rs:253-265 | every leader of a later term holds, at any time of the run, every entry committed under the own-term rule |
| RaftTheorems.StateMachineSafety | 07-raft/src/main.rs:237-267 | the commands any two nodes have applied, at any two times, are one a prefix of the other, and each store is the replay of what its node has applied |
| RaftTheorems.Bounds | 07-raft/src/main.rs:177-189 | applied <= commit index <= log length after every step and after a reload |
| RaftTheorems.NeverPanics | 07-raft/src/main.rs:396-400 | no reachable handler indexes past a log that was just replaced |
| RaftStore.StoreMeans | 07-raft/src/main.rs:30-44 | in every run, at every node, a key is in the store if and only if some applied `set` of it has no later applied `remove` of it, and its value is then the rest of the last such command's words |
| RaftStore.TakesExactly | 07-raft/src/main.rs:406-421 | a leader takes every `set` and `remove` line without the delimiters as one entry with the line's words, and no other line |
| RaftStore.GetAnswers | 07-raft/src/main.rs:427-437 | a leader that has a once accepted `set key words` committed, with no later `set` or `remove` of the key committed, answers a `get` of the key with the words |
| RaftAnswers.GrantsExactly | 07-raft/src/main.rs:349-381 | a vote request is granted if and only if the voter is in no later term, has granted no other candidate of the term, and its log is no more up to date |
| RaftAnswers.KeepsUp | 07-raft/src/main.rs:282-329 | a campaign is for the next term, and no node is left behind a term that a request or a reply brings it |
| RaftAnswers.AdoptsExactly | 07-raft/src/main.rs:383-405 | a request of a term not before the node's is followed: term, log, the larger of both commit indices, everything committed applied, and the length acknowledged; an earlier one changes nothing |
| RaftAnswers.CommitsExactly | 07-raft/src/main.rs:225-268 | a leader still of the round's term that heard of no higher one has then committed up to the longest length a majority acknowledged, if that is past its commit index and ends in an entry of its term, and else no more than before |
| RaftLocks.OneLockIsEnough | 07-raft/src/main.rs:210-219 | with the leader's two locks as two steps, a run without late rounds is, state by state, a run of the cluster, with some steps that change nothing there |
| RaftLocks.StoresAgree | 07-raft/src/main.rs:210-267 | so in such a run the commands any two nodes have applied are one a prefix of the other, and each store is their replay |
| RaftLate.LateRunStrands | 07-raft/src/main.rs:210-219 | for every n from three on there is a run with one late round that leaves a node with commit index 1 and an empty log on disk, from which it cannot start |
| RaftLate.RestartableExactly | 07-raft/src/main.rs:177-189 | with three nodes or more, in every run every node's file lets it start again if and only if no round is late |
| RaftWire.RoundTripExactly | 07-raft/src/main.rs:74-97 | a log parses back from its text if and only if no command holds the entry delimiter or U+001F, the empty log included |
| RaftRequest.ArrivesWholeExactly | 07-raft/src/main.rs:110-110 | for every log, the words of the append line are the five the listener matches, the last of them the log's text, if and only if the commands hold no white space but ' ' |
| RaftRequest.FiveWordsExactly | 07-raft/src/main.rs:382-386 | when the last command is trimmed, the append line has five words at all under the same condition only |
| RaftRequest.ReadExactly | 07-raft/src/main.rs:382-386 | the listener reads from the append line the term, commit index and log it was written from if the commands hold no white space but ' ', and otherwise does not take it for an append request |
| RaftRequest.TabCommandUnread | 07-raft/src/main.rs:406-421 | a leader accepts and stores the command `set<tab>key`, for every key without delimiters that is not all white, and no append line of the log it then holds is read as an append request |
| RaftWireRuns.AppendsReadBack | 07-raft/src/main.rs:383-421 | in every run the text of each append request parses back to its log, and its line is one read, from which the listener gets the request as sent if its commands hold no white space but ' ', and nothing otherwise |
| RaftWireRuns.FilesReadBack | 07-raft/src/main.rs:130-166 | in every run what a node has on disk meets what the file's text needs, so that load reads back the term, vote, commit index and log persist wrote |
| RaftFile.LoadFile | 07-raft/src/main.rs:151-166 | the line loop computes the reading of the lines one after the other |
| RaftFile.FileRoundTrip | 07-raft/src/main.rs:130-166 | what persist writes, load reads back: term, vote, commit index and log, whenever address and commands are single lines without the delimiters |
| RaftFile.FieldsExactly | 07-raft/src/main.rs:151-166 | for every file each field is what the last line with its prefix says, a number that does not parse being zero, and a fresh node's when there is no such line |
| RaftFile.CommandIsOneLine | 07-raft/src/main.rs:416-420 | a command read as one line is stored as a single line |
| BrachaNode.Broadcaster.constructor | 10-byzantine-broadcast/src/main.rs:143-237 | a member starts with empty tallies and nothing sent |
| BrachaNode.Broadcaster.Receive | 10-byzantine-broadcast/src/main.rs:247-313 | a message without its sender's signature changes nothing; any other runs the arm the state machine has for it |
| BrachaSafety.EchoQuorumsAgree | 10-byzantine-broadcast/src/main.rs:276-277 | two echo quorums are for one value |
| BrachaSafety.ReadysAgree | 10-byzantine-broadcast/src/main.rs:277-297 | all READYs of correct members carry one value |
| BrachaSafety.StepKeepsInv | 10-byzantine-broadcast/src/main.rs:256-313 | every step keeps the invariant |
| BrachaSafety.Consistency | 10-byzantine-broadcast/src/main.rs:257-312 | no two correct members ever deliver different values, whichever f members are faulty, the sender included |
| BrachaSafety.DeliversOnce | 10-byzantine-broadcast/src/main.rs:308-311 | what a correct member delivered stays its only delivery |
| BrachaSafety.Integrity | 10-byzantine-broadcast/src/main.rs:257-271 | with a correct sender, only what it broadcast is delivered |
| BrachaSafety.Totality | 10-byzantine-broadcast/src/main.rs:291-312 | once every correct READY is handled everywhere, if one correct member has delivered, all have, the same value |
| BrachaSafety.Validity | 10-byzantine-broadcast/src/main.rs:256-313 | once everything of correct members is handled, a correct sender's one broadcast is delivered by every correct member |
| BrachaReach.TotalityOfSteps | 10-byzantine-broadcast/src/main.rs:291-312 | once the run has delivered every READY of a correct member to every correct member, if one has delivered, all have, the same value |
| BrachaReach.ValidityOfSteps | 10-byzantine-broadcast/src/main.rs:256-313 | once the run has delivered every message of a correct member to every correct member, a correct sender's one broadcast is delivered by every correct member |
| BrachaReach.EveryoneCanDeliver | 10-byzantine-broadcast/src/main.rs:256-313 | for every n, every faulty set within f, every correct sender and every value there is a run in which every correct member delivers what was broadcast |
| BrachaVotes.FirstVotesCount | 10-byzantine-broadcast/src/main.rs:272-300 | a member's ECHOs and READYs on file are exactly those of the members who sent it one, each with its first |
| BrachaVotes.OnlyOnce | 10-byzantine-broadcast/src/main.rs:257-312 | a member broadcasts one ECHO, broadcasts one READY and delivers once in the whole run |
| CausalNode.CausalBroadcaster.Bcast | 06-logical-time-broadcast/src/main.rs:117-132 | the stamp is the delivered vector with the sender's own count of earlier broadcasts |
| CausalNode.CausalBroadcaster.DrainAll | 06-logical-time-broadcast/src/main.rs:208-217 | the in-place loop computes the recursive drain |
| CausalNode.CausalBroadcaster.Receive | 06-logical-time-broadcast/src/main.rs:172-217 | unknown origins, malformed stamps and repeats change nothing; anything else is relayed, parked and drained |
| CausalNode.DrainEnds | 06-logical-time-broadcast/src/main.rs:208-217 | the drain ends with no deliverable message left |
| CausalSystem.DrainKeepsElements | 06-logical-time-broadcast/src/main.rs:208-217 | every parked message is delivered or still parked, and none is made up |
| CausalOrder.StampsAreHappensBefore | 06-logical-time-broadcast/src/main.rs:119-121 | one broadcast happens before another if and only if the other's stamp counts it |
| CausalOrder.CausalDelivery | 06-logical-time-broadcast/src/main.rs:186-217 | no node delivers a broadcast before one that happens before it |
| CausalOrder.DeliveredInOrder | 06-logical-time-broadcast/src/main.rs:213-216 | a node's deliveries from an origin are exactly the numbers 0 to V[origin]-1, in order |
| CausalOrder.NothingReadyParked | 06-logical-time-broadcast/src/main.rs:199-217 | between steps no node parks a message it could deliver |
| CausalOrder.NoEternalParking | 06-logical-time-broadcast/src/main.rs:206-217 | once every broadcast has reached every node, nothing is parked anywhere and all vectors are equal |
| CausalReach.KeptExactly | 06-logical-time-broadcast/src/main.rs:172-217 | a broadcast is in a node's log or its parking list, and not in both, if and only if the run has handed it to the node |
| CausalReach.RelayedOnce | 06-logical-time-broadcast/src/main.rs:186-198 | a node relays a broadcast when it is first handed it and never again |
| CausalReach.NothingStaysParked | 06-logical-time-broadcast/src/main.rs:206-217 | once the run has handed every broadcast to every node, nothing is parked anywhere, every node has delivered every broadcast, and all vectors are equal |
| CausalReach.ParkedInOrder | 06-logical-time-broadcast/src/main.rs:199-217 | parked messages stand in the order in which the node was first handed them |
| CausalReach.EveryoneCanCatchUp | 06-logical-time-broadcast/src/main.rs:172-217 | every run can go on, without new broadcasts, to one in which every node has delivered every broadcast |
| Treiber.TreiberStack.Push | 03-shared-memory-concurrency/src/bin/treiber.rs:22-43 | without a rival the retry loop ends and is one push of the sequential stack |
| Treiber.TreiberStack.Pop | 03-shared-memory-concurrency/src/bin/treiber.rs:45-71 | without a rival the retry loop ends and is one pop of the sequential stack, with nothing returned only for an empty one |
| Treiber.Linearizable | 03-shared-memory-concurrency/src/bin/treiber.rs:22-71 | under every interleaving the chain from top is finite, repeats no node, and holds what a sequential stack holds after the operations in the order of their successful compare-exchanges; a pop that returns nothing met an empty stack |
| Treiber.ResultsReturned | 03-shared-memory-concurrency/src/bin/treiber.rs:22-71 | each thread's calls are what took effect for it, with the values it pushed and in its order, and what took effect is what it was returned |
| Treiber.NoWildAccess | 03-shared-memory-concurrency/src/bin/treiber.rs:30-65 | no thread ever follows an address that was not allocated |
| Treiber.Conservation | 03-shared-memory-concurrency/src/bin/treiber.rs:22-71 | pushed values are popped ones plus those on the stack, as multisets |
| TreiberProgress.RetryMeansRival | 03-shared-memory-concurrency/src/bin/treiber.rs:28-63 | a thread starts its loop over only when another thread's operation has taken effect since it loaded the top |
| TreiberProgress.AloneFinishes | 03-shared-memory-concurrency/src/bin/treiber.rs:22-71 | from wherever a run has got to, a thread that runs alone finishes its operation, which has then taken effect and returned |
| Transactions.RunsAloneOneWay | 09-concurrency-control/src/bin/occ.rs:46-61 | a program run alone on a state has one sequence of results |
| Transactions.TotalAfterTransfer | 09-concurrency-control/src/bin/mvcc.rs:84-106 | a transfer keeps the total between two accounts, and between an account and itself creates the amount |
| Mvcc.Store.FindVersion | 09-concurrency-control/src/bin/mvcc.rs:41-50 | the reverse loop finds the last version no later than the snapshot |
| Mvcc.Store.ReadKey | 09-concurrency-control/src/bin/mvcc.rs:27-33 | a transaction reads its own draft first, else its snapshot |
| Mvcc.Store.Commit | 09-concurrency-control/src/bin/mvcc.rs:52-68 | refused exactly when a written key has a version later than the snapshot, then without effect; otherwise every write becomes the newest version of its key |
| Mvcc.Store.DepositAlone | 09-concurrency-control/src/bin/mvcc.rs:70-82 | without a rival the retry loop commits, adding the amount to the newest balance |
| Mvcc.CommitReadsAt | 09-concurrency-control/src/bin/mvcc.rs:60-65 | a commit adds one snapshot, the newest with the writes laid over it, and changes no earlier one |
| MvccSystem.SnapshotReads | 09-concurrency-control/src/bin/mvcc.rs:41-50 | reading at n gives what the first n commits leave when replayed serially |
| MvccSystem.SnapshotsNeverChange | 09-concurrency-control/src/bin/mvcc.rs:41-66 | what a snapshot reads never changes later in the run |
| MvccSystem.CommitsExactly | 09-concurrency-control/src/bin/mvcc.rs:52-60 | first committer wins: a commit is refused if and only if a commit since the snapshot wrote one of its keys |
| MvccSystem.OverlappingWriteApart | 09-concurrency-control/src/bin/mvcc.rs:54-60 | overlapping committed transactions write disjoint keys |
| MvccSystem.WritersSawLatest | 09-concurrency-control/src/bin/mvcc.rs:52-68 | what a committed transaction's snapshot held of a key it writes is what its commit replaces |
| MvccSystem.DepositLands | 09-concurrency-control/src/bin/mvcc.rs:70-82 | a committed deposit is never lost |
| MvccSystem.TransferLands | 09-concurrency-control/src/bin/mvcc.rs:84-106 | a committed transfer moves its amount between the balances it replaces, and the first covered it |
| MvccSystem.TransferAsksExactly | 09-concurrency-control/src/bin/mvcc.rs:84-106 | in every run a transfer asks for its commit if and only if its snapshot's balance of the first account covers the amount |
| MvccSystem.TransferKeepsTotalExactly | 09-concurrency-control/src/bin/mvcc.rs:84-106 | a committed transfer keeps the total if and only if it is between two accounts or of nothing |
| MvccSystem.TotalAtSnapshot | 09-concurrency-control/src/bin/mvcc.rs:70-106 | at every snapshot of every run the total is the initial one plus the deposits, plus the amounts transferred from an account to itself |
| MvccSystem.AuditIsOneSnapshot | 09-concurrency-control/src/bin/mvcc.rs:108-114 | an audit reports the total of one snapshot, whatever commits between its reads |
| Occ.Store.Read | 09-concurrency-control/src/bin/occ.rs:13-23 | a read from the store records the version it saw, over any recorded before |
| Occ.Store.Commit | 09-concurrency-control/src/bin/occ.rs:29-44 | commits exactly when every recorded version the store holds is current, bumping each written key once; otherwise without effect |
| OccSystem.AloneExactly | 09-concurrency-control/src/bin/occ.rs:13-36 | a transaction whose last reads are current ran as if alone on that state if and only if its re-reads repeated the first value |
| OccSystem.SerialRunsAgree | 09-concurrency-control/src/bin/occ.rs:29-44 | a serial run of given programs has one outcome |
| OccTheorems.AloneAtCommitExactly | 09-concurrency-control/src/bin/occ.rs:29-44 | in every run, a committed transaction ran as if alone at its place in the commit order if and only if its re-reads were repeatable |
| OccTheorems.Serializable | 09-concurrency-control/src/bin/occ.rs:13-44 | when committed transactions' re-reads repeated the first value, the store is what running them alone in commit order leaves, and nothing else |
| OccTheorems.SerializableWhenReadOnce | 09-concurrency-control/src/bin/occ.rs:13-44 | in particular when each read every key from the store at most once |
| OccTheorems.ReReadIsNotSerializable | 09-concurrency-control/src/bin/occ.rs:13-23 | a run in which a re-read overwrites the recorded version and the store ends as no serial order leaves it |
| OccConflicts.RefusedExactly | 09-concurrency-control/src/bin/occ.rs:29-36 | in every run a commit is refused if and only if some commit since the transaction's last read of a key from the store wrote that key |
| OccTheorems.TotalAfter | 09-concurrency-control/src/bin/read_skew_occ.rs:46-83 | transfers and audits keep the total and no deposit is lost, after every commit of every run |
| OccTheorems.AuditIsOneState | 09-concurrency-control/src/bin/read_skew_occ.rs:68-83 | a committed audit reports the total of one actual state, the store's at its commit |
| TwoPhaseNode.Participant.constructor | 08-two-phase-commit/src/main.rs:60-69 | a participant starts from its file, or with 100 when there is none |
| TwoPhaseNode.Participant.OnPrepare | 08-two-phase-commit/src/main.rs:84-95 | YES exactly when the delta fits the balance and nothing is promised, on disk before the reply |
| TwoPhaseNode.Participant.OnCommit | 08-two-phase-commit/src/main.rs:96-106 | the promised delta is added once, and only for the promised transaction |
| TwoPhaseNode.Participant.OnAbort | 08-two-phase-commit/src/main.rs:107-116 | the promise is dropped, and only for the promised transaction |
| TwoPhaseNode.Tally | 08-two-phase-commit/src/main.rs:138-146 | COMMIT exactly when every participant's reply was read and is YES for this transaction |
| TwoPhaseFile.LoadFile | 08-two-phase-commit/src/main.rs:33-58 | the line loop computes the reading of the lines one after the other, and refuses what the program panics on |
| TwoPhaseFile.FileRoundTrip | 08-two-phase-commit/src/main.rs:16-58 | what persist writes, load reads back, for every balance and promise of 64 bits |
| TwoPhaseFile.StartsExactly | 08-two-phase-commit/src/main.rs:38-56 | a damaged file never resets the money: a participant starts from a file if and only if it has a balance line and all its balance lines parse, and then with the last one's balance |
| TwoPhaseFile.PromiseExactly | 08-two-phase-commit/src/main.rs:47-55 | a participant starts with the promise that the last line naming one names, and with none when no line does |
| TwoPhase.Atomicity | 08-two-phase-commit/src/main.rs:83-156 | a transaction applied anywhere was decided COMMIT, is dropped nowhere, and is applied or still promised at every participant |
| TwoPhase.BalancesHold | 08-two-phase-commit/src/main.rs:84-106 | balances are never negative, and what a crash reloads is what the participant held |
| TwoPhase.LedgerBalances | 08-two-phase-commit/src/main.rs:83-156 | each participant's balance and what it is still owed are 100 plus its deltas in committed transactions |
| TwoPhase.Conservation | 08-two-phase-commit/src/main.rs:83-166 | balances plus undelivered deltas of committed transactions are 100n plus all committed deltas, whatever is lost and whoever crashes |
| TwoPhase.PromiseStays | 08-two-phase-commit/src/main.rs:84-116 | a promise stays and refuses every later PREPARE until its own verdict is handled, also across crashes |
| TwoPhaseRuns.VotedExactly | 08-two-phase-commit/src/main.rs:84-95 | in every run a handled PREPARE is voted NO if and only if the delta would make the balance negative or a YES is still without its verdict; a YES promises that delta |
| TwoPhaseRuns.VerdictSettles | 08-two-phase-commit/src/main.rs:96-116 | a handled verdict leaves no promise of its transaction, and adds the delta to the balance exactly when it is COMMIT and was promised |
| TwoPhaseRuns.RoundCompletes | 08-two-phase-commit/src/main.rs:83-156 | from every reachable state with an idle coordinator and nothing promised, and for all deltas, there is a run to such a state again in which the transaction is decided, COMMIT if and only if no balance would become negative, and each balance has changed by exactly its delta on COMMIT and not at all on ABORT |

## Left out

- Sockets, threads, wall clocks, stdin parsing and printing: a timer is a step that is always enabled, a network loses, delays and reorders (except as said above), and nothing is proved about real time, or that a run goes on: only what has happened in it and what can.
- ed25519, hex, JSON and key files of modules 10 and 11: statements are values, so they are injective, and unforgeability is assumed.
- The Byzantine console commands and chaos flags of modules 10 and 11: an arbitrary faulty member covers them.
- File-system detail: a write of the state file is one atomic durable step. The text of module 11's file, which is JSON, is not modelled.
- PbftReplica.Replica.HandleNewView: is one step when nothing interrupts it; a crash between its two writes is a step of its own of the state machine.
- n a multiple of three, and runs that are not sparse, in module 11: `LockIn`, `CommitsAgree`, `LockedNewView` and `Agreement` exclude them, because agreement then fails (`AgreementExactly`), and with it `CommitsAgree` (`DisagreementIsConflict`).
- Late rounds of a Raft leader: that a node may not start again is proved (`RestartableExactly`); which other theorems hold of runs with late rounds is not. Append requests between two nodes are handled in the order sent.
- RaftWireRuns.AppendsReadBack: assumes that the request's term and commit index stay below 2^64, as the program's types do, and that a leader's address is a word.
- RaftWireRuns.FilesReadBack: assumes the same of the node's own term and commit index, and of addresses that they are single lines other than "-".
- RaftRequest.ReadExactly: a log whose last command is not trimmed is not covered; the interface stores none.
- The causal broadcast's `encode`, `decode` and rank lookup: members are their ranks and messages are values; a white space in a payload is not modelled.
- Treiber: the heap is a map from addresses to nodes. With rivals a thread is a program counter and its retry loop a sequence of steps, and that the loop ends is not proved; the class runs the loops without a rival. Memory orderings weaker than sequential consistency and reclamation of nodes (the program never frees one) are not modelled.
- RaftFile.FileRoundTrip: assumes a vote that is a single line other than "-", as an address is.
- Mvcc.Store.DepositAlone: runs without a rival; with rivals each loop iteration is a run of the state machine's client, and that the loop ends is not proved.
- Two-phase commit: a restarted coordinator, which counts transactions from 1 again, and participants listed twice.
- Integer widths: balances, versions, terms, views and sequence numbers are unbounded.
- Modules 01, 02, 04, 05 and 12, the rest of module 03, and the locking and anomaly exhibits of module 09: fixed scenarios or small cases of what is modelled here.
