# A model of the xactserver commit protocol

`xactserver` commits a transaction that touches several regions. Each region has a
Postgres and a transaction server. The server whose Postgres received the transaction
is its coordinator and sends it to all other participants (`Prepare`). Each of these
surrogates executes and prepares it in its own Postgres and sends its vote to every
other participant. There is no message that announces a decision: each node counts
votes and decides by itself. Votes may come before `Prepare` and are then buffered; a
surrogate that has seen a "no" before it votes repeats that "no" as its own vote; an
actor stops at its first terminal status and at its first error, possibly after it has
reached only some of its peers.

The project models the node code as classes that compute pure transition functions,
builds the system of all nodes out of the same functions, and proves what the protocol
guarantees in every run of that system. Beside it stand the read/write-set decoder,
from which every node derives the participant set, the byte format of the answer to
the client, and the packing of transaction ids.

`dafny verify dfyconfig.toml` checks everything.

## How it is laid out

| modules | what they hold |
|---|---|
| `Messages`, `Bits`, `Bags` | values on the wire, bit operations on numbers, bags of packets |
| `Ids` | packed transaction ids and gids (`id.rs`) |
| `RwSetFormat`, `RwSetRoundTrip`, `Decoder` | the read/write-set format as functions, its round trip in both directions, and the cursor-driven decoder (`decoder.rs`) |
| `PgCalls`, `ExecutionOutcomes` | executing, committing and rolling back told from how their calls end, and what those calls decide over whole runs |
| `Transitions` | controllers, vote counting, actors and servers as functions on values |
| `Controllers`, `XactStates`, `Manager` | the same as classes that update their fields (`controller.rs`, `state.rs`, `xact.rs`, `manager.rs`); each method is proved to compute its function |
| `VoteCounting`, `StateMachine` | vote counting in closed form, invariants over all call sequences, buffering, order of votes |
| `Transaction`, `ActorProofs`, `TransactionProofs` | all nodes seen from one transaction, its invariant, and the proof that each step keeps it |
| `TransactionSafety`, `AtomicCommit` | agreement, durability, provenance, the client's answer; refinement of an atomic-commit specification |
| `TransactionProgress`, `TransactionPaths`, `TransactionLiveness` | bounds on messages and on the length of runs; building runs; what runs without faults come to |
| `CoordinatorFailure`, `LostVotes`, `ClientAnswers`, `CommitPossible` | what faults of the coordinator and lost votes do; which clients are answered; which states can still lead to a commit |
| `System`, `SystemRuns`, `SystemWitnesses` | all servers and all transactions; projection of runs; the guarantees of every transaction in every run of the system; runs of one transaction as runs of the system |
| `Watcher` | the answer in bytes and the request/reply loop (`watcher.rs`) |

## The environment

A call to Postgres works, is refused without effect, or has its effect although an
error comes back. A broadcast reaches any subset of its addressees and may report an
error in any case. Packets are delivered in any order, at most once, or are lost; any
actor can be cancelled between two messages. All of this is chosen freely at each step,
so that the safety results hold for every combination of faults. A handler is one step.

Node ids are the positions in the node list, which has at most 2^32 entries, and a
request arrives only while the counter of its node is below its largest value
(`Ids.NextIsValid` says when the id issued beyond that is invalid).

Safety assumes nothing about the participant sets that clients submit: the
coordinator need not be in it, and it can be empty. What becomes of such requests is
part of the results. The status assertion at `manager.rs:243` fails for exactly the
requests whose only participant is the coordinator (`TransactionSafety.AssertionTrips`,
`TransactionSafety.AssertionCanTrip`), and a request that does not name the coordinator
is never answered (`ClientAnswers`). The message bound and the results on proper requests
ask for a coordinator that takes part, and the latter also for somebody else.

## Where the code does less than one might take it for

* Deciding needs no coordinator, but finishing does. A surrogate tries to finish only
  after its vote has been acknowledged by every other participant, the coordinator
  included (`manager.rs:332-366`). If one of them cannot be reached, the surrogate stops
  with its transaction prepared, even if it has all votes. If the coordinator goes out of
  reach after sending the request, this happens to all surrogates
  (`CoordinatorFailure.UnreachableCoordinatorBlocks`); `CoordinatorFailure.FinishingNeedsAcks`
  and `CoordinatorFailure.FinishesExactlyIfAcked` say exactly when a surrogate finishes.
* Nothing makes up for a lost vote. A participant that has not heard some surrogate, and
  knows of no "no", waits; with nothing under way any more it waits for good
  (`LostVotes.WaitsExactlyIfUnheard`, `LostVotes.UnheardWaitsForGood`). One lost vote can
  keep a client waiting for a transaction that all surrogates have committed
  (`LostVotes.LostVoteKeepsWaiting`).
* A failed session does not mean that the transaction failed. When not all `Prepare`s
  are acknowledged, `handle_local_xact_msg` returns an error (`manager.rs:246-278`), the
  coordinator's actor goes, and with it the sender of the reply, so that the client's
  session fails (`watcher.rs:134-137`). The surrogates do not notice.
  `CoordinatorFailure.CommitsAfterHangUp` gives a run in which all of them commit, and
  `CoordinatorFailure.HangUpMeansNoCommitExactlyIf` says when this cannot happen: exactly
  if some `Prepare` did not arrive. `CommitPossible.HungUpWithoutCommitExactlyIf` says the
  same for hang-ups at any time, in terms of the state at that time.
* A client whose request does not name its own node is never answered, even if nothing
  goes wrong and all participants commit: nobody sends the coordinator a vote
  (`ClientAnswers.AnsweredExactlyIfProper`, `ClientAnswers.UnansweredIsDecided`).
* `RWSet::decode` compares the section length with the bytes that follow it before it
  reads the relation count, so that the four bytes of the count are counted towards the
  section (`decoder.rs:23-28`). Data that lack up to four bytes of their section are
  accepted, and `split_to` (`decoder.rs:49`) then panics. `Decoder.AcceptedThoughCutShort`
  gives the bytes, and `Decoder.RwSetReader.DecodeRest` and `Decoder.DecodeWhole` say
  exactly when it happens: when fewer bytes than the section claims follow the count.
* `serialize_rollback_info` ends texts with a zero byte and copies them without looking
  at them (`watcher.rs:158-178`). A text that contains one can turn an error of one kind
  into another; `Watcher.NulsConfuse` gives two rollbacks with the same bytes, and
  `Watcher.AmbiguousExactlyIf` says which rollbacks can be taken for another answer. Among
  answers without zero bytes in their texts and with SQL codes of five bytes, no two have
  the same bytes (`Watcher.SerializeInjective`).

## Model

| member | source | states |
|---|---|---|
| SystemRuns.SystemAgreement | xactserver/src/manager.rs:283-385 | in every run of the system, if some node ever commits a transaction, no node ever rolls it back, at any time |
| SystemRuns.SystemDurability | xactserver/src/manager.rs:317-366 | once any node has decided to commit, the transaction is prepared or committed in the Postgres of every surrogate, then and later, and each surrogate's execution succeeded |
| SystemRuns.SystemRefines | xactserver/src/manager.rs:102-133 | any transaction's part of any run is a path of the atomic-commit specification; the path visits what the states of the run show of the transaction in their order and ends at the last one |
| SystemRuns.VerdictWrittenOnce | xactserver/src/manager.rs:102-133 | so over a whole run the verdict of a transaction is written at most once, and what its nodes decide is that verdict and stays |
| SystemRuns.Isolation | xactserver/src/manager.rs:102-133 | no step changes two transactions |
| SystemRuns.NeverMisrouted | xactserver/src/manager.rs:104-127 | no actor of any run reaches an `unreachable!()` arm, and a local transaction never gets the id of an existing actor |
| SystemRuns.IdsDistinct | xactserver/src/manager.rs:105-108 | the ids issued over a run are valid, fit into 64 bits and are pairwise different, and so are their gids |
| SystemRuns.SystemTermination | xactserver/src/manager.rs:217-385 | a transaction that met no fault and has nothing left to deliver is finished at every participant, committed exactly if all executions succeeded, and its client was told |
| SystemRuns.SystemMessageBound | xactserver/src/manager.rs:387-405 | a transaction of n participants costs at most (n-1) + (n-1)^2 messages in any run |
| SystemRuns.SystemStepBound | xactserver/src/manager.rs:174-405 | however long a run of the system, only boundedly many of its steps are for any one transaction |
| SystemRuns.SystemNoResidue | xactserver/src/pg/controller.rs:98-130 | over a whole run: `COMMIT PREPARED` is sent at most once, and only for a transaction nobody rolls back, then or later; nothing unprepared is ever finished; a finished surrogate leaves nothing prepared for good |
| SystemRuns.SystemProvenance | xactserver/src/manager.rs:317-340 | a rollback at any time of a run goes back to a surrogate whose execution failed for that reason; without a failure on record at the end nobody ever rolled back |
| SystemRuns.SystemCommitMeansAllWorked | xactserver/src/pg/controller.rs:72-96 | if any node ever decides to commit, each surrogate has executed before, and its connection, `BEGIN`, validation and `PREPARE TRANSACTION` have all worked |
| SystemRuns.SystemRollbackMeansFailedCall | xactserver/src/pg/controller.rs:72-96 | if any node ever rolls back, some surrogate has executed before, and the reason is that of the first of its four calls that did not work |
| SystemRuns.SystemAnswerOnce | xactserver/src/pg/controller.rs:33-51 | in a run the client is answered, or hung up on, once and for all |
| SystemRuns.SystemAnswerTrue | xactserver/src/pg/watcher.rs:134-142 | an answer holds for every node at every time of the run: after "committed" nobody rolls back, after "rolled back" nobody commits, before or later |
| SystemRuns.RunProjects | xactserver/src/manager.rs:114-130 | every run of the system, up to any of its states, is for each transaction a run of that transaction alone, made of exactly the steps that are for it, and ends in what the state shows of it |
| SystemRuns.ViewAt | xactserver/src/manager.rs:114-130 | each state of the system is found in the run of the transaction, behind the steps taken so far |
| SystemRuns.MoveAt | xactserver/src/manager.rs:114-130 | each step that is for the transaction is found in its run at the place of the state before it; other steps leave the place as it is |
| SystemRuns.SysStepKeeps | xactserver/src/manager.rs:102-133 | every step of the system keeps the invariant of every transaction and the numbering of ids |
| System.StepProjects | xactserver/src/manager.rs:102-133 | a step is a step of the one transaction it is for and leaves every other transaction as it was |
| System.FreshId | xactserver/src/manager.rs:105-108 | a local transaction gets a valid id that no actor, packet or earlier request knows |
| TransactionProofs.StepKeeps | xactserver/src/manager.rs:174-405 | requests, deliveries, losses and cancellations keep the invariant of a transaction |
| TransactionSafety.Agreement | xactserver/src/xact/state.rs:93-114 | in no reachable state has one node decided to commit and another to roll back |
| TransactionSafety.AgreementInRuns | xactserver/src/xact/state.rs:93-137 | the same across the states of a run |
| TransactionSafety.SameParticipants | xactserver/src/manager.rs:290-312 | all nodes that take part hold the same participant set, that of the client's request |
| TransactionSafety.DecisionsStand | xactserver/src/manager.rs:193-203 | no step changes an actor that has decided |
| TransactionSafety.CommitNeedsAll | xactserver/src/xact/state.rs:107-112 | a node decides to commit only if every surrogate executed successfully and every other surrogate's verdict is "yes" |
| TransactionSafety.RollbackNeedsOne | xactserver/src/xact/state.rs:105-106 | a node rolls back only for its own failed execution, or for a surrogate whose verdict is "no" for the same reason and which rolls back too |
| TransactionSafety.RollbackProvenance | xactserver/src/manager.rs:317-340 | the reason of every rollback is the failure of some surrogate's own execution, through any chain of repeated votes |
| TransactionSafety.CommitDurability | xactserver/src/pg/controller.rs:72-106 | when any node has decided to commit, every surrogate holds the transaction prepared or committed |
| TransactionSafety.NoResidue | xactserver/src/pg/controller.rs:98-130 | `COMMIT PREPARED` is sent at most once, only for a decided commit and something prepared; no finishing command names a gid that is not prepared; a finished surrogate leaves nothing prepared |
| TransactionSafety.ClientAnswer | xactserver/src/pg/controller.rs:33-51 | the client is told of a commit exactly if the coordinator committed, and of a rollback with its cause exactly if it rolled back for that cause |
| TransactionSafety.AnswerOnce | xactserver/src/pg/controller.rs:34-36 | no step changes the one-shot reply once it is used |
| TransactionSafety.ClientSeesEnd | xactserver/src/manager.rs:193-212 | the client is kept waiting exactly as long as the coordinator listens; then it has its answer if the coordinator finished, and is hung up on otherwise |
| TransactionSafety.AnswerLasts | xactserver/src/pg/controller.rs:33-51 | along a run, what the client sees once it does not wait any more never changes |
| TransactionSafety.Panics | xactserver/src/xact.rs:52-55 | no actor reaches an `unreachable!()` arm; the status assertion fails only at a coordinator that is alone |
| TransactionSafety.AssertionTrips | xactserver/src/manager.rs:243 | the status assertion fails exactly for requests whose only participant is the coordinator |
| TransactionSafety.AssertionCanTrip | xactserver/src/manager.rs:243 | bytes of such a request, for every coordinator that a region word can name |
| AtomicCommit.NextKeeps | xactserver/src/manager.rs:174-215 | the specification itself is an atomic commitment: a verdict once written and decisions once made stay, and agree |
| AtomicCommit.PathKeeps | xactserver/src/manager.rs:174-215 | along a whole path of the specification the verdict is written at most once, and decisions stay |
| AtomicCommit.StepRefines | xactserver/src/manager.rs:174-385 | every step of the protocol is a path of the specification |
| AtomicCommit.RunRefines | xactserver/src/manager.rs:174-385 | every run of the protocol is a path of the specification that visits its abstract states in their order and ends at the last one |
| AtomicCommit.VisitedVerdictStays | xactserver/src/manager.rs:174-385 | states visited in order along a path keep their verdict and their decisions, which agree with it |
| TransactionProgress.DeliveryShrinks | xactserver/src/manager.rs:217-405 | each delivery, whatever its handler does, lowers n * (undelivered prepares) + (undelivered votes) |
| TransactionProgress.LossShrinks | xactserver/src/manager.rs:387-405 | so does each loss |
| TransactionProgress.MessageBound | xactserver/src/manager.rs:387-405 | at most (n-1) + (n-1)^2 messages are ever sent |
| TransactionProgress.RunsEnd | xactserver/src/manager.rs:174-405 | no run of a transaction goes on for ever: at most n (n-1) deliveries and losses, one cancellation for each node, and the request |
| TransactionLiveness.StepHealthy | xactserver/src/manager.rs:217-385 | without faults every surrogate is prepared or about to be, and every verdict is known to each other participant or under way |
| TransactionLiveness.FaultFreeRunDecides | xactserver/src/manager.rs:217-385 | a fault-free run that delivered everything has all participants decided, committed exactly if all executions succeeded, and the client answered |
| TransactionLiveness.Completes | xactserver/src/manager.rs:217-385 | such a run is never stuck: from each of its states it can be continued to the end within the measure, with executions ending as one likes |
| TransactionLiveness.EveryRequestCanEnd | xactserver/src/manager.rs:217-385 | both outcomes can be had: for every proper request and every way for the four calls of executions to end there is a fault-free run in which all participants commit if all four work, and otherwise roll back for the reason of the first that does not |
| ExecutionOutcomes.RecordComesFrom | xactserver/src/manager.rs:304-340 | what is on record of a surrogate's execution at any time of a run is the failure, if any, of the calls made in the one delivery in which it executed |
| ExecutionOutcomes.CommitMeansAllWorked | xactserver/src/xact/state.rs:51-82 | if a node decides to commit, every surrogate has executed before, and all four calls of its execution have worked |
| ExecutionOutcomes.FailedCallMeansNoCommit | xactserver/src/xact/state.rs:51-82 | if any call of any execution does not work, no node decides to commit, before or after it |
| ExecutionOutcomes.RollbackMeansFailedCall | xactserver/src/pg/controller.rs:72-96 | a node rolls back only for the first failed call of the execution of some surrogate |
| ExecutionOutcomes.ValidationIsNamed | xactserver/src/pg/controller.rs:79-93 | where nothing but validations fails, and for one reason, that reason is what a client is told of a rollback |
| ExecutionOutcomes.CommitsExactlyIfAllWork | xactserver/src/manager.rs:217-385 | at the end of a fault-free run a participant has committed exactly if all calls of all executions have worked |
| ExecutionOutcomes.FinishingTakesCalls | xactserver/src/xact/state.rs:116-137 | a surrogate reaches its terminal status only in a delivery in which it got a connection and the command that finished its transaction, if one did, was acknowledged; committed means committed in Postgres |
| CoordinatorFailure.FinishingNeedsAcks | xactserver/src/manager.rs:332-366 | in every run, whatever the faults: a surrogate that has finished, or still listens after executing, has had its vote acknowledged by every other participant, the coordinator included, and its votes were sent to all of them |
| CoordinatorFailure.UnheardIsStranded | xactserver/src/manager.rs:332-364 | a listening surrogate whose vote is not acknowledged by everybody stops there, before its attempt to finish |
| CoordinatorFailure.FinishesExactlyIfAcked | xactserver/src/manager.rs:283-385 | if faults meet only the coordinator, its reachability included, every surrogate executes, and once everything is delivered has finished exactly if its vote was acknowledged by all, the coordinator included; if it has finished, it has committed exactly if all executions succeeded |
| CoordinatorFailure.UnreachableCoordinatorBlocks | xactserver/src/manager.rs:332-364 | for every proper request there is a run in which the coordinator sends out everything and then cannot be reached, and nothing else goes wrong: all executions succeed and every surrogate ends stopped and unfinished, with its transaction prepared |
| CoordinatorFailure.StrandedForGood | xactserver/src/manager.rs:193-203 | no step changes a surrogate that has stopped in this way |
| CoordinatorFailure.SurrogatesDecide | xactserver/src/manager.rs:283-385 | if the coordinator's actor stops or goes wrong in any way while its server goes on acknowledging votes, and nothing else goes wrong, all surrogates finish once everything is delivered, and commit exactly if all executions succeeded |
| CoordinatorFailure.BroadcastFailureHangsUp | xactserver/src/manager.rs:246-278 | a coordinator that could not send all `Prepare`s, or was not told that they arrived, hangs up on its client |
| CoordinatorFailure.CommitsAfterHangUp | xactserver/src/manager.rs:246-278 | if every `Prepare` arrived, there is a run in which all surrogates commit, hung up or not |
| CoordinatorFailure.NeverCommits | xactserver/src/manager.rs:246-278 | if some `Prepare` did not get out, no node commits at any time of any run |
| CoordinatorFailure.HangUpMeansNoCommitExactlyIf | xactserver/src/manager.rs:246-278 | after a failed broadcast of the request, the client's failure means that no run commits exactly if some `Prepare` did not arrive |
| CommitPossible.CommitPossibleExactlyIf | xactserver/src/manager.rs:174-385 | from any reachable state on, whatever has gone wrong before, a participant has some way to commit exactly if it listens or has committed, no execution has failed, every surrogate has executed or is about to, and each vote cast is known to it or under way |
| CommitPossible.HungUpWithoutCommitExactlyIf | xactserver/src/manager.rs:193-212 | a client hung up on at whatever time can rely on nobody ever committing exactly if no surrogate is in such a state |
| LostVotes.WaitsExactlyIfUnheard | xactserver/src/xact/state.rs:93-114 | a participant that has executed, or sent out the request, waits exactly if it has not heard some surrogate and knows of no "no" |
| LostVotes.QuietForGood | xactserver/src/manager.rs:174-215 | with nothing under way any more, actors can only be cancelled, and no participant gets any further |
| LostVotes.UnheardWaitsForGood | xactserver/src/manager.rs:174-215 | a participant that has not heard some surrogate by then waits for good, and a coordinator never answers its client |
| LostVotes.LostVoteKeepsWaiting | xactserver/src/manager.rs:174-385 | for every proper request and every surrogate there is a run in which nothing goes wrong but that this surrogate's vote to the coordinator is lost: all surrogates commit, and the client is kept waiting with nothing under way |
| ClientAnswers.AnsweredOnlyIfProper | xactserver/src/manager.rs:217-281 | in no run is a client answered whose request does not name its coordinator and somebody else |
| ClientAnswers.AnsweredExactlyIfProper | xactserver/src/manager.rs:217-385 | when nothing goes wrong and everything is delivered, the client is answered exactly if its request names the coordinator and somebody else; it is kept waiting exactly if the request can be decoded and does not name the coordinator, and hung up on otherwise |
| ClientAnswers.UnansweredIsDecided | xactserver/src/manager.rs:217-385 | the participants of a request that does not name its coordinator finish all the same |
| ClientAnswers.BreakingOffHangsUp | xactserver/src/manager.rs:228-229 | in every run: a request shorter than its header, or with fewer bytes behind it than the section length in it or than a relation count needs, costs its client the session, and no message is ever sent for it |
| SystemWitnesses.RunLifts | xactserver/src/manager.rs:102-133 | every run of the first transaction of a node, in which only the first n nodes are told anything, is the view of a run of the system of n servers, state by state |
| SystemWitnesses.SystemCanEnd | xactserver/src/manager.rs:102-133 | in a system of n servers every proper request among them can be committed by all its participants if the calls of executions work, and otherwise rolled back by all for the reason of the first that does not |
| SystemWitnesses.SystemCanBlock | xactserver/src/manager.rs:332-364 | so can the coordinator become unreachable and every surrogate end stopped with its transaction prepared |
| SystemWitnesses.SystemCanKeepWaiting | xactserver/src/manager.rs:375-385 | so can one lost vote keep the client waiting while all surrogates have committed |
| SystemWitnesses.SystemCanHangUp | xactserver/src/manager.rs:246-278 | so can the client be hung up on while all surrogates commit |
| StateMachine.CallsKeep | xactserver/src/xact/state.rs:35-137 | after any sequence of calls: votes are participants' votes, waiting means votes are missing, committing means none is, a rollback names a participant, and the status only moves forwards with its cause fixed |
| StateMachine.ImplicitYesDecides | xactserver/src/xact/state.rs:45-48 | the coordinator's implicit "yes" completes the vote by itself exactly if the coordinator is the only participant |
| StateMachine.OwnFailureCounts | xactserver/src/xact/state.rs:51-82 | a surrogate of whose execution any call does not work rolls back for the reason of the first such call, whatever votes came early, exactly if it is a participant |
| StateMachine.BufferingTransparent | xactserver/src/xact.rs:58-95 | wherever `Prepare` falls among the votes, a surrogate whose own verdict gets out ends in the state of counting all votes in order and trying to finish once, cause of a rollback and Postgres included; attempts to finish may meet different circumstances, and those of one of them apply |
| StateMachine.UnheardStops | xactserver/src/manager.rs:332-364 | a surrogate whose verdict does not get out stops with what the early votes made of it |
| StateMachine.LiveVotesCount | xactserver/src/manager.rs:375-385 | at a surrogate and at the coordinator, votes handled one by one, each with an attempt to finish under circumstances of its own, count like votes taken together with one of these attempts |
| StateMachine.CoordinatorCounts | xactserver/src/manager.rs:217-281 | after a request that got out, the votes of the surrogates at the coordinator come to their count with one attempt to answer the client |
| StateMachine.OrderIrrelevant | xactserver/src/xact/state.rs:84-114 | the decision of a surrogate initialized with early votes is the same for every order of them |
| StateMachine.CountedOrderIrrelevant | xactserver/src/xact/state.rs:93-114 | what counting votes decides does not depend on their order, whatever state it starts from |
| StateMachine.CoordinatorOrderIrrelevant | xactserver/src/manager.rs:375-385 | nor does what the coordinator decides, which handles them one by one, each under circumstances of its own |
| VoteCounting.AddVotesCounts | xactserver/src/xact/state.rs:93-114 | counting new votes: the first "no" decides, otherwise all are counted and complete the vote exactly if nobody is missing |
| VoteCounting.AnyVotesCount | xactserver/src/xact/state.rs:93-114 | counting any votes at all: strangers and repeated "yes" votes do not count; a participant's first "no" decides, even after its own "yes", unless the last missing "yes" came before it, behind which every vote is refused |
| VoteCounting.InitializeSurrogate | xactserver/src/xact/state.rs:35-90 | what initializing a surrogate with early votes comes to, in closed form |
| ActorProofs.FinishKeeps | xactserver/src/xact/state.rs:116-137 | trying to finish keeps an actor's invariant and its decision, whatever Postgres and the client do |
| ActorProofs.CountVote | xactserver/src/manager.rs:375-376 | a listening actor accepts another participant's first vote and keeps its invariant |
| ActorProofs.PrepareHandled | xactserver/src/manager.rs:283-373 | handling `Prepare` at a participant broadcasts exactly one verdict, that of its closed form, and keeps the invariant |
| ActorProofs.LocalHandled | xactserver/src/manager.rs:217-281 | what handling the client's request comes to: a decoding error, the failed assertion, or waiting with one `Prepare` to each peer |
| ActorProofs.NotTakingPart | xactserver/src/manager.rs:295-302 | a server asked to prepare a transaction it does not take part in stops without executing, sending or failing |
| ActorProofs.Undecodable | xactserver/src/manager.rs:228-292 | data that cannot be decoded fail either handler before anything else happens |
| ActorProofs.SecondInitialization | xactserver/src/xact.rs:50-55 | a second initialization of a live actor is the unreachable arm, and sends nothing |
| ActorProofs.VotesRefused | xactserver/src/xact/state.rs:93-99 | a vote after the decision to commit is an error; a vote by somebody who does not take part changes nothing |
| Controllers.Postgres.PrepareTransaction | xactserver/src/pg/controller.rs:87-89 | only a session whose transaction has not failed leaves something prepared, and only under its gid |
| Controllers.Postgres.FinishPrepared | xactserver/src/pg/controller.rs:123-127 | a finishing command fails if nothing is prepared, and concerns its gid only |
| Controllers.Postgres.CommitPrepared | xactserver/src/pg/controller.rs:101-103 | the same for `COMMIT PREPARED`, which is counted |
| Controllers.LocalXactController.Commit | xactserver/src/pg/controller.rs:33-41 | takes the sender, once, and answers "committed" if the client still waits |
| Controllers.LocalXactController.Rollback | xactserver/src/pg/controller.rs:43-51 | takes the sender, once, and answers with the cause if the client still waits |
| Controllers.SurrogateXactController.Execute | xactserver/src/pg/controller.rs:72-96 | succeeds exactly if its four calls work; otherwise the error is that of connecting, starting, preparing or validating, whichever fails first in this order; what is prepared depends on whether the validation was refused |
| Controllers.SurrogateXactController.Commit | xactserver/src/pg/controller.rs:98-106 | commits what is prepared under its own gid |
| Controllers.SurrogateXactController.Rollback | xactserver/src/pg/controller.rs:108-130 | rolls back what is prepared under its own gid, and succeeds if nothing is |
| PgCalls.ExecuteByCalls | xactserver/src/pg/controller.rs:72-96 | for each combination of outcomes of the four calls: success exactly if all work, the error of the first that does not (validation looked at last), and prepared exactly if there is a transaction and neither validating nor preparing is refused |
| PgCalls.CommitByCalls | xactserver/src/pg/controller.rs:98-106 | `COMMIT PREPARED` goes out exactly if there is a connection, takes effect exactly if something is prepared and it is not refused, and counts as a success only if acknowledged |
| PgCalls.RollbackByCalls | xactserver/src/pg/controller.rs:108-130 | succeeds exactly if the connection and the look at what is prepared work and, if something is, `ROLLBACK PREPARED` is acknowledged |
| PgCalls.AnswerByCalls | xactserver/src/pg/controller.rs:33-51 | at the coordinator both succeed exactly if the sender is still there and the client waits; the sender is gone in any case |
| PgCalls.FinishByCalls | xactserver/src/xact/state.rs:116-137 | a decided surrogate with something prepared gets its terminal status exactly if its finishing command is acknowledged |
| XactStates.XactState.constructor | xactserver/src/xact/state.rs:19-33 | a new state: uninitialized, without votes |
| XactStates.XactState.AddVote | xactserver/src/xact/state.rs:93-114 | computes the vote-counting function, or refuses the vote and changes nothing |
| XactStates.XactState.Initialize | xactserver/src/xact/state.rs:35-90 | computes the initialization function: implicit "yes", execution, own vote, early votes up to the first refused one |
| XactStates.XactState.TryFinish | xactserver/src/xact/state.rs:116-137 | commits or rolls back a decided state, and moves the status only if that worked |
| XactStates.XactType.InitAsLocal | xactserver/src/xact.rs:40-56 | replaces early votes by an initialized local state; anything else there is the unreachable case |
| XactStates.XactType.InitAsSurrogate | xactserver/src/xact.rs:58-76 | the same for a surrogate, touching Postgres only under its own gid |
| XactStates.XactType.AddVote | xactserver/src/xact.rs:78-95 | buffers a vote or passes it to the live state |
| XactStates.XactType.TryFinish | xactserver/src/xact.rs:97-109 | finishes the live state, if there is one |
| Manager.XactStateManager.SendToAllButMe | xactserver/src/manager.rs:387-405 | sends the message once to every participant but itself that can be reached, and succeeds only if all acknowledged |
| Manager.XactStateManager.HandleLocalXactMsg | xactserver/src/manager.rs:217-281 | computes the coordinator's transition: new actor value and packets sent |
| Manager.XactStateManager.HandlePrepareMsg | xactserver/src/manager.rs:283-373 | computes the surrogate's transition, and changes Postgres only under its own gid |
| Manager.XactStateManager.HandleVoteMsg | xactserver/src/manager.rs:375-385 | counts the vote and tries to finish, or fails |
| Manager.XactStateManager.Run | xactserver/src/manager.rs:174-215 | the loop over an actor's messages computes the transitions one after another and reads nothing after its end |
| Manager.StoppedReceives | xactserver/src/manager.rs:193-212 | messages after the end of an actor's loop have no effect |
| Manager.Manager.constructor | xactserver/src/manager.rs:46-69 | a new manager: no actors, counter 0 |
| Manager.Manager.IdFor | xactserver/src/manager.rs:103-111 | the id a message is for; a local transaction advances the 32-bit counter |
| Manager.Manager.ProcessMessage | xactserver/src/manager.rs:102-133 | computes the server's transition: counter, all actors and packets sent; actors stay apart and share nothing but Postgres, each under its own gid |
| Decoder.Cursor.GetUint | xactserver/src/decoder.rs:205-222 | a big-endian read moves the cursor by its width, or fails and moves nothing |
| Decoder.DecodeRegions | xactserver/src/decoder.rs:95-100 | the header loop collects exactly the set bits |
| Decoder.DecodeTuple | xactserver/src/decoder.rs:191-196 | reads one tuple of the format or fails |
| Decoder.DecodeTuples | xactserver/src/decoder.rs:172-178 | reads as many tuples as the count says, in order, or fails |
| Decoder.DecodePages | xactserver/src/decoder.rs:156-162 | reads as many pages as the count says, in order, or fails |
| Decoder.DecodeRelation | xactserver/src/decoder.rs:139-189 | reads one relation of the format, and stops right behind it |
| Decoder.DecodeRelations | xactserver/src/decoder.rs:44-67 | terminates with the relations of the whole section, or an error |
| Decoder.RwSetReader.Decode | xactserver/src/decoder.rs:18-38 | reads the header and keeps the rest for later, or fails |
| Decoder.RwSetReader.DecodeRest | xactserver/src/decoder.rs:70-80 | decodes the section once, is idempotent, leaves the participants alone, and panics exactly if the section is cut short |
| Decoder.DecodeParticipants | xactserver/src/manager.rs:291-296 | the participants a handler works with are those of the format |
| Decoder.DecodeWhole | xactserver/src/decoder.rs:18-80 | `decode` followed by `decode_rest`, twice, gives the set the bytes stand for |
| Decoder.AcceptedThoughCutShort | xactserver/src/decoder.rs:23-28 | bytes that pass the length check although their section is cut short |
| RwSetRoundTrip.RoundTrip | xactserver/src/decoder.rs:18-81 | every read/write set is read back from its encoding, with or without trailing bytes |
| RwSetRoundTrip.OnlyEncodings | xactserver/src/decoder.rs:18-81 | whatever decodes is the encoding of the result, with stored counts equal to list lengths |
| RwSetRoundTrip.HeadRoundTrip | xactserver/src/decoder.rs:91-103 | decoding the header gives back what was encoded, and delimits the section |
| RwSetRoundTrip.HeadRejectsExactlyIf | xactserver/src/decoder.rs:18-38 | whatever follows the header and the section length is accepted exactly if it is as long as that length says and holds a relation count, which is then read from its first four bytes |
| RwSetRoundTrip.ShortDataRejected | xactserver/src/decoder.rs:18-22 | less than a header with its section length is rejected |
| RwSetRoundTrip.MostSignificantFirst | xactserver/src/decoder.rs:205-222 | numbers have their most significant byte first |
| RwSetRoundTrip.TableIsRead | xactserver/src/decoder.rs:139-189 | the letter T, the fields and the tuples in their places are read as a table |
| RwSetRoundTrip.IndexIsRead | xactserver/src/decoder.rs:139-189 | the letter I, the fields and the pages in their places are read as an index |
| RwSetRoundTrip.OtherLettersRejected | xactserver/src/decoder.rs:139-146 | a relation with any other first byte, or too short for its fields, is rejected |
| RwSetRoundTrip.ItemsAreRead | xactserver/src/decoder.rs:191-202 | a tuple is its block number and then its offset, a page its block number |
| RwSetRoundTrip.ReadRelation | xactserver/src/decoder.rs:139-203 | a relation is read back from its encoding, and nothing behind it is touched |
| RwSetRoundTrip.RelationRead | xactserver/src/decoder.rs:139-203 | a relation that was read is the encoding of the result |
| RwSetRoundTrip.SectionAccounting | xactserver/src/decoder.rs:44-67 | a section that decodes is as long as its relations say (19 + 6 per tuple, 19 + 4 per page), and comparing their number as a `u32` loses nothing |
| RwSetRoundTrip.RegionsInvertBitmap | xactserver/src/decoder.rs:95-100 | every set of regions below 64 is that of its bitmap |
| RwSetRoundTrip.BitmapOfRegions | xactserver/src/decoder.rs:95-100 | the powers of two over the participants add up to the region word |
| Watcher.SerializeRollbackInfo | xactserver/src/pg/watcher.rs:150-186 | writes the wire format, and panics exactly for nodes from 255 on |
| Watcher.AnswersInBytes | xactserver/src/pg/watcher.rs:150-186 | one answer of each kind, byte by byte |
| Watcher.ReadableExactlyIfSafe | xactserver/src/pg/watcher.rs:150-186 | a parser that ends texts at their first zero byte gives the answer back exactly if its texts have no zero bytes and its SQL code five bytes |
| Watcher.SerializeInjective | xactserver/src/pg/watcher.rs:150-186 | no two such answers look alike |
| Watcher.LeadingZeroMeansCommit | xactserver/src/pg/watcher.rs:155-156 | the first byte is 0 exactly for a commit |
| Watcher.NulsConfuse | xactserver/src/pg/watcher.rs:158-178 | two different rollbacks with the same bytes, one of them with a zero byte in its text |
| Watcher.LookAlike | xactserver/src/pg/watcher.rs:150-186 | two rollbacks have the same bytes exactly if they name the same node and have the same body; two errors not from the database never do |
| Watcher.AmbiguousExactlyIf | xactserver/src/pg/watcher.rs:150-186 | the bytes of a rollback can stand for another answer exactly if it is a database error, which a text can imitate, or a text that contains what separates the parts of one |
| Watcher.AnswersSerializable | xactserver/src/pg/watcher.rs:155-156 | in no run of the system does a coordinator give an answer on which the conversion to a byte panics |
| Watcher.SessionInRun | xactserver/src/pg/watcher.rs:134-143 | with what a coordinator's reply channel gives in runs of the system, a session never panics, fails exactly if the coordinator stopped without an answer or the reply cannot be written, and writes the answer otherwise |
| Watcher.RepliesMatchRequests | xactserver/src/pg/watcher.rs:109-144 | each reply is the answer to the request at the same place; only the last request of a session that broke off can be without one |
| Watcher.SessionEnds | xactserver/src/pg/watcher.rs:109-144 | a session is open exactly if all messages were requests served; it closes normally exactly if the first other message is the end of the connection, and fails or panics exactly if that is an unexpected one, a read error, or a request not taken, hung up on or not written, or one whose reply cannot be serialized |
| Watcher.ProcessQuery | xactserver/src/pg/watcher.rs:98-147 | for every sequence of messages and answers the loop writes the session that they stand for, and ends: normally, failed, panicked or not at all, exactly as the first message that is not a request answered and written makes it |
| Ids.UnpackNew | xactserver/src/id.rs:13-23 | unpacking inverts packing |
| Ids.NewUnpacked | xactserver/src/id.rs:13-23 | packing inverts unpacking, on all 64-bit words |
| Ids.NewIsSum | xactserver/src/id.rs:13-15 | shifting and or-ing amount to counter * 2^32 + node, within 64 bits |
| Ids.NextIsValid | xactserver/src/manager.rs:106-107 | an issued id is INVALID exactly if node 0 overflowed its counter |
| Ids.IdsRepeatExactly | xactserver/src/manager.rs:106-107 | two transactions of a node get the same id exactly if their numbers agree modulo 2^32, so that ids repeat beyond the overflow of the counter |
| Ids.DisplayInjective | xactserver/src/id.rs:32-36 | different ids have different gids |
| Ids.DisplayReads | xactserver/src/id.rs:32-36 | a gid reads as the counter between "(" and ",", and as the node between "," and ")" |
| Ids.DigitsAppend | xactserver/src/id.rs:32-36 | numbers are written with their digits in decimal order |
| Ids.DisplayExample | xactserver/src/id.rs:32-36 | the first transaction of node 2 has the gid "(1,2)" |

## Left out

- Restart and recovery of in-doubt transactions: the code has none; a cancelled or failed actor leaves its prepared transaction as it is, and no result says otherwise.
- Duplicate delivery: each message sent is delivered at most once; the calls between servers are not retried.
- Interleaving inside a handler: a handler runs as one step, with all its messages on the network at its end. An actor shares nothing with others but messages and its own gid, so that what others do meanwhile is among what they can do afterwards.
- Real Postgres and `validate_and_apply_xact`: replaced by what is held under each gid and by freely chosen outcomes of calls. An effect behind a lost acknowledgement is taken to have happened, if at all, before the error was seen.
- Transport, connection pools, accept loops, task scheduling, the capacity of mailboxes, and the shutdown of whole servers: only "sent", "delivered", "lost" and "actor cancelled" remain.
- The Postgres backend protocol around `process_query`: only messages received, requests handed over, replies written, and how the session ended. The switch to COPYBOTH before the loop (`watcher.rs:103-105`) is taken to succeed.
- The call of `decode_rest` in the handlers (`manager.rs:230`, `manager.rs:293`): it is an argument of a debug message and evaluated at that log level only. When it would panic is stated by `Decoder.RwSetReader.DecodeRest`; the handlers of the model do not call it.
- The trait `XactController` with a type parameter on `XactState`: replaced by a datatype of the two controllers.
- The text of errors, their context chains, and how a Postgres error becomes a rollback reason (`lib.rs:53-66`): an execution that fails does so with a freely chosen reason.
- Conversions between server values and their wire counterparts (`lib.rs:68-84`, `lib.rs:107-114`): they rename constructors; the model uses one type for both.
- Metrics, timers, tracing, configuration and everything under `tools/`: nothing here depends on them.
- Ids.NextIsValid: takes the counter to wrap around, as it does in a build without overflow checks; runs of the system stop issuing ids before that.
- TransactionLiveness.Completes: speaks of states in which nothing has gone wrong for the nodes it is about; `CommitPossible.CommitPossibleExactlyIf` says which states can still lead to a commit in general.
- CoordinatorFailure.HangUpMeansNoCommitExactlyIf: speaks of hang-ups because the request could not be sent out; `CommitPossible.HungUpWithoutCommitExactlyIf` covers those at any time.
- Watcher.SerializeRollbackInfo: does not model the overflow of the 32-bit sum for node 2^32 - 1, for which a build without overflow checks writes 0 and does not panic; answers name nodes below 64 (`Watcher.AnswersSerializable`).
