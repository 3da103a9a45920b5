/** The state machines of one transaction server as functions on values:
    controllers (xactserver/src/pg/controller.rs), vote counting
    (xactserver/src/xact/state.rs), early votes (xactserver/src/xact.rs) and the
    message handlers (xactserver/src/manager.rs). The classes of this project are
    proved to compute these functions, and the protocol theorems are proved of them. */
module Transitions {
  import opened Messages
  import Ids
  import RwSetFormat

  // ----- The environment -------------------------------------------------------

  /** How a remote call ends: it worked; it had no effect and an error came back; it
      had its effect but an error came back (the acknowledgement was lost). */
  datatype Call = Ok | Refused(why: RollbackReason) | Unacked(why: RollbackReason)

  /** The four calls `execute` makes, in order. */
  datatype ExecEnv = ExecEnv(connect: Call, start: Call, validate: Call, prepare: Call)

  /** The calls `commit` and `rollback` make, and whether the client still waits. */
  datatype FinishEnv = FinishEnv(receiverAlive: bool, connect: Call, query: Call, command: Call)

  /** One handler run: `reached` are the nodes its messages got to, `acked` says
      whether all of those deliveries were also acknowledged. */
  datatype Env = Env(exec: ExecEnv, reached: set<NodeId>, acked: bool, finish: FinishEnv)

  // ----- Controllers -----------------------------------------------------------

  datatype Phase = Absent | Prepared | CommittedInPg | RolledBackInPg

  /** What Postgres holds under one gid, with a count of the `COMMIT PREPARED`s it
      was sent and of the finishing commands that named a gid not prepared. */
  datatype PgXact = PgXact(phase: Phase, commits: nat, invalid: nat)

  const NO_XACT := PgXact(Absent, 0, 0)

  /** The coordinator's one-shot answer to its client. */
  datatype Reply = Pending | Answered(answer: Option<RollbackInfo>) | Dropped

  datatype Controller = LocalController(reply: Reply) | SurrogateController(pg: PgXact)

  /** `PREPARE TRANSACTION`: only a session whose transaction has not failed leaves
      a prepared transaction; otherwise the command just ends the transaction. */
  function Prepare(pg: PgXact, validate: Call, prepare: Call): PgXact {
    if !validate.Refused? && !prepare.Refused? then pg.(phase := Prepared) else pg
  }

  /** The new controller and the error, if any. */
  function Execute(c: Controller, e: ExecEnv): (Controller, Option<RollbackReason>) {
    match c
    case LocalController(_) => (c, None)
    case SurrogateController(pg) =>
      if !e.connect.Ok? then (c, Some(e.connect.why))
      else if !e.start.Ok? then (c, Some(e.start.why))
      else
        var pg' := SurrogateController(Prepare(pg, e.validate, e.prepare));
        if !e.prepare.Ok? then (pg', Some(e.prepare.why))
        else if !e.validate.Ok? then (pg', Some(e.validate.why))
        else (pg', None)
  }

  /** `commit_tx.take()` followed by a send. */
  function Send(r: Reply, answer: Option<RollbackInfo>, receiverAlive: bool): (Reply, bool) {
    if !r.Pending? then (r, false)
    else if receiverAlive then (Answered(answer), true)
    else (Dropped, false)
  }

  /** A finishing command sent to Postgres under this gid. */
  function FinishCommand(pg: PgXact, target: Phase, command: Call): (PgXact, bool) {
    if !pg.phase.Prepared? then (pg.(invalid := pg.invalid + 1), false)
    else if command.Refused? then (pg, false)
    else (pg.(phase := target), command.Ok?)
  }

  /** The new controller and whether the call succeeded. */
  function Commit(c: Controller, e: FinishEnv): (Controller, bool) {
    match c
    case LocalController(r) =>
      var (r', ok) := Send(r, None, e.receiverAlive);
      (LocalController(r'), ok)
    case SurrogateController(pg) =>
      if !e.connect.Ok? then (c, false)
      else
        var (pg', ok) := FinishCommand(pg.(commits := pg.commits + 1), CommittedInPg, e.command);
        (SurrogateController(pg'), ok)
  }

  function Rollback(c: Controller, info: RollbackInfo, e: FinishEnv): (Controller, bool) {
    match c
    case LocalController(r) =>
      var (r', ok) := Send(r, Some(info), e.receiverAlive);
      (LocalController(r'), ok)
    case SurrogateController(pg) =>
      if !e.connect.Ok? || !e.query.Ok? then (c, false)
      else if !pg.phase.Prepared? then (c, true)
      else
        var (pg', ok) := FinishCommand(pg, RolledBackInPg, e.command);
        (SurrogateController(pg'), ok)
  }

  // ----- Vote counting ---------------------------------------------------------

  datatype Status =
    | Uninitialized
    | Waiting
    | Committing
    | Rollbacking(info: RollbackInfo)
    | Committed
    | Rollbacked(info: RollbackInfo)
  {
    predicate Terminal() { Committed? || Rollbacked? }
    predicate Commits() { Committing? || Committed? }
    predicate RollsBack() { Rollbacking? || Rollbacked? }
  }

  datatype State = State(
    node: NodeId,
    coordinator: NodeId,
    participants: set<NodeId>,
    status: Status,
    voted: set<NodeId>,
    controller: Controller)

  function NewState(node: NodeId, coordinator: NodeId, participants: set<NodeId>, c: Controller): State {
    State(node, coordinator, participants, Uninitialized, {}, c)
  }

  /** `add_vote` refuses votes once the state is committing; it then changes nothing. */
  predicate AcceptsVote(s: State) {
    !s.status.Commits()
  }

  function AddVote(s: State, v: Vote): State {
    if v.from !in s.participants || !s.status.Waiting? then s
    else if v.reason.Some? then s.(status := Rollbacking(RollbackInfo(v.from, v.reason.value)))
    else
      var voted := s.voted + {v.from};
      s.(voted := voted,
         status := if v.from !in s.voted && voted == s.participants then Committing else Waiting)
  }

  /** Adds the votes in order up to the first one that is refused. */
  function AddVotes(s: State, votes: seq<Vote>): (State, bool)
    decreases |votes|
  {
    if votes == [] then (s, true)
    else if !AcceptsVote(s) then (s, false)
    else AddVotes(AddVote(s, votes[0]), votes[1..])
  }

  /** The state after the implicit "yes" of the coordinator and the local execution,
      the outcome of that execution, and whether all of it was carried out. */
  function Prologue(s: State, e: ExecEnv): (State, Option<RollbackReason>) {
    if s.node == s.coordinator then (s, None)
    else
      var s1 := AddVote(s, Vote(s.coordinator, None));
      var (c, failure) := Execute(s1.controller, e);
      (s1.(controller := c), failure)
  }

  function Initialize(s: State, votes: seq<Vote>, e: ExecEnv): (State, bool) {
    if !s.status.Uninitialized? then (s, false)
    else
      var (s1, failure) := Prologue(s.(status := Waiting), e);
      AddVotes(s1, [Vote(s.node, failure)] + votes)
  }

  function TryFinish(s: State, e: FinishEnv): (State, bool) {
    match s.status
    case Committing =>
      var (c, ok) := Commit(s.controller, e);
      (s.(controller := c, status := if ok then Committed else s.status), ok)
    case Rollbacking(info) =>
      var (c, ok) := Rollback(s.controller, info, e);
      (s.(controller := c, status := if ok then Rollbacked(info) else s.status), ok)
    case _ => (s, true)
  }

  // ----- One actor -------------------------------------------------------------

  datatype Xact = Unknown(votes: seq<Vote>) | Local(state: State) | Surrogate(state: State)

  /** How an actor's message loop stands: still receiving, ended because the
      transaction finished, ended on an error, cancelled, or ended by a panic (at an
      `unreachable!()` arm, or at the status assertion of the coordinator). */
  datatype Outcome = Running | Finished | Failed | Cancelled | Unreachable | AssertFailed

  /** History of a surrogate: what its own execution returned and the verdict it
      set out to broadcast. Read by no transition. */
  datatype Log = Log(executed: Option<Option<RollbackReason>>, verdict: Option<Option<RollbackReason>>)

  const NO_LOG := Log(None, None)

  datatype Actor = Actor(coordinator: Option<NodeId>, xact: Xact, outcome: Outcome, log: Log)

  const FRESH := Actor(None, Unknown([]), Running, NO_LOG)

  /** A handler's new actor and the packets it put on the network. */
  datatype Handled = Handled(actor: Actor, sent: multiset<Packet>)

  function Peers(participants: set<NodeId>, me: NodeId): set<NodeId> {
    participants - {me}
  }

  /** The packets of `send_to_all_but_me` that got out. */
  function Broadcast(peers: set<NodeId>, reached: set<NodeId>, msg: Message): multiset<Packet> {
    multiset(set k | k in peers && k in reached :: Packet(k, msg))
  }

  predicate BroadcastOk(peers: set<NodeId>, e: Env) {
    e.acked && peers <= e.reached
  }

  /** The last part of two handlers: try to finish and stop when that ended the
      transaction or failed. */
  function Finish(a: Actor, e: FinishEnv): Actor {
    match a.xact
    case Unknown(_) => a
    case Local(s) =>
      var (s', ok) := TryFinish(s, e);
      a.(xact := Local(s'), outcome := if !ok then Failed else if s'.status.Terminal() then Finished else a.outcome)
    case Surrogate(s) =>
      var (s', ok) := TryFinish(s, e);
      a.(xact := Surrogate(s'), outcome := if !ok then Failed else if s'.status.Terminal() then Finished else a.outcome)
  }

  /** The coordinator's state once initialized, which must be waiting. */
  function InitLocal(a: Actor, me: NodeId, participants: set<NodeId>, e: ExecEnv): Actor {
    var s := NewState(me, me, participants, LocalController(Pending));
    if !a.xact.Unknown? then a.(xact := Local(s), outcome := Unreachable)
    else
      var (s', ok) := Initialize(s, a.xact.votes, e);
      a.(xact := Local(s'), outcome := if !ok then Failed else if !s'.status.Waiting? then AssertFailed else a.outcome)
  }

  /** Sends to all peers; an error ends the actor. */
  function SendAll(a: Actor, me: NodeId, participants: set<NodeId>, msg: Message, e: Env): Handled {
    var peers := Peers(participants, me);
    Handled(if BroadcastOk(peers, e) then a else a.(outcome := Failed), Broadcast(peers, e.reached, msg))
  }

  function HandleLocal(a: Actor, me: NodeId, id: XactId, data: seq<Byte>, e: Env): Handled {
    var a1 := a.(coordinator := Some(me));
    match RwSetFormat.ParticipantsOf(data)
    case None => Handled(a1.(outcome := Failed), multiset{})
    case Some(participants) =>
      var a2 := InitLocal(a1, me, participants, e.exec);
      if !a2.outcome.Running? then Handled(a2, multiset{})
      else SendAll(a2, me, participants, PrepareMessage(me, id, data), e)
  }

  /** The rollback reason a surrogate puts in its vote. */
  function VerdictOf(status: Status): Option<RollbackReason> {
    if status.RollsBack() then Some(status.info.reason) else None
  }

  /** What Postgres holds under the gid of an actor's transaction. */
  function PgOf(x: Xact): PgXact {
    if x.Surrogate? && x.state.controller.SurrogateController? then x.state.controller.pg else NO_XACT
  }

  /** The surrogate's state once initialized, and the verdict that follows from it. */
  function InitSurrogate(a: Actor, me: NodeId, from: NodeId, participants: set<NodeId>, e: ExecEnv): Actor {
    var s := NewState(me, from, participants, SurrogateController(PgOf(a.xact)));
    if !a.xact.Unknown? then a.(xact := Surrogate(s), outcome := Unreachable)
    else
      var (s', ok) := Initialize(s, a.xact.votes, e);
      var executed := Some(Execute(s.controller, e).1);
      if !ok || s'.status.Uninitialized? then a.(xact := Surrogate(s'), log := Log(executed, None), outcome := Failed)
      else a.(xact := Surrogate(s'), log := Log(executed, Some(VerdictOf(s'.status))))
  }

  function HandlePrepare(a: Actor, me: NodeId, id: XactId, from: NodeId, data: seq<Byte>, e: Env): Handled {
    var a1 := a.(coordinator := Some(from));
    match RwSetFormat.ParticipantsOf(data)
    case None => Handled(a1.(outcome := Failed), multiset{})
    case Some(participants) =>
      if me !in participants then Handled(a1.(outcome := Finished), multiset{})
      else TakePart(a1, me, id, from, participants, e)
  }

  /** Executes, votes and, if possible, finishes. */
  function TakePart(a: Actor, me: NodeId, id: XactId, from: NodeId, participants: set<NodeId>, e: Env): Handled {
    var a2 := InitSurrogate(a, me, from, participants, e.exec);
    if !a2.outcome.Running? || !a2.xact.Surrogate? then Handled(a2, multiset{})
    else CastVote(a2, me, id, participants, VerdictOf(a2.xact.state.status), e)
  }

  /** Broadcasts the verdict and tries to finish. */
  function CastVote(a: Actor, me: NodeId, id: XactId, participants: set<NodeId>, verdict: Option<RollbackReason>, e: Env): Handled {
    var h := SendAll(a, me, participants, VoteMessage(me, id, verdict), e);
    if h.actor.outcome.Running? then Handled(Finish(h.actor, e.finish), h.sent) else h
  }

  function HandleVote(a: Actor, v: Vote, e: FinishEnv): Actor {
    match a.xact
    case Unknown(votes) => a.(xact := Unknown(votes + [v]))
    case Local(s) =>
      if !AcceptsVote(s) then a.(outcome := Failed) else Finish(a.(xact := Local(AddVote(s, v))), e)
    case Surrogate(s) =>
      if !AcceptsVote(s) then a.(outcome := Failed) else Finish(a.(xact := Surrogate(AddVote(s, v))), e)
  }

  /** What a server receives: a transaction from its own Postgres, or a peer message. */
  datatype Input = LocalXact(data: seq<Byte>) | Remote(msg: Message)

  /** A message at the actor that owns its transaction; an actor whose loop has
      ended receives nothing any more. */
  function Receive(a: Actor, me: NodeId, id: XactId, input: Input, e: Env): Handled {
    if !a.outcome.Running? then Handled(a, multiset{})
    else match input
      case LocalXact(data) => HandleLocal(a, me, id, data, e)
      case Remote(PrepareMessage(from, _, data)) => HandlePrepare(a, me, id, from, data, e)
      case Remote(VoteMessage(from, _, reason)) => Handled(HandleVote(a, Vote(from, reason), e.finish), multiset{})
  }

  // ----- One server ---------------------------------------------------------------

  /** The manager: its transaction counter and the actors it has created. */
  datatype Server = Server(counter: nat, actors: map<XactId, Actor>)

  /** The transaction a message is for; a new one for a local transaction. */
  function TargetId(s: Server, me: NodeId, input: Input): XactId {
    match input
    case LocalXact(_) => Ids.New(Ids.Next(s.counter), me)
    case Remote(msg) => msg.id
  }

  /** `process_message`: the new server and the packets sent. */
  function Process(s: Server, me: NodeId, input: Input, e: Env): (Server, multiset<Packet>) {
    var id := TargetId(s, me, input);
    var a := if id in s.actors then s.actors[id] else FRESH;
    var h := Receive(a, me, id, input, e);
    (Server(if input.LocalXact? then Ids.Next(s.counter) else s.counter, s.actors[id := h.actor]), h.sent)
  }
}
