/** All nodes together, seen from one transaction: the actors that own it, the
    undelivered packets, and every packet ever sent for it. */
module Transaction {
  import opened Messages
  import opened Transitions
  import RwSetFormat

  datatype Txn = Txn(
    id: XactId,
    coordinator: NodeId,
    data: Option<seq<Byte>>,          // what the client submitted, once it has
    actors: map<NodeId, Actor>,
    net: multiset<Packet>,            // undelivered
    sent: multiset<Packet>)           // history: all packets ever put on the network

  function Idle(id: XactId, coordinator: NodeId): Txn {
    Txn(id, coordinator, None, map[], multiset{}, multiset{})
  }

  function At(t: Txn, k: NodeId): Actor {
    if k in t.actors then t.actors[k] else FRESH
  }

  function Participants(t: Txn): set<NodeId> {
    if t.data.None? then {}
    else match RwSetFormat.ParticipantsOf(t.data.value)
      case None => {}
      case Some(p) => p
  }

  function Surrogates(t: Txn): set<NodeId> {
    Participants(t) - {t.coordinator}
  }

  /** The client's request reaches its node; a packet reaches the actor it is for; a
      packet is lost; an actor is cancelled. */
  datatype Step =
    | Begin(data: seq<Byte>, env: Env)
    | Deliver(packet: Packet, env: Env)
    | Lose(packet: Packet)
    | Stop(node: NodeId)

  predicate Enabled(t: Txn, step: Step) {
    match step
    case Begin(_, _) => t.data.None?
    case Deliver(p, _) => p in t.net
    case Lose(p) => p in t.net
    case Stop(k) => k in t.actors && t.actors[k].outcome.Running?
  }

  function Put(t: Txn, k: NodeId, h: Handled): Txn {
    t.(actors := t.actors[k := h.actor], net := t.net + h.sent, sent := t.sent + h.sent)
  }

  function Apply(t: Txn, step: Step): Txn
    requires Enabled(t, step)
  {
    match step
    case Begin(data, env) =>
      var k := t.coordinator;
      Put(t.(data := Some(data)), k, Receive(At(t, k), k, t.id, LocalXact(data), env))
    case Deliver(p, env) =>
      Put(t.(net := t.net - multiset{p}), p.to, Receive(At(t, p.to), p.to, t.id, Remote(p.msg), env))
    case Lose(p) => t.(net := t.net - multiset{p})
    case Stop(k) => t.(actors := t.actors[k := t.actors[k].(outcome := Cancelled)])
  }

  // ----- What every reachable state satisfies ------------------------------------

  /** The node's own execution of the transaction, and the verdict it broadcasts. */
  function ExecutedAt(t: Txn, k: NodeId): Option<Option<RollbackReason>> { At(t, k).log.executed }

  function VerdictAt(t: Txn, k: NodeId): Option<Option<RollbackReason>> { At(t, k).log.verdict }

  predicate Live(a: Actor) { !a.xact.Unknown? }

  function StatusAt(t: Txn, k: NodeId): Status {
    var a := At(t, k);
    if Live(a) then a.xact.state.status else Uninitialized
  }

  /** The votes node `k` has counted, or still keeps in its buffer. */
  function CountedAt(t: Txn, k: NodeId): set<NodeId> {
    var a := At(t, k);
    if Live(a) then a.xact.state.voted else {}
  }

  function BufferedAt(t: Txn, k: NodeId): seq<Vote> {
    var a := At(t, k);
    if Live(a) then [] else a.xact.votes
  }

  /** Status, counted votes and participants fit together. */
  ghost predicate StateInv(s: State) {
    && s.voted <= s.participants
    && !s.status.Uninitialized?
    && (s.status.Waiting? && s.participants != {} ==> s.voted != s.participants)
    && (s.status.Commits() ==> s.voted == s.participants)
    && (s.status.RollsBack() ==> s.status.info.origin in s.participants)
  }

  /** A participant that waits has its own "yes" and the coordinator's. */
  ghost predicate OwnVotes(s: State) {
    s.status.Waiting? ==> {s.node, s.coordinator} * s.participants <= s.voted
  }

  /** The client's answer follows the coordinator's status. */
  ghost predicate ReplyInv(status: Status, r: Reply) {
    match status
    case Uninitialized => r.Pending?
    case Waiting => r.Pending?
    case Committing => r.Pending? || r.Dropped?
    case Rollbacking(_) => r.Pending? || r.Dropped?
    case Committed => r == Answered(None)
    case Rollbacked(info) => r == Answered(Some(info))
  }

  /** Postgres follows the surrogate's status and the outcome of its execution. */
  ghost predicate PgInv(status: Status, pg: PgXact, executedOk: bool) {
    && pg.invalid == 0
    && match status
       case Uninitialized => pg == NO_XACT
       case Waiting => executedOk && pg == PgXact(Prepared, 0, 0)
       case Committing => executedOk && (pg.phase.Prepared? || pg.phase.CommittedInPg?) && pg.commits <= 1
       case Committed => executedOk && pg.phase.CommittedInPg? && pg.commits == 1
       case Rollbacking(_) => pg.commits == 0 && !pg.phase.CommittedInPg? && (executedOk ==> !pg.phase.Absent?)
       case Rollbacked(_) => pg.commits == 0 && (pg.phase.RolledBackInPg? || (pg.phase.Absent? && !executedOk))
  }

  /** How the actor's loop may stand. */
  ghost predicate OutcomeInv(c: NodeId, participants: set<NodeId>, k: NodeId, a: Actor) {
    && !a.outcome.Unreachable?
    && (a.outcome.AssertFailed? ==> k == c && participants == {c})
    && (a.outcome.Running? ==> if Live(a) then a.xact.state.status.Waiting? else k != c)
  }

  /** The state of the actor of node `k`, taken alone. */
  ghost predicate CoreInv(c: NodeId, participants: set<NodeId>, k: NodeId, a: Actor) {
    match a.xact
    case Unknown(votes) => a.log == NO_LOG
    case Local(s) =>
      && k == c && s.node == k && s.coordinator == c && s.participants == participants
      && StateInv(s) && a.log == NO_LOG
      && (s.status.RollsBack() ==> s.status.info.origin != k)
      && OwnVotes(s)
      && s.controller.LocalController? && ReplyInv(s.status, s.controller.reply)
    case Surrogate(s) =>
      && k != c && k in participants && s.node == k && s.coordinator == c && s.participants == participants
      && StateInv(s) && OwnVotes(s)
      && s.controller.SurrogateController?
      && a.log.executed.Some? && a.log.verdict.Some?
      && PgInv(s.status, s.controller.pg, a.log.executed.value.None?)
      && VerdictInv(s, a.log)
  }

  ghost predicate ActorInv(c: NodeId, participants: set<NodeId>, k: NodeId, a: Actor) {
    OutcomeInv(c, participants, k, a) && CoreInv(c, participants, k, a)
  }

  /** How a surrogate's verdict and its counted votes relate to what it saw itself. */
  ghost predicate VerdictInv(s: State, log: Log)
    requires log.executed.Some? && log.verdict.Some?
  {
    && (log.verdict.value.None? ==> log.executed.value.None?)
    && (log.verdict.value.Some? ==> s.status.RollsBack() && s.status.info.reason == log.verdict.value.value)
    && (s.node in s.voted ==> log.executed.value.None?)
    && (s.status.RollsBack() && s.status.info.origin == s.node ==>
          log.executed.value == Some(s.status.info.reason))
    && (log.executed.value.Some? ==>
          s.status.RollsBack() && s.status.info == RollbackInfo(s.node, log.executed.value.value))
  }

  /** Vote `v`, wherever it is, is the one verdict of the surrogate it names. */
  ghost predicate Authentic(t: Txn, v: Vote) {
    && v.from in Surrogates(t)
    && VerdictAt(t, v.from) == Some(v.reason)
  }

  /** What node `k` counted and what it rolls back for are authentic votes. */
  ghost predicate VotesInv(t: Txn, k: NodeId) {
    && (forall j :: j in CountedAt(t, k) && j != k && j != t.coordinator ==> Authentic(t, Vote(j, None)))
    && (StatusAt(t, k).RollsBack() && StatusAt(t, k).info.origin != k ==>
          Authentic(t, Vote(StatusAt(t, k).info.origin, Some(StatusAt(t, k).info.reason))))
  }

  /** Buffered votes are authentic, from others and one per voter. */
  ghost predicate BufferInv(t: Txn, k: NodeId) {
    var votes := BufferedAt(t, k);
    && (forall i :: 0 <= i < |votes| ==> votes[i].from != k && Authentic(t, votes[i]))
    && (forall i, j :: 0 <= i < j < |votes| ==> votes[i].from != votes[j].from)
  }

  /** A reason to roll back is some surrogate's own failed execution. */
  ghost predicate Grounded(t: Txn, reason: RollbackReason) {
    exists m :: m in Surrogates(t) && ExecutedAt(t, m) == Some(Some(reason))
  }

  ghost predicate GroundsInv(t: Txn, k: NodeId) {
    && (StatusAt(t, k).RollsBack() ==> Grounded(t, StatusAt(t, k).info.reason))
    && (VerdictAt(t, k).Some? && VerdictAt(t, k).value.Some? ==> Grounded(t, VerdictAt(t, k).value.value))
  }

  /** All that is known of node `k`. */
  ghost predicate NodeInv(t: Txn, k: NodeId) {
    && ActorInv(t.coordinator, Participants(t), k, At(t, k))
    && VotesInv(t, k)
    && BufferInv(t, k)
    && GroundsInv(t, k)
  }

  /** A packet that was sent says what its sender stands for. */
  ghost predicate PacketInv(t: Txn, p: Packet) {
    && p.msg.id == t.id
    && p.to in Participants(t) && p.to != p.msg.from
    && match p.msg
       case PrepareMessage(from, _, data) => from == t.coordinator && Some(data) == t.data
       case VoteMessage(from, _, reason) => Authentic(t, Vote(from, reason))
  }

  ghost predicate SentInv(t: Txn) {
    && t.net <= t.sent
    && (forall p :: p in t.sent ==> t.sent[p] == 1 && PacketInv(t, p))
  }

  /** An undelivered packet has had no effect yet at its destination. */
  ghost predicate Unseen(t: Txn, p: Packet) {
    match p.msg
    case PrepareMessage(_, _, _) => !Live(At(t, p.to))
    case VoteMessage(from, _, _) =>
      && from !in CountedAt(t, p.to)
      && (forall v :: v in BufferedAt(t, p.to) ==> v.from != from)
  }

  ghost predicate NetInv(t: Txn) {
    forall p :: p in t.net ==> Unseen(t, p)
  }

  ghost predicate Inv(t: Txn) {
    if t.data.None? then t == Idle(t.id, t.coordinator)
    else
      && t.coordinator in t.actors
      && (forall k :: NodeInv(t, k))
      && SentInv(t)
      && NetInv(t)
  }
}
