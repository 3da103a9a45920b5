/** One handler run keeps the invariant of the actor it runs on. */
module ActorProofs {
  import opened Messages
  import opened Transitions
  import opened Transaction
  import opened VoteCounting
  import opened PgCalls
  import RwSetFormat

  /** A live actor that has not tried to finish yet. */
  ghost predicate Ready(a: Actor) {
    && Live(a)
    && a.outcome.Running?
    && !a.xact.state.status.Terminal()
    && match a.xact.state.controller
       case LocalController(r) => r.Pending?
       case SurrogateController(pg) =>
         && pg.commits == 0
         && (pg.phase.Prepared? || (pg.phase.Absent? && a.log.executed != Some(None)))
  }

  /** The same actor, except for how far the finishing of its decision has got. */
  ghost predicate SameDecision(a: Actor, b: Actor) {
    && Live(a) && Live(b)
    && a.log == b.log
    && a.xact.state.voted == b.xact.state.voted
    && (a.xact.state.status.Waiting? <==> b.xact.state.status.Waiting?)
    && (a.xact.state.status.Commits() <==> b.xact.state.status.Commits())
    && (a.xact.state.status.RollsBack() <==> b.xact.state.status.RollsBack())
    && (a.xact.state.status.RollsBack() ==> a.xact.state.status.info == b.xact.state.status.info)
  }

  lemma FinishKeeps(c: NodeId, participants: set<NodeId>, k: NodeId, a: Actor, e: FinishEnv)
    requires CoreInv(c, participants, k, a) && Ready(a)
    ensures ActorInv(c, participants, k, Finish(a, e))
    ensures SameDecision(a, Finish(a, e))
  {
  }

  /** A vote of another participant that a running actor has not counted yet. */
  lemma CountVote(c: NodeId, participants: set<NodeId>, k: NodeId, a: Actor, v: Vote)
    requires ActorInv(c, participants, k, a) && Live(a) && a.outcome.Running?
    requires v.from in participants && v.from != k && v.from !in a.xact.state.voted
    ensures AcceptsVote(a.xact.state)
    ensures
      var b := a.(xact := if a.xact.Local? then Local(AddVote(a.xact.state, v)) else Surrogate(AddVote(a.xact.state, v)));
      CoreInv(c, participants, k, b) && Ready(b)
  {
  }

  // ----- Prepare at a surrogate ---------------------------------------------------

  function Start(c: NodeId, participants: set<NodeId>, k: NodeId): State {
    NewState(k, c, participants, SurrogateController(NO_XACT))
  }

  /** The actor of a surrogate once it knows its verdict. */
  function Decided(c: NodeId, participants: set<NodeId>, k: NodeId, votes: seq<Vote>, e: ExecEnv): Actor {
    var s := Initialized(Start(c, participants, k), votes, e);
    Actor(Some(c), Surrogate(s), Running,
          Log(Some(FailureOf(e)), Some(VerdictOf(s.status))))
  }

  lemma ExecutePrepares(e: ExecEnv)
    ensures var c, failure := AfterExecute(SurrogateController(NO_XACT), e), FailureOf(e);
            && c.SurrogateController?
            && c.pg.commits == 0 && c.pg.invalid == 0
            && (c.pg.phase.Prepared? || c.pg.phase.Absent?)
            && (failure.None? ==> c.pg.phase.Prepared?)
  {
  }

  /** Every counted "yes" and every relayed "no" is one of the early votes. */
  lemma CountedFrom(s: State, votes: seq<Vote>)
    ensures forall j :: j in Counted(s, votes).voted && j !in s.voted ==> Vote(j, None) in votes
    ensures Counted(s, votes).status.RollsBack() ==>
              var info := Counted(s, votes).status.info; Vote(info.origin, Some(info.reason)) in votes
    ensures Counted(s, votes).status.RollsBack() || Counted(s, votes).status.Waiting? || Counted(s, votes).status.Committing?
  {
    var i := FirstNo(votes);
    forall j | j in Counted(s, votes).voted && j !in s.voted
      ensures Vote(j, None) in votes
    {
      var v :| v in votes[..i] && v.from == j;
      var m :| 0 <= m < i && votes[m] == v;
      assert votes[m].reason.None?;
    }
    if i < |votes| {
      assert votes[i] == Vote(votes[i].from, Some(votes[i].reason.value));
    }
  }

  lemma InitializedFrom(s: State, votes: seq<Vote>, e: ExecEnv)
    requires SurrogateStart(s, votes)
    ensures var s' := Initialized(s, votes, e);
            && s' == s.(status := s'.status, voted := s'.voted, controller := AfterExecute(s.controller, e))
            && s'.voted <= s'.participants
            && (s'.status.Rollbacking? || s'.status.Waiting? || s'.status.Committing?)
            && (forall j :: j in s'.voted && j != s.node && j != s.coordinator ==> Vote(j, None) in votes)
            && (s.node in s'.voted <==> FailureOf(e).None?)
            && (s'.status.Rollbacking? ==>
                  if FailureOf(e).Some? then
                    s'.status.info == RollbackInfo(s.node, FailureOf(e).value)
                  else
                    Vote(s'.status.info.origin, Some(s'.status.info.reason)) in votes)
            && (FailureOf(e).Some? ==> s'.status.Rollbacking?)
  {
    if FailureOf(e).None? {
      CountedFrom(Executed(s, e), votes);
      forall j | j in Voters(votes[..FirstNo(votes)])
        ensures j in s.participants
      {
      }
    }
  }

  lemma WaitingOrCommitting(s: State, votes: seq<Vote>)
    ensures var s' := Counted(s, votes);
            && (s'.status.Waiting? ==> s'.voted != s.participants)
            && (s'.status.Committing? ==> s'.voted == s.participants)
  {
  }

  lemma DecidedInv(c: NodeId, participants: set<NodeId>, k: NodeId, votes: seq<Vote>, e: ExecEnv)
    requires SurrogateStart(Start(c, participants, k), votes)
    ensures CoreInv(c, participants, k, Decided(c, participants, k, votes, e))
    ensures Ready(Decided(c, participants, k, votes, e))
  {
    var s := Start(c, participants, k);
    InitializedFrom(s, votes, e);
    ExecutePrepares(e);
    if FailureOf(e).None? {
      WaitingOrCommitting(Executed(s, e), votes);
    }
  }

  /** What handling `Prepare` comes to at a participant that is not the coordinator. */
  lemma PrepareHandled(a: Actor, c: NodeId, participants: set<NodeId>, k: NodeId, id: XactId, data: seq<Byte>, e: Env)
    requires a.xact.Unknown? && a.outcome.Running?
    requires RwSetFormat.ParticipantsOf(data) == Some(participants)
    requires SurrogateStart(Start(c, participants, k), a.xact.votes)
    ensures
      var b := Decided(c, participants, k, a.xact.votes, e.exec);
      var h := HandlePrepare(a, k, id, c, data, e);
      && h.sent == Broadcast(Peers(participants, k), e.reached, VoteMessage(k, id, b.log.verdict.value))
      && h.actor == (if BroadcastOk(Peers(participants, k), e) then Finish(b, e.finish) else b.(outcome := Failed))
      && SameDecision(b, h.actor)
      && ActorInv(c, participants, k, h.actor)
  {
    var s := Start(c, participants, k);
    var b := Decided(c, participants, k, a.xact.votes, e.exec);
    InitializeSurrogate(s, a.xact.votes, e.exec);
    ExecuteByCalls(NO_XACT, e.exec);
    DecidedInv(c, participants, k, a.xact.votes, e.exec);
    FinishKeeps(c, participants, k, b, e.finish);
  }

  // ----- The client's request at the coordinator ------------------------------------

  /** The coordinator's state once its own "yes" is in. */
  function Started(c: NodeId, participants: set<NodeId>): State {
    AddVote(NewState(c, c, participants, LocalController(Pending)).(status := Waiting), Vote(c, None))
  }

  lemma LocalHandled(c: NodeId, id: XactId, data: seq<Byte>, e: Env)
    ensures
      var h := HandleLocal(FRESH, c, id, data, e);
      match RwSetFormat.ParticipantsOf(data)
      case None => h == Handled(FRESH.(coordinator := Some(c), outcome := Failed), multiset{})
      case Some(p) =>
        var b := Actor(Some(c), Local(Started(c, p)), Running, NO_LOG);
        if p == {c} then h == Handled(b.(outcome := AssertFailed), multiset{})
        else
          && Started(c, p).status.Waiting?
          && h == Handled(b.(outcome := if BroadcastOk(Peers(p, c), e) then Running else Failed),
                          Broadcast(Peers(p, c), e.reached, PrepareMessage(c, id, data)))
  {
    match RwSetFormat.ParticipantsOf(data)
    case None =>
    case Some(p) =>
      var s := NewState(c, c, p, LocalController(Pending)).(status := Waiting);
      var own := Vote(c, None);
      assert ([own] + [])[1..] == [];
      assert AddVotes(s, [own] + []) == AddVotes(AddVote(s, own), []);
      if c in p && p != {c} {
        assert {} + {c} == {c};
      }
  }

  lemma LocalInv(c: NodeId, id: XactId, data: seq<Byte>, e: Env)
    ensures
      var p := match RwSetFormat.ParticipantsOf(data) case None => {} case Some(q) => q;
      ActorInv(c, p, c, HandleLocal(FRESH, c, id, data, e).actor)
  {
    LocalHandled(c, id, data, e);
  }

  // ----- What handlers refuse ---------------------------------------------------------

  /** A server that is asked to prepare a transaction it does not take part in stops at
      once: it executes nothing, sends nothing, and reports no error. */
  lemma NotTakingPart(a: Actor, me: NodeId, id: XactId, from: NodeId, data: seq<Byte>, e: Env)
    requires RwSetFormat.ParticipantsOf(data).Some? && me !in RwSetFormat.ParticipantsOf(data).value
    ensures HandlePrepare(a, me, id, from, data, e) ==
            Handled(Actor(Some(from), a.xact, Finished, a.log), multiset{})
  {
  }

  /** What cannot be decoded is an error before anything else happens. */
  lemma Undecodable(a: Actor, me: NodeId, id: XactId, from: NodeId, data: seq<Byte>, e: Env)
    requires RwSetFormat.ParticipantsOf(data).None?
    ensures HandlePrepare(a, me, id, from, data, e) == Handled(Actor(Some(from), a.xact, Failed, a.log), multiset{})
    ensures HandleLocal(a, me, id, data, e) == Handled(Actor(Some(me), a.xact, Failed, a.log), multiset{})
  {
  }

  /** A second initialization takes an actor to the unreachable arm. */
  lemma SecondInitialization(a: Actor, me: NodeId, id: XactId, from: NodeId, data: seq<Byte>, e: Env)
    requires Live(a) && a.outcome.Running?
    requires RwSetFormat.ParticipantsOf(data).Some? && me in RwSetFormat.ParticipantsOf(data).value
    ensures HandlePrepare(a, me, id, from, data, e).actor.outcome.Unreachable?
    ensures HandleLocal(a, me, id, data, e).actor.outcome.Unreachable?
    ensures HandlePrepare(a, me, id, from, data, e).sent == HandleLocal(a, me, id, data, e).sent == multiset{}
  {
  }

  /** A vote for a transaction that is already being committed is an error; one by a node
      that does not take part, while votes are missing, changes nothing. */
  lemma VotesRefused(a: Actor, v: Vote, e: FinishEnv)
    requires Live(a) && a.outcome.Running?
    ensures a.xact.state.status.Commits() ==> HandleVote(a, v, e) == a.(outcome := Failed)
    ensures a.xact.state.status.Waiting? && v.from !in a.xact.state.participants ==> HandleVote(a, v, e) == a
  {
  }
}
