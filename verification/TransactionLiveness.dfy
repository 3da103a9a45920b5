/** Runs without faults: nothing is lost, cancelled or refused, except that a
    surrogate's execution may fail. Such a run ends with every participant decided. The
    argument goes by what must go right for the sake of given nodes, and so serves runs
    with faults of others too. */
module TransactionLiveness {
  import opened Messages
  import opened Transitions
  import opened Transaction
  import opened TransactionProofs
  import opened TransactionSafety
  import opened ActorProofs
  import opened VoteCounting
  import opened PgCalls
  import AC = AtomicCommit
  import opened TransactionPaths
  import Progress = TransactionProgress
  import RwSetFormat

  /** Every finishing call works, */
  predicate PerfectFinish(f: FinishEnv) {
    f.receiverAlive && f.connect.Ok? && f.query.Ok? && f.command.Ok?
  }

  /** and every message gets through. */
  predicate Perfect(e: Env, peers: set<NodeId>) {
    BroadcastOk(peers, e) && PerfectFinish(e.finish)
  }

  /** The request names the coordinator and somebody else as participants. */
  predicate ProperRequest(c: NodeId, data: seq<Byte>) {
    match RwSetFormat.ParticipantsOf(data)
    case None => false
    case Some(p) => c in p && p != {c}
  }

  predicate FaultFree(t: Txn, step: Step) {
    match step
    case Begin(data, e) =>
      ProperRequest(t.coordinator, data) && Perfect(e, RwSetFormat.ParticipantsOf(data).value - {t.coordinator})
    case Deliver(p, e) => Perfect(e, Peers(Participants(t), p.to))
    case _ => false
  }

  /** The actor still listens or has finished its transaction. */
  predicate Clean(a: Actor) {
    a.outcome.Running? || (a.outcome.Finished? && Live(a) && a.xact.state.status.Terminal())
  }

  /** Node `k` has taken account of the vote of `j`. */
  ghost predicate Heard(t: Txn, k: NodeId, j: NodeId) {
    || j in CountedAt(t, k)
    || StatusAt(t, k).RollsBack()
    || exists v :: v in BufferedAt(t, k) && v.from == j
  }

  function PreparePacket(t: Txn, k: NodeId): Packet
    requires t.data.Some?
  {
    Packet(k, PrepareMessage(t.coordinator, t.id, t.data.value))
  }

  function VotePacket(t: Txn, j: NodeId, k: NodeId): Packet
    requires VerdictAt(t, j).Some?
  {
    Packet(k, VoteMessage(j, t.id, VerdictAt(t, j).value))
  }

  /** Every surrogate is prepared or about to be. */
  ghost predicate PreparedOrDue(t: Txn)
    requires t.data.Some?
  {
    forall k :: k in Surrogates(t) ==> Live(At(t, k)) || DueAt(t, k)
  }

  ghost predicate DueAt(t: Txn, k: NodeId)
    requires t.data.Some?
  {
    At(t, k).outcome.Running? && PreparePacket(t, k) in t.net
  }

  /** Every verdict is known to each other participant or on its way there. */
  ghost predicate HeardOrDue(t: Txn, j: NodeId, k: NodeId) {
    VerdictAt(t, j).Some? ==> Heard(t, k, j) || VotePacket(t, j, k) in t.net
  }

  /** How a transaction stands as long as nothing goes wrong for the nodes `ks`: not with
      them, and not with what others owe them. */
  ghost predicate HealthyFor(t: Txn, ks: set<NodeId>) {
    && t.data.Some? && Surrogates(t) != {} && ks <= Participants(t)
    && (forall k :: k in ks ==> Clean(At(t, k)))
    && PreparedOrDue(t)
    && (forall j, k :: j in Surrogates(t) && k in ks && j != k ==> HeardOrDue(t, j, k))
  }

  ghost predicate Healthy(t: Txn) {
    HealthyFor(t, Participants(t))
  }

  lemma FinishCleans(c: NodeId, participants: set<NodeId>, k: NodeId, a: Actor, e: FinishEnv)
    requires CoreInv(c, participants, k, a) && Ready(a)
    requires PerfectFinish(e)
    ensures Clean(Finish(a, e))
  {
  }

  /** An actor that does not listen any more has heard everybody. */
  lemma FinishedHasHeard(t: Txn, k: NodeId, j: NodeId)
    requires NodeInv(t, k) && Clean(At(t, k)) && !At(t, k).outcome.Running? && j in Participants(t)
    ensures Heard(t, k, j)
  {
  }

  // ----- A step keeps a run healthy -----------------------------------------------------

  /** What a delivery leaves to show. */
  lemma HealthyStep(t: Txn, t': Txn, p: Packet, ks: set<NodeId>)
    requires Inv(t) && HealthyFor(t, ks) && Extends(t, t') && OnlyAt(t, t', p.to) && p in t.net
    requires t.net - multiset{p} <= t'.net
    requires p.to in Surrogates(t) ==> ServesPrepare(t, t', p)
    requires p.to in ks ==>
               && Clean(At(t', p.to))
               && forall j :: Heard(t, p.to, j) || (p.msg.VoteMessage? && j == p.msg.from) ==> Heard(t', p.to, j)
    requires VerdictAt(t, p.to).None? && VerdictAt(t', p.to).Some? ==>
               forall k :: k in ks && k != p.to ==> VotePacket(t', p.to, k) in t'.net
    ensures HealthyFor(t', ks)
  {
    forall k | k in Surrogates(t')
      ensures Live(At(t', k)) || DueAt(t', k)
    {
      PreparedStays(t, t', p, ks, k);
    }
    forall j, k | j in Surrogates(t') && k in ks && j != k
      ensures HeardOrDue(t', j, k)
    {
      HeardStays(t, t', p, ks, j, k);
    }
    forall k | k in ks
      ensures Clean(At(t', k))
    {
      assert Clean(At(t, k));
    }
  }

  /** The delivery prepares its surrogate if that is what it is for, and otherwise leaves
      it prepared or listening as it was. */
  ghost predicate ServesPrepare(t: Txn, t': Txn, p: Packet) {
    && (Live(At(t, p.to)) || p.msg.PrepareMessage? ==> Live(At(t', p.to)))
    && (Live(At(t', p.to)) || At(t, p.to).outcome.Running? ==> Live(At(t', p.to)) || At(t', p.to).outcome.Running?)
  }

  lemma PreparedStays(t: Txn, t': Txn, p: Packet, ks: set<NodeId>, k: NodeId)
    requires Inv(t) && HealthyFor(t, ks) && Extends(t, t') && OnlyAt(t, t', p.to) && p in t.net
    requires t.net - multiset{p} <= t'.net && k in Surrogates(t)
    requires k == p.to ==> ServesPrepare(t, t', p)
    ensures Live(At(t', k)) || DueAt(t', k)
  {
    assert Live(At(t, k)) || DueAt(t, k);
    if PreparePacket(t, k) in t.net && PreparePacket(t, k) != p {
      assert PreparePacket(t, k) in t.net - multiset{p};
    }
  }

  lemma HeardStays(t: Txn, t': Txn, p: Packet, ks: set<NodeId>, j: NodeId, k: NodeId)
    requires Inv(t) && HealthyFor(t, ks) && Extends(t, t') && OnlyAt(t, t', p.to) && p in t.net
    requires t.net - multiset{p} <= t'.net
    requires j in Surrogates(t) && k in ks && j != k
    requires k == p.to && (Heard(t, k, j) || (p.msg.VoteMessage? && j == p.msg.from)) ==> Heard(t', k, j)
    requires j == p.to && VerdictAt(t, j).None? && VerdictAt(t', j).Some? ==> VotePacket(t', j, k) in t'.net
    ensures HeardOrDue(t', j, k)
  {
    assert HeardOrDue(t, j, k);
    if VerdictAt(t, j).Some? {
      if Heard(t, k, j) {
        assert k != p.to ==> At(t', k) == At(t, k);
      } else if VotePacket(t, j, k) != p {
        assert VotePacket(t, j, k) in t.net - multiset{p};
      }
    }
  }

  lemma VoteHealthy(t: Txn, p: Packet, e: Env, ks: set<NodeId>)
    requires Inv(t) && HealthyFor(t, ks) && p in t.net && p.msg.VoteMessage?
    requires p.to in ks ==> PerfectFinish(e.finish)
    ensures HealthyFor(Apply(t, Deliver(p, e)), ks)
  {
    var t' := Apply(t, Deliver(p, e));
    AC.StepExtends(t, Deliver(p, e), p.to);
    assert t'.net == t.net - multiset{p};
    VoteAtOther(t, t', p, e.finish);
    if p.to !in ks {
    } else if At(t, p.to).outcome.Running? {
      VoteHeard(t, t', p, ks, e.finish);
    } else {
      VoteDropped(t, t', p, ks);
    }
    HealthyStep(t, t', p, ks);
  }

  lemma VoteAtOther(t: Txn, t': Txn, p: Packet, e: FinishEnv)
    requires p.msg.VoteMessage?
    requires At(t', p.to) == At(t, p.to) || At(t', p.to) == HandleVote(At(t, p.to), Vote(p.msg.from, p.msg.reason), e)
    ensures VerdictAt(t', p.to) == VerdictAt(t, p.to) && ServesPrepare(t, t', p)
  {
  }

  lemma VoteDropped(t: Txn, t': Txn, p: Packet, ks: set<NodeId>)
    requires Inv(t) && HealthyFor(t, ks) && p.to in ks && p in t.net && p.msg.VoteMessage? && Extends(t, t')
    requires !At(t, p.to).outcome.Running? && At(t', p.to) == At(t, p.to)
    ensures Clean(At(t', p.to)) && VerdictAt(t', p.to) == VerdictAt(t, p.to)
    ensures forall j :: Heard(t, p.to, j) || j == p.msg.from ==> Heard(t', p.to, j)
  {
    assert NodeInv(t, p.to) && PacketInv(t, p);
    FinishedHasHeard(t, p.to, p.msg.from);
  }

  lemma VoteHeard(t: Txn, t': Txn, p: Packet, ks: set<NodeId>, e: FinishEnv)
    requires Inv(t) && HealthyFor(t, ks) && p.to in ks && p in t.net && p.msg.VoteMessage? && At(t, p.to).outcome.Running?
    requires PerfectFinish(e)
    requires At(t', p.to) == HandleVote(At(t, p.to), Vote(p.msg.from, p.msg.reason), e)
    ensures Clean(At(t', p.to)) && At(t', p.to).log == At(t, p.to).log
    ensures Live(At(t', p.to)) == Live(At(t, p.to))
    ensures forall j :: Heard(t, p.to, j) || j == p.msg.from ==> Heard(t', p.to, j)
  {
    var k, a, v := p.to, At(t, p.to), Vote(p.msg.from, p.msg.reason);
    assert NodeInv(t, k) && PacketInv(t, p) && Unseen(t, p);
    if Live(a) {
      CountVote(t.coordinator, Participants(t), k, a, v);
      var b := a.(xact := if a.xact.Local? then Local(AddVote(a.xact.state, v)) else Surrogate(AddVote(a.xact.state, v)));
      FinishKeeps(t.coordinator, Participants(t), k, b, e);
      FinishCleans(t.coordinator, Participants(t), k, b, e);
    } else {
      BufferHeard(t, t', k, v);
    }
  }

  lemma BufferHeard(t: Txn, t': Txn, k: NodeId, v: Vote)
    requires !Live(At(t, k)) && !Live(At(t', k)) && BufferedAt(t', k) == BufferedAt(t, k) + [v]
    ensures forall j :: Heard(t, k, j) || j == v.from ==> Heard(t', k, j)
  {
    assert v in BufferedAt(t', k);
    forall j | Heard(t, k, j)
      ensures Heard(t', k, j)
    {
      var w :| w in BufferedAt(t, k) && w.from == j;
      assert w in BufferedAt(t', k);
    }
  }

  /** What a delivery must meet with for the sake of the nodes `ks`: at one of them,
      finishing works, and a `Prepare` also gets its vote out; elsewhere, the vote
      reaches them. */
  predicate Suffices(t: Txn, p: Packet, e: Env, ks: set<NodeId>) {
    && (p.to in ks ==> PerfectFinish(e.finish))
    && (p.msg.PrepareMessage? ==>
          ks - {p.to} <= e.reached && (p.to in ks ==> BroadcastOk(Peers(Participants(t), p.to), e)))
  }

  lemma PrepareHealthy(t: Txn, p: Packet, e: Env, ks: set<NodeId>)
    requires Inv(t) && HealthyFor(t, ks) && p in t.net && p.msg.PrepareMessage? && Suffices(t, p, e, ks)
    ensures HealthyFor(Apply(t, Deliver(p, e)), ks)
  {
    var t' := Apply(t, Deliver(p, e));
    var k, a := p.to, At(t, p.to);
    AC.StepExtends(t, Deliver(p, e), k);
    assert NodeInv(t, k) && PacketInv(t, p) && Unseen(t, p);
    assert DueAt(t, k);
    EarlyVotesFit(t, k);
    PrepareHandled(a, t.coordinator, Participants(t), k, t.id, t.data.value, e);
    PrepareHeard(t, t', p, HandlePrepare(a, k, t.id, t.coordinator, t.data.value, e), e, ks);
    HealthyStep(t, t', p, ks);
  }

  lemma PrepareHeard(t: Txn, t': Txn, p: Packet, h: Handled, e: Env, ks: set<NodeId>)
    requires t.data.Some? && !Live(At(t, p.to)) && NodeInv(t, p.to) && p.to in Surrogates(t) && ks <= Participants(t)
    requires t' == Put(t.(net := t.net - multiset{p}), p.to, h)
    requires (p.to in ks ==> Perfect(e, Peers(Participants(t), p.to))) && ks - {p.to} <= e.reached
    requires var d := Decided(t.coordinator, Participants(t), p.to, BufferedAt(t, p.to), e.exec);
             && h.sent == Broadcast(Peers(Participants(t), p.to), e.reached, VoteMessage(p.to, t.id, d.log.verdict.value))
             && h.actor == (if BroadcastOk(Peers(Participants(t), p.to), e) then Finish(d, e.finish) else d.(outcome := Failed))
             && SameDecision(d, h.actor)
    ensures Live(At(t', p.to)) && VerdictAt(t', p.to).Some? && (p.to in ks ==> Clean(At(t', p.to)))
    ensures forall j :: Heard(t, p.to, j) ==> Heard(t', p.to, j)
    ensures forall k :: k in ks && k != p.to ==> VotePacket(t', p.to, k) in t'.net
  {
    var k := p.to;
    EarlyVotesFit(t, k);
    if k in ks {
      DecidedCleans(t.coordinator, Participants(t), k, BufferedAt(t, k), e);
    }
    assert At(t', k) == h.actor;
    EarlyVotesHeard(t, t', k, e.exec);
    VotesAreSent(t', k, h.sent, e.reached, ks);
  }

  lemma DecidedCleans(c: NodeId, participants: set<NodeId>, k: NodeId, votes: seq<Vote>, e: Env)
    requires SurrogateStart(Start(c, participants, k), votes) && Perfect(e, Peers(participants, k))
    ensures Clean(Finish(Decided(c, participants, k, votes, e.exec), e.finish))
  {
    DecidedInv(c, participants, k, votes, e.exec);
    FinishCleans(c, participants, k, Decided(c, participants, k, votes, e.exec), e.finish);
  }

  lemma EarlyVotesHeard(t: Txn, t': Txn, k: NodeId, e: ExecEnv)
    requires !Live(At(t, k)) && SameDecision(Decided(t.coordinator, Participants(t), k, BufferedAt(t, k), e), At(t', k))
    ensures forall j :: Heard(t, k, j) ==> Heard(t', k, j)
  {
    forall j | Heard(t, k, j)
      ensures Heard(t', k, j)
    {
      InitializedHeard(Start(t.coordinator, Participants(t), k), BufferedAt(t, k), e, j);
    }
  }

  lemma VotesAreSent(t: Txn, k: NodeId, sent: multiset<Packet>, reached: set<NodeId>, ks: set<NodeId>)
    requires VerdictAt(t, k).Some? && ks - {k} <= reached && ks <= Participants(t) && sent <= t.net
    requires sent == Broadcast(Peers(Participants(t), k), reached, VoteMessage(k, t.id, VerdictAt(t, k).value))
    ensures forall j :: j in ks && j != k ==> VotePacket(t, k, j) in t.net
  {
    forall j | j in ks && j != k
      ensures VotePacket(t, k, j) in t.net
    {
      assert j in Peers(Participants(t), k) && j in reached;
      assert VotePacket(t, k, j) in sent;
    }
  }

  /** An early vote is counted, unless the surrogate rolls back anyway. */
  lemma InitializedHeard(s: State, votes: seq<Vote>, e: ExecEnv, j: NodeId)
    requires exists v :: v in votes && v.from == j
    ensures j in Initialized(s, votes, e).voted || Initialized(s, votes, e).status.RollsBack()
  {
    if FailureOf(e).None? && FirstNo(votes) == |votes| {
      assert votes[..|votes|] == votes;
      assert j in Voters(votes);
    }
  }

  /** All that the coordinator owes the surrogates is its `Prepare`s, acknowledged or not. */
  lemma BeginHealthy(t: Txn, data: seq<Byte>, e: Env, ks: set<NodeId>)
    requires Inv(t) && t.data.None? && RwSetFormat.ParticipantsOf(data).Some?
    requires var p := RwSetFormat.ParticipantsOf(data).value;
             && p - {t.coordinator} != {} && p - {t.coordinator} <= e.reached && ks <= p
             && (t.coordinator in ks ==> e.acked)
    ensures HealthyFor(Apply(t, Begin(data, e)), ks)
  {
    var t', c := Apply(t, Begin(data, e)), t.coordinator;
    LocalHandled(c, t.id, data, e);
    assert t'.net == HandleLocal(FRESH, c, t.id, data, e).sent;
    BegunHealthy(t', e, ks);
  }

  lemma BegunHealthy(t: Txn, e: Env, ks: set<NodeId>)
    requires t.data.Some? && Surrogates(t) != {} && ks <= Participants(t)
    requires t.actors.Keys == {t.coordinator} && (t.coordinator in ks ==> Clean(At(t, t.coordinator)))
    requires At(t, t.coordinator).log == NO_LOG && Surrogates(t) <= e.reached
    requires t.net == Broadcast(Surrogates(t), e.reached, PrepareMessage(t.coordinator, t.id, t.data.value))
    ensures HealthyFor(t, ks)
  {
    assert forall k :: k != t.coordinator ==> At(t, k) == FRESH;
    forall k | k in Surrogates(t)
      ensures DueAt(t, k)
    {
      assert k in e.reached;
    }
  }

  lemma DeliveryHealthy(t: Txn, p: Packet, e: Env, ks: set<NodeId>)
    requires Inv(t) && p in t.net && HealthyFor(t, ks) && Suffices(t, p, e, ks)
    ensures HealthyFor(Apply(t, Deliver(p, e)), ks)
  {
    if p.msg.PrepareMessage? {
      PrepareHealthy(t, p, e, ks);
    } else {
      VoteHealthy(t, p, e, ks);
    }
  }

  lemma StepHealthy(t: Txn, step: Step)
    requires Inv(t) && Enabled(t, step) && FaultFree(t, step) && (t.data.Some? ==> Healthy(t))
    ensures Healthy(Apply(t, step))
  {
    match step
    case Begin(data, e) =>
      SomeSurrogate(t.coordinator, RwSetFormat.ParticipantsOf(data).value);
      BeginHealthy(t, data, e, RwSetFormat.ParticipantsOf(data).value);
    case Deliver(p, e) =>
      assert PacketInv(t, p);
      DeliveryHealthy(t, p, e, Participants(t));
  }

  // ----- The end of a fault-free run ------------------------------------------------------

  /** With nothing left to deliver, every surrogate has executed, */
  lemma AllPrepared(t: Txn)
    requires t.data.Some? && PreparedOrDue(t) && t.net == multiset{}
    ensures forall k :: k in Surrogates(t) ==> Live(At(t, k))
  {
    forall k | k in Surrogates(t)
      ensures Live(At(t, k))
    {
      assert !DueAt(t, k);
    }
  }

  /** and everybody for whom nothing went wrong has heard every surrogate. */
  lemma AllLive(t: Txn, ks: set<NodeId>, k: NodeId)
    requires Inv(t) && HealthyFor(t, ks) && t.net == multiset{} && k in ks + Surrogates(t)
    ensures Live(At(t, k))
  {
    AllPrepared(t);
    if k == t.coordinator {
      assert NodeInv(t, k) && Clean(At(t, k));
    }
  }

  lemma AllHeard(t: Txn, ks: set<NodeId>, k: NodeId)
    requires Inv(t) && HealthyFor(t, ks) && t.net == multiset{} && k in ks
    ensures forall j :: j in Surrogates(t) && j != k ==> Heard(t, k, j)
  {
    forall j | j in Surrogates(t) && j != k
      ensures Heard(t, k, j)
    {
      AllLive(t, ks, j);
      assert NodeInv(t, j) && HeardOrDue(t, j, k);
    }
  }

  lemma EverybodyCounted(t: Txn, k: NodeId)
    requires t.data.Some? && Live(At(t, k)) && StatusAt(t, k).Waiting?
    requires forall j :: j in Surrogates(t) && j != k ==> Heard(t, k, j)
    requires {k, t.coordinator} * Participants(t) <= CountedAt(t, k)
    ensures Participants(t) <= CountedAt(t, k)
  {
    forall j | j in Participants(t)
      ensures j in CountedAt(t, k)
    {
      if j != k && j != t.coordinator {
        assert Heard(t, k, j);
      }
    }
  }

  /** A live participant that has heard every other surrogate is not waiting. */
  lemma HeardAllDecides(t: Txn, k: NodeId)
    requires Inv(t) && t.data.Some? && k in Participants(t) && Live(At(t, k))
    requires forall j :: j in Surrogates(t) && j != k ==> Heard(t, k, j)
    ensures !StatusAt(t, k).Waiting?
  {
    assert NodeInv(t, k);
    if StatusAt(t, k).Waiting? {
      EverybodyCounted(t, k);
    }
  }

  /** When nothing is left to deliver, every node that met no fault has finished: with a
      commit if every surrogate's execution succeeded, and with a rollback otherwise. */
  lemma QuietMeansFinished(t: Txn, ks: set<NodeId>, k: NodeId)
    requires Inv(t) && HealthyFor(t, ks) && t.net == multiset{} && k in ks
    ensures StatusAt(t, k).Terminal()
    ensures StatusAt(t, k) == Committed <==> forall j :: j in Surrogates(t) ==> ExecutedAt(t, j) == Some(None)
  {
    AllLive(t, ks, k);
    AllHeard(t, ks, k);
    HeardAllDecides(t, k);
    assert NodeInv(t, k) && Clean(At(t, k));
    CommittedExactlyIf(t, k);
  }

  lemma CommittedExactlyIf(t: Txn, k: NodeId)
    requires Inv(t) && StatusAt(t, k).Terminal()
    ensures StatusAt(t, k) == Committed <==> forall j :: j in Surrogates(t) ==> ExecutedAt(t, j) == Some(None)
  {
    if StatusAt(t, k) == Committed {
      forall j | j in Surrogates(t)
        ensures ExecutedAt(t, j) == Some(None)
      {
        CommitNeedsAll(t, k, j);
      }
    } else {
      RollbackProvenance(t, k);
    }
  }

  ghost predicate IsFaultFree(ts: seq<Txn>, steps: seq<Step>) {
    IsRun(ts, steps) && forall i :: 0 <= i < |steps| ==> FaultFree(ts[i], steps[i])
  }

  lemma {:induction false} RunHealthy(ts: seq<Txn>, steps: seq<Step>, i: nat)
    requires IsFaultFree(ts, steps) && 0 < i < |ts|
    ensures Healthy(ts[i])
  {
    RunInv(ts, steps, i - 1);
    if i > 1 {
      RunHealthy(ts, steps, i - 1);
    }
    StepHealthy(ts[i - 1], steps[i - 1]);
  }

  /** The end of every fault-free run that delivered everything: all participants have
      decided alike, by whether all executions succeeded, and the client was told. */
  lemma FaultFreeRunDecides(ts: seq<Txn>, steps: seq<Step>)
    requires IsFaultFree(ts, steps) && |steps| > 0 && ts[|steps|].net == multiset{}
    ensures var t := ts[|steps|];
            && (forall k :: k in Participants(t) ==>
                  && StatusAt(t, k).Terminal()
                  && (StatusAt(t, k) == Committed <==> forall j :: j in Surrogates(t) ==> ExecutedAt(t, j) == Some(None)))
            && ReplyAt(t).Answered?
  {
    CoordinatorTakesPart(ts, steps, |steps|);
    RunInv(ts, steps, |steps|);
    RunHealthy(ts, steps, |steps|);
    HealthyEnd(ts[|steps|]);
  }

  lemma {:induction false} CoordinatorTakesPart(ts: seq<Txn>, steps: seq<Step>, i: nat)
    requires IsFaultFree(ts, steps) && 0 < i < |ts|
    ensures ts[i].data.Some? && ProperRequest(ts[i].coordinator, ts[i].data.value)
  {
    if i > 1 {
      CoordinatorTakesPart(ts, steps, i - 1);
    }
  }

  lemma HealthyEnd(t: Txn)
    requires Inv(t) && Healthy(t) && t.net == multiset{}
    ensures forall k :: k in Participants(t) ==>
              && StatusAt(t, k).Terminal()
              && (StatusAt(t, k) == Committed <==> forall j :: j in Surrogates(t) ==> ExecutedAt(t, j) == Some(None))
    ensures t.coordinator in Participants(t) ==> ReplyAt(t).Answered?
  {
    forall k | k in Participants(t)
      ensures StatusAt(t, k).Terminal()
      ensures StatusAt(t, k) == Committed <==> forall j :: j in Surrogates(t) ==> ExecutedAt(t, j) == Some(None)
    {
      QuietMeansFinished(t, Participants(t), k);
    }
    AnswerFollowsStatus(t);
  }

  // ----- Non-blocking -----------------------------------------------------------------------

  const PERFECT_FINISH := FinishEnv(true, Ok, Ok, Ok)

  /** A fault-free delivery in which the execution, if there is one, ends as given. */
  function Smooth(t: Txn, p: Packet, exec: ExecEnv): Step {
    Deliver(p, Env(exec, Peers(Participants(t), p.to), true, PERFECT_FINISH))
  }

  /** A fault-free piece of a run, in which only participants are told. */
  ghost predicate FaultFreePath(ts: seq<Txn>, steps: seq<Step>) {
    IsPath(ts, steps) && forall i :: 0 <= i < |steps| ==> FaultFree(ts[i], steps[i]) && ReachesOnly(ts[i], steps[i])
  }

  /** Every execution so far has ended that way: with a reason to roll back, or none. */
  ghost predicate Ran(t: Txn, result: Option<RollbackReason>) {
    forall k :: ExecutedAt(t, k).Some? ==> ExecutedAt(t, k).value == result
  }

  function SmoothWith(exec: ExecEnv): (Txn, Packet) -> Step {
    (t: Txn, p: Packet) => Smooth(t, p, exec)
  }

  ghost function HealthKept(ks: set<NodeId>, exec: ExecEnv, ran: bool): Txn -> bool {
    (t: Txn) => Inv(t) && HealthyFor(t, ks) && (ran ==> Ran(t, FailureOf(exec)))
  }

  lemma SmoothDeals(ks: set<NodeId>, exec: ExecEnv, ran: bool)
    ensures forall t, p :: Deals(t, p, HealthKept(ks, exec, ran), SmoothWith(exec))
  {
    forall t, p
      ensures Deals(t, p, HealthKept(ks, exec, ran), SmoothWith(exec))
    {
      if HealthKept(ks, exec, ran)(t) && p in t.net {
        SmoothStep(t, ks, p, exec);
      }
    }
  }

  lemma SmoothPath(ts: seq<Txn>, steps: seq<Step>, exec: ExecEnv)
    requires IsPath(ts, steps) && forall i :: 0 <= i < |steps| ==> Chosen(ts[i], steps[i], SmoothWith(exec))
    ensures FaultFreePath(ts, steps)
  {
    forall i | 0 <= i < |steps|
      ensures FaultFree(ts[i], steps[i]) && ReachesOnly(ts[i], steps[i])
    {
      var p := ChosenFor(ts[i], steps[i], SmoothWith(exec));
    }
  }

  /** A fault-free run never gets stuck: it can always be continued, with the executions
      to come ending as given, and the continuation shown is over after at most as many
      steps as the measure says. */
  lemma Completes(t: Txn, ks: set<NodeId>, exec: ExecEnv) returns (ts: seq<Txn>, steps: seq<Step>)
    requires Inv(t) && HealthyFor(t, ks)
    ensures FaultFreePath(ts, steps) && ts[0] == t && |steps| <= Progress.Measure(t)
    ensures ts[|steps|].net == multiset{} && Inv(ts[|steps|]) && HealthyFor(ts[|steps|], ks)
    ensures Ran(t, FailureOf(exec)) ==> Ran(ts[|steps|], FailureOf(exec))
  {
    var keeps := HealthKept(ks, exec, Ran(t, FailureOf(exec)));
    SmoothDeals(ks, exec, Ran(t, FailureOf(exec)));
    assert keeps(t);
    ts, steps := Drain(t, keeps, SmoothWith(exec));
    assert keeps(ts[|steps|]);
    SmoothPath(ts, steps, exec);
  }

  lemma SmoothStep(t: Txn, ks: set<NodeId>, p: Packet, exec: ExecEnv)
    requires Inv(t) && HealthyFor(t, ks) && p in t.net
    ensures var t' := Apply(t, Smooth(t, p, exec));
            && Inv(t') && HealthyFor(t', ks) && Progress.Measure(t') < Progress.Measure(t)
            && (Ran(t, FailureOf(exec)) ==> Ran(t', FailureOf(exec)))
  {
    var step := Smooth(t, p, exec);
    StepKeeps(t, step);
    DeliveryHealthy(t, p, step.env, ks);
    Progress.DeliveryShrinks(t, p, step.env);
    SmoothRan(t, p, exec);
  }

  lemma SmoothRan(t: Txn, p: Packet, exec: ExecEnv)
    requires p in t.net
    ensures Ran(t, FailureOf(exec)) ==> Ran(Apply(t, Smooth(t, p, exec)), FailureOf(exec))
  {
    ExecutedAsGiven(At(t, p.to), p.to, t.id, Remote(p.msg), Smooth(t, p, exec).env);
    RanStays(t, Apply(t, Smooth(t, p, exec)), p.to, FailureOf(exec));
  }

  /** A handler records an execution only for an actor that had none, and then what the
      environment made of it. */
  lemma ExecutedAsGiven(a: Actor, me: NodeId, id: XactId, input: Input, e: Env)
    ensures var b := Receive(a, me, id, input, e).actor;
            b.log == a.log || b.log.executed == Some(FailureOf(e.exec))
  {
    ExecuteByCalls(PgOf(a.xact), e.exec);
  }

  lemma RanStays(t: Txn, t': Txn, k: NodeId, result: Option<RollbackReason>)
    requires OnlyAt(t, t', k)
    requires ExecutedAt(t', k) == ExecutedAt(t, k) || ExecutedAt(t', k) == Some(result)
    ensures Ran(t, result) ==> Ran(t', result)
  {
    assert forall j :: j != k ==> ExecutedAt(t', j) == ExecutedAt(t, j);
  }

  /** Both outcomes can be had for every proper request: there is a fault-free run that
      ends with a commit at every participant if the calls made by the executions work,
      and otherwise with a rollback at every participant for the reason of the first call
      that does not. */
  lemma EveryRequestCanEnd(id: XactId, c: NodeId, data: seq<Byte>, exec: ExecEnv) returns (ts: seq<Txn>, steps: seq<Step>)
    requires ProperRequest(c, data)
    ensures IsFaultFree(ts, steps) && RunWithin(ts, steps) && ts[0] == Idle(id, c) && ts[|steps|].data == Some(data)
    ensures forall k :: k in RwSetFormat.ParticipantsOf(data).value ==> EndsBy(StatusAt(ts[|steps|], k), exec)
  {
    var idle := Idle(id, c);
    var begin := Begin(data, Env(exec, RwSetFormat.ParticipantsOf(data).value - {c}, true, PERFECT_FINISH));
    Begun(idle, begin, exec);
    var ts', steps' := Completes(Apply(idle, begin), RwSetFormat.ParticipantsOf(data).value, exec);
    FaultFreeFrom(idle, begin, ts', steps');
    ts, steps := [idle] + ts', [begin] + steps';
    EndsAsRan(ts, steps, FailureOf(exec), data);
    ExecuteByCalls(NO_XACT, exec);
  }

  /** The status that the calls of all executions lead to, if they end alike. */
  predicate EndsBy(status: Status, exec: ExecEnv) {
    if exec.connect.Ok? && exec.start.Ok? && exec.validate.Ok? && exec.prepare.Ok? then status == Committed
    else status.Rollbacked? && Some(status.info.reason) == FailureOf(exec)
  }

  lemma FaultFreeFrom(t: Txn, begin: Step, ts: seq<Txn>, steps: seq<Step>)
    requires t == Idle(t.id, t.coordinator) && Enabled(t, begin) && FaultFree(t, begin) && ReachesOnly(t, begin)
    requires FaultFreePath(ts, steps) && ts[0] == Apply(t, begin)
    ensures IsFaultFree([t] + ts, [begin] + steps) && RunWithin([t] + ts, [begin] + steps)
  {
    RunFrom(t, begin, ts, steps, (u: Txn, step: Step) => FaultFree(u, step) && ReachesOnly(u, step));
  }

  lemma Begun(t: Txn, begin: Step, exec: ExecEnv)
    requires Inv(t) && t.data.None? && begin.Begin? && FaultFree(t, begin)
    ensures var t' := Apply(t, begin);
            && Inv(t') && HealthyFor(t', RwSetFormat.ParticipantsOf(begin.data).value) && Ran(t', FailureOf(exec))
            && t'.data == Some(begin.data) && Progress.Placed(t')
  {
    var p := RwSetFormat.ParticipantsOf(begin.data).value;
    StepKeeps(t, begin);
    SomeSurrogate(t.coordinator, p);
    BeginHealthy(t, begin.data, begin.env, p);
    BegunRan(t, begin, exec);
  }

  lemma BegunRan(t: Txn, begin: Step, exec: ExecEnv)
    requires Inv(t) && t.data.None? && begin.Begin?
    ensures var t' := Apply(t, begin);
            Ran(t', FailureOf(exec)) && t'.data == Some(begin.data) && Progress.Placed(t')
  {
    AC.BegunCoordinator(t, begin.data, begin.env);
    Progress.BeginMeasure(t, begin.data, begin.env);
  }

  lemma EndsAsRan(ts: seq<Txn>, steps: seq<Step>, result: Option<RollbackReason>, data: seq<Byte>)
    requires IsRun(ts, steps) && |steps| > 0 && ts[1].data == Some(data) && Progress.Placed(ts[1])
    requires ts[|steps|].net == multiset{} && HealthyFor(ts[|steps|], Participants(ts[1])) && Ran(ts[|steps|], result)
    ensures ts[|steps|].data == Some(data)
    ensures forall k :: k in Participants(ts[|steps|]) ==>
              EndsWith(StatusAt(ts[|steps|], k), result)
  {
    Progress.RunDescends(ts, steps, 1, |steps|);
    RunInv(ts, steps, |steps|);
    EndIsAsRan(ts[|steps|], Participants(ts[|steps|]), result);
  }

  predicate EndsWith(status: Status, result: Option<RollbackReason>) {
    if result.None? then status == Committed else status.Rollbacked? && Some(status.info.reason) == result
  }

  lemma EndIsAsRan(t: Txn, ks: set<NodeId>, result: Option<RollbackReason>)
    requires Inv(t) && HealthyFor(t, ks) && t.net == multiset{} && Ran(t, result)
    ensures forall k :: k in ks ==> EndsWith(StatusAt(t, k), result)
  {
    forall k | k in ks
      ensures StatusAt(t, k).Terminal()
      ensures EndsWith(StatusAt(t, k), result)
    {
      QuietMeansFinished(t, ks, k);
      AllExecuted(t, ks, result);
      if StatusAt(t, k).Rollbacked? {
        RollbackProvenance(t, k);
      }
    }
  }

  lemma AllExecuted(t: Txn, ks: set<NodeId>, result: Option<RollbackReason>)
    requires Inv(t) && HealthyFor(t, ks) && t.net == multiset{} && Ran(t, result)
    ensures (forall j :: j in Surrogates(t) ==> ExecutedAt(t, j) == Some(None)) <==> result.None?
  {
    forall j | j in Surrogates(t)
      ensures ExecutedAt(t, j) == Some(result)
    {
      AllLive(t, ks, j);
      assert NodeInv(t, j);
    }
    var j :| j in Surrogates(t);
    assert ExecutedAt(t, j) == Some(result);
  }

  lemma SomeSurrogate(c: NodeId, participants: set<NodeId>)
    requires c in participants && participants != {c}
    ensures participants - {c} != {}
  {
    assert participants == participants - {c} + {c};
  }
}
