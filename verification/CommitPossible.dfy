/** Which states of a transaction can still lead to a commit, exactly: in particular,
    what a client that has been hung up on must still expect. */
module CommitPossible {
  import opened Messages
  import opened Transitions
  import opened Transaction
  import opened TransactionProofs
  import opened TransactionSafety
  import opened TransactionPaths
  import opened TransactionLiveness
  import opened CoordinatorFailure
  import opened ActorProofs
  import AC = AtomicCommit
  import Progress = TransactionProgress

  /** Participant `k` has committed or listens; no execution has failed; every surrogate
      has executed or is about to; and what the others have voted is known to `k` or on
      its way there. */
  ghost predicate CanCommit(t: Txn, k: NodeId) {
    && t.data.Some? && k in Participants(t)
    && (At(t, k).outcome.Running? || StatusAt(t, k).Committed?)
    && Ran(t, None) && PreparedOrDue(t)
    && forall j :: j in Surrogates(t) && j != k ==> HeardOrDue(t, j, k)
  }

  // ----- A commit needs all that ----------------------------------------------------------

  lemma CommittedCan(t: Txn, k: NodeId)
    requires Inv(t) && t.data.Some? && k in Participants(t) && StatusAt(t, k).Committed?
    ensures CanCommit(t, k)
  {
    forall j | ExecutedAt(t, j).Some?
      ensures ExecutedAt(t, j) == Some(None)
    {
      AC.OnlySurrogatesExecute(t, j);
      CommitNeedsAll(t, k, j);
    }
    forall j | j in Surrogates(t)
      ensures Live(At(t, j)) && (j != k ==> Heard(t, k, j))
    {
      CommitNeedsAll(t, k, j);
      assert NodeInv(t, j) && NodeInv(t, k);
    }
  }

  lemma RanBefore(t: Txn, t': Txn)
    requires Extends(t, t') && Ran(t', None)
    ensures Ran(t, None)
  {
    forall j | ExecutedAt(t, j).Some?
      ensures ExecutedAt(t, j).value == None
    {
      assert ExecutedAt(t', j) == ExecutedAt(t, j);
    }
  }

  /** What a delivery puts on the network comes from its addressee, who had no verdict. */
  lemma NewVotes(t: Txn, p: Packet, e: Env, q: Packet)
    requires Inv(t) && p in t.net && q in Apply(t, Deliver(p, e)).net
    ensures q in t.net || (q.msg.VoteMessage? && q.msg.from == p.to && VerdictAt(t, p.to).None?)
  {
    if q !in t.net {
      Progress.DeliverySends(t, p, e);
      assert NodeInv(t, p.to) && PacketInv(t, p);
      if p.msg.PrepareMessage? && At(t, p.to).outcome.Running? {
        PrepareGives(t, p, e);
      }
    }
  }

  lemma ListensBefore(t: Txn, p: Packet, e: Env, k: NodeId)
    requires p in t.net
    requires var a := At(Apply(t, Deliver(p, e)), k);
             a.outcome.Running? || (Live(a) && a.xact.state.status.Committed?)
    ensures At(t, k).outcome.Running? || StatusAt(t, k).Committed?
  {
    Progress.StaysStopped(At(t, p.to), p.to, t.id, Remote(p.msg), e);
  }

  lemma NotLiveBefore(t: Txn, p: Packet, e: Env, j: NodeId)
    requires p in t.net && !Live(At(Apply(t, Deliver(p, e)), j))
    ensures !Live(At(t, j))
  {
    StaysLive(At(t, p.to), p.to, t.id, p.msg, e);
  }

  lemma StaysLive(a: Actor, me: NodeId, id: XactId, msg: Message, e: Env)
    ensures Live(a) ==> Live(Receive(a, me, id, Remote(msg), e).actor)
  {
  }

  lemma LiveBefore(t: Txn, p: Packet, e: Env, j: NodeId)
    requires Inv(t) && t.data.Some? && p in t.net && Live(At(Apply(t, Deliver(p, e)), j))
    ensures Live(At(t, j)) || DueAt(t, j)
  {
    assert PacketInv(t, p);
    if !(p.to == j && p.msg.PrepareMessage?) {
      LivesOn(t, Deliver(p, e), j);
    }
  }

  lemma DueBefore(t: Txn, p: Packet, e: Env, j: NodeId)
    requires Inv(t) && t.data.Some? && p in t.net && !Live(At(Apply(t, Deliver(p, e)), j))
    requires At(t, j).outcome.Running? && PreparePacket(t, j) in Apply(t, Deliver(p, e)).net
    ensures DueAt(t, j)
  {
    NewVotes(t, p, e, PreparePacket(t, j));
  }

  lemma PreparedBefore(t: Txn, p: Packet, e: Env)
    requires Inv(t) && t.data.Some? && p in t.net
    requires var t' := Apply(t, Deliver(p, e)); t'.data.Some? && Extends(t, t') && PreparedOrDue(t')
    ensures PreparedOrDue(t)
  {
    var t' := Apply(t, Deliver(p, e));
    forall j | j in Surrogates(t)
      ensures Live(At(t, j)) || DueAt(t, j)
    {
      assert Live(At(t', j)) || DueAt(t', j);
      if Live(At(t', j)) {
        LiveBefore(t, p, e, j);
      } else {
        NotLiveBefore(t, p, e, j);
        ListensBefore(t, p, e, j);
        DueBefore(t, p, e, j);
      }
    }
  }

  lemma CountedBefore(t: Txn, t': Txn, p: Packet, e: Env, j: NodeId)
    requires Inv(t) && t.data.Some? && p in t.net && p.msg.PrepareMessage? && At(t, p.to).outcome.Running?
    requires t' == Apply(t, Deliver(p, e)) && j in Surrogates(t) && j != p.to && j in CountedAt(t', p.to)
    ensures Heard(t, p.to, j)
  {
    assert NodeInv(t, p.to) && PacketInv(t, p) && Unseen(t, p);
    PrepareGives(t, p, e);
    PreparedFrom(t, t', p.to, e.exec);
    assert Vote(j, None) in BufferedAt(t, p.to);
  }

  lemma VoteToldBefore(t: Txn, t': Txn, p: Packet, e: Env, j: NodeId)
    requires Inv(t) && t.data.Some? && p in t.net && p.msg.VoteMessage? && At(t, p.to).outcome.Running?
    requires t' == Apply(t, Deliver(p, e)) && Heard(t', p.to, j) && !StatusAt(t', p.to).RollsBack()
    ensures Heard(t, p.to, j) || p.msg.from == j
  {
    var k, v := p.to, Vote(p.msg.from, p.msg.reason);
    assert At(t', k) == HandleVote(At(t, k), v, e.finish);
    assert NodeInv(t, k);
    if Live(At(t, k)) {
      assert PacketInv(t, p) && Unseen(t, p);
      LiveVoteCounts(t.coordinator, Participants(t), k, At(t, k), v, e.finish);
    } else {
      BufferedVoteTold(t, t', k, v, j);
    }
  }

  lemma LiveVoteCounts(c: NodeId, participants: set<NodeId>, k: NodeId, a: Actor, v: Vote, e: FinishEnv)
    requires ActorInv(c, participants, k, a) && Live(a) && a.outcome.Running?
    requires v.from in participants && v.from != k && v.from !in a.xact.state.voted
    ensures var b := HandleVote(a, v, e); Live(b) && b.xact.state.voted <= a.xact.state.voted + {v.from}
  {
    CountVote(c, participants, k, a, v);
    var b := a.(xact := if a.xact.Local? then Local(AddVote(a.xact.state, v)) else Surrogate(AddVote(a.xact.state, v)));
    FinishKeeps(c, participants, k, b, e);
  }

  lemma BufferedVoteTold(t: Txn, t': Txn, k: NodeId, v: Vote, j: NodeId)
    requires !Live(At(t, k)) && !Live(At(t', k)) && BufferedAt(t', k) == BufferedAt(t, k) + [v] && Heard(t', k, j)
    ensures Heard(t, k, j) || v.from == j
  {
    var w :| w in BufferedAt(t', k) && w.from == j;
    assert w in BufferedAt(t, k) || w == v;
  }

  /** What `k` knows after a delivery it knew before, or the delivery told it. */
  lemma HeardBefore(t: Txn, p: Packet, e: Env, j: NodeId)
    requires Inv(t) && t.data.Some? && p in t.net && j in Surrogates(t) && j != p.to
    requires var t' := Apply(t, Deliver(p, e)); Inv(t') && Ran(t', None) && Heard(t', p.to, j)
    ensures Heard(t, p.to, j) || (p.msg.VoteMessage? && p.msg.from == j)
  {
    var k, t' := p.to, Apply(t, Deliver(p, e));
    if StatusAt(t', k).RollsBack() {
      RollbackProvenance(t', k);
    }
    if !At(t, k).outcome.Running? {
      assert At(t', k) == At(t, k);
    } else if p.msg.VoteMessage? {
      VoteToldBefore(t, t', p, e, j);
    } else {
      PrepareGives(t, p, e);
      assert Live(At(t', k));
      CountedBefore(t, t', p, e, j);
    }
  }

  lemma HeardOrDueBefore(t: Txn, p: Packet, e: Env, j: NodeId, k: NodeId)
    requires Inv(t) && t.data.Some? && p in t.net && j in Surrogates(t) && k in Participants(t) && j != k
    requires var t' := Apply(t, Deliver(p, e)); Inv(t') && Extends(t, t') && Ran(t', None) && HeardOrDue(t', j, k)
    ensures HeardOrDue(t, j, k)
  {
    var t' := Apply(t, Deliver(p, e));
    if VerdictAt(t, j).Some? {
      if Heard(t', k, j) {
        if p.to == k {
          HeardBefore(t, p, e, j);
          assert PacketInv(t, p);
        } else {
          assert At(t', k) == At(t, k);
        }
      } else {
        NewVotes(t, p, e, VotePacket(t', j, k));
      }
    }
  }

  lemma DeliveryCanBefore(t: Txn, p: Packet, e: Env, k: NodeId)
    requires Inv(t) && t.data.Some? && p in t.net && CanCommit(Apply(t, Deliver(p, e)), k)
    ensures CanCommit(t, k)
  {
    var t' := Apply(t, Deliver(p, e));
    StepKeeps(t, Deliver(p, e));
    AC.StepExtends(t, Deliver(p, e), p.to);
    RanBefore(t, t');
    ListensBefore(t, p, e, k);
    PreparedBefore(t, p, e);
    forall j | j in Surrogates(t) && j != k
      ensures HeardOrDue(t, j, k)
    {
      HeardOrDueBefore(t, p, e, j, k);
    }
  }

  /** Losing packets and stopping actors makes nothing possible. */
  lemma LessCanBefore(t: Txn, t': Txn, k: NodeId)
    requires t'.data == t.data && t'.coordinator == t.coordinator && t'.id == t.id && t'.net <= t.net
    requires forall j :: At(t', j) == At(t, j) || At(t', j) == At(t, j).(outcome := Cancelled)
    requires CanCommit(t', k)
    ensures CanCommit(t, k)
  {
    forall j | ExecutedAt(t, j).Some?
      ensures ExecutedAt(t, j).value == None
    {
      assert ExecutedAt(t', j) == ExecutedAt(t, j);
    }
    forall j | j in Surrogates(t)
      ensures Live(At(t, j)) || DueAt(t, j)
    {
      assert Live(At(t', j)) || DueAt(t', j);
    }
    forall j | j in Surrogates(t) && j != k
      ensures HeardOrDue(t, j, k)
    {
      assert HeardOrDue(t', j, k);
    }
  }

  lemma CanBefore(t: Txn, step: Step, k: NodeId)
    requires Inv(t) && t.data.Some? && Enabled(t, step) && CanCommit(Apply(t, step), k)
    ensures CanCommit(t, k)
  {
    match step
    case Deliver(p, e) => DeliveryCanBefore(t, p, e, k);
    case Lose(_) => LessCanBefore(t, Apply(t, step), k);
    case Stop(_) => LessCanBefore(t, Apply(t, step), k);
    case Begin(_, _) =>
  }

  // ----- and with all that there is a way ---------------------------------------------------

  lemma {:induction false} PathInv(ts: seq<Txn>, steps: seq<Step>, i: nat)
    requires IsPath(ts, steps) && Inv(ts[0]) && ts[0].data.Some? && i < |ts|
    ensures Inv(ts[i]) && ts[i].data == ts[0].data && ts[i].coordinator == ts[0].coordinator
  {
    if i > 0 {
      PathInv(ts, steps, i - 1);
      StepKeeps(ts[i - 1], steps[i - 1]);
    }
  }

  lemma {:induction false} CanAllAlong(ts: seq<Txn>, steps: seq<Step>, i: nat, k: NodeId)
    requires IsPath(ts, steps) && Inv(ts[0]) && ts[0].data.Some? && i < |ts| && CanCommit(ts[i], k)
    ensures CanCommit(ts[0], k)
  {
    if i > 0 {
      PathInv(ts, steps, i - 1);
      CanBefore(ts[i - 1], steps[i - 1], k);
      CanAllAlong(ts, steps, i - 1, k);
    }
  }

  /** A listening participant with nothing against it has somebody to listen to. */
  lemma ListensToOthers(t: Txn, k: NodeId)
    requires Inv(t) && t.data.Some? && k in Participants(t) && At(t, k).outcome.Running?
    ensures Surrogates(t) != {}
  {
    assert NodeInv(t, k);
    if k != t.coordinator {
      assert k in Surrogates(t);
    } else if Surrogates(t) == {} {
      HeardAllDecides(t, k);
    }
  }

  lemma CanIndeed(t: Txn, k: NodeId) returns (ts: seq<Txn>, steps: seq<Step>)
    requires Inv(t) && CanCommit(t, k)
    ensures IsPath(ts, steps) && ts[0] == t && StatusAt(ts[|steps|], k).Committed?
  {
    if StatusAt(t, k).Committed? {
      ts, steps := [t], [];
    } else {
      ListensToOthers(t, k);
      assert Clean(At(t, k));
      ts, steps := Completes(t, {k}, WORKS);
      EndIsAsRan(ts[|steps|], {k}, None);
    }
  }

  /** The transaction goes on from here in some way after which a participant has
      committed. */
  ghost predicate CommitsFrom(t: Txn, ts: seq<Txn>, steps: seq<Step>, k: NodeId) {
    IsPath(ts, steps) && ts[0] == t && k in Participants(t) && StatusAt(ts[|steps|], k).Committed?
  }

  /** From any reachable state on, whatever has gone wrong before, participant `k` has
      some way to commit exactly if it can in the above sense. */
  lemma CommitPossibleExactlyIf(t: Txn, k: NodeId)
    requires Inv(t) && t.data.Some?
    ensures (exists ts, steps :: CommitsFrom(t, ts, steps, k)) <==> CanCommit(t, k)
  {
    if CanCommit(t, k) {
      var ts, steps := CanIndeed(t, k);
      assert CommitsFrom(t, ts, steps, k);
    }
    if exists ts, steps :: CommitsFrom(t, ts, steps, k) {
      var ts, steps :| CommitsFrom(t, ts, steps, k);
      PathInv(ts, steps, |steps|);
      CommittedCan(ts[|steps|], k);
      CanAllAlong(ts, steps, |steps|, k);
    }
  }

  /** So the client that has been hung up on, at whatever time, can rely on nobody ever
      committing exactly if no surrogate can; the coordinator itself never will. */
  lemma HungUpWithoutCommitExactlyIf(t: Txn)
    requires Inv(t) && ClientSees(t) == HungUp
    ensures (forall ts, steps, k :: !CommitsFrom(t, ts, steps, k)) <==> forall k :: k in Surrogates(t) ==> !CanCommit(t, k)
  {
    ClientSeesEnd(t);
    if k :| k in Surrogates(t) && CanCommit(t, k) {
      var ts, steps := CanIndeed(t, k);
      assert CommitsFrom(t, ts, steps, k);
    } else {
      forall ts, steps, k
        ensures !CommitsFrom(t, ts, steps, k)
      {
        CommitPossibleExactlyIf(t, k);
      }
    }
  }
}
