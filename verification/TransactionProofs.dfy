/** Every step of a transaction keeps the invariant of Transaction. */
module TransactionProofs {
  import opened Messages
  import opened Transitions
  import opened Transaction
  import opened VoteCounting
  import opened ActorProofs

  /** Later: what is recorded about executions and verdicts has not changed. */
  ghost predicate Extends(t: Txn, t': Txn) {
    && t'.id == t.id && t'.coordinator == t.coordinator && t'.data == t.data
    && (forall j {:trigger VerdictAt(t, j)} {:trigger VerdictAt(t', j)} ::
          VerdictAt(t, j).Some? ==> VerdictAt(t', j) == VerdictAt(t, j))
    && (forall j {:trigger ExecutedAt(t, j)} {:trigger ExecutedAt(t', j)} ::
          ExecutedAt(t, j).Some? ==> ExecutedAt(t', j) == ExecutedAt(t, j))
  }

  /** Only the actor of node `k` may have changed. */
  ghost predicate OnlyAt(t: Txn, t': Txn, k: NodeId) {
    forall j :: j != k ==> At(t', j) == At(t, j)
  }

  lemma AuthenticStays(t: Txn, t': Txn, v: Vote)
    requires Extends(t, t') && Authentic(t, v)
    ensures Authentic(t', v)
  {
  }

  lemma GroundedStays(t: Txn, t': Txn, reason: RollbackReason)
    requires Extends(t, t') && Grounded(t, reason)
    ensures Grounded(t', reason)
  {
    var m :| m in Surrogates(t) && ExecutedAt(t, m) == Some(Some(reason));
    assert m in Surrogates(t') && ExecutedAt(t', m) == Some(Some(reason));
  }

  /** What is known of a node whose actor did not change stays known. */
  lemma NodeStays(t: Txn, t': Txn, k: NodeId)
    requires Extends(t, t') && At(t', k) == At(t, k) && NodeInv(t, k)
    ensures NodeInv(t', k)
  {
    forall j | j in CountedAt(t', k) && j != k && j != t.coordinator
      ensures Authentic(t', Vote(j, None))
    {
      AuthenticStays(t, t', Vote(j, None));
    }
    GroundsStay(t, t', k);
    BufferStays(t, t', k);
  }

  lemma GroundsStay(t: Txn, t': Txn, k: NodeId)
    requires Extends(t, t') && At(t', k) == At(t, k) && GroundsInv(t, k)
    ensures GroundsInv(t', k)
  {
    if StatusAt(t, k).RollsBack() {
      GroundedStays(t, t', StatusAt(t, k).info.reason);
    }
    if VerdictAt(t, k).Some? && VerdictAt(t, k).value.Some? {
      GroundedStays(t, t', VerdictAt(t, k).value.value);
    }
  }

  lemma BufferStays(t: Txn, t': Txn, k: NodeId)
    requires Extends(t, t') && BufferedAt(t', k) == BufferedAt(t, k) && BufferInv(t, k)
    ensures BufferInv(t', k)
  {
    var votes := BufferedAt(t, k);
    forall i | 0 <= i < |votes|
      ensures votes[i].from != k && Authentic(t', votes[i])
    {
      AuthenticStays(t, t', votes[i]);
    }
  }

  lemma PacketStays(t: Txn, t': Txn, p: Packet)
    requires Extends(t, t') && PacketInv(t, p)
    ensures PacketInv(t', p)
  {
  }

  /** The invariant after a step that changed at most the actor of `k`. */
  lemma StepAt(t: Txn, t': Txn, k: NodeId)
    requires t.data.Some? && Inv(t)
    requires Extends(t, t') && OnlyAt(t, t', k) && t.coordinator in t'.actors
    requires NodeInv(t', k) && SentInv(t') && NetInv(t')
    ensures Inv(t')
  {
    forall j
      ensures NodeInv(t', j)
    {
      if j != k {
        NodeStays(t, t', j);
      }
    }
  }

  // ----- Losing a packet, cancelling an actor ---------------------------------------

  /** Nothing was sent, and only packets to `k` can be affected by what `k` did. */
  lemma QuietNet(t: Txn, t': Txn, k: NodeId)
    requires t.data.Some? && Inv(t) && Extends(t, t') && OnlyAt(t, t', k)
    requires t'.sent == t.sent && t'.net <= t.net
    requires forall q :: q in t'.net && q.to == k ==> Unseen(t', q)
    ensures SentInv(t') && NetInv(t')
  {
    forall q | q in t'.sent
      ensures PacketInv(t', q)
    {
      PacketStays(t, t', q);
    }
    forall q | q in t'.net
      ensures Unseen(t', q)
    {
      assert q in t.net && Unseen(t, q);
    }
  }

  /** The actor of `k` at most changed how its loop stands. */
  lemma QuietStep(t: Txn, t': Txn, k: NodeId)
    requires t.data.Some? && Inv(t) && OnlyAt(t, t', k) && t.coordinator in t'.actors
    requires t'.id == t.id && t'.coordinator == t.coordinator && t'.data == t.data
    requires At(t', k) == At(t, k) || At(t', k) == At(t, k).(outcome := Cancelled)
    requires t'.sent == t.sent && t'.net <= t.net
    ensures Inv(t')
  {
    assert Extends(t, t');
    assert NodeInv(t, k);
    StoppedNode(t, t', k);
    forall q | q in t'.net && q.to == k
      ensures Unseen(t', q)
    {
      assert q in t.net && Unseen(t, q);
    }
    QuietNet(t, t', k);
    StepAt(t, t', k);
  }

  lemma StoppedNode(t: Txn, t': Txn, k: NodeId)
    requires NodeInv(t, k) && Extends(t, t')
    requires At(t', k) == At(t, k) || At(t', k) == At(t, k).(outcome := Cancelled)
    ensures NodeInv(t', k)
  {
    forall j | j in CountedAt(t', k) && j != k && j != t.coordinator
      ensures Authentic(t', Vote(j, None))
    {
      AuthenticStays(t, t', Vote(j, None));
    }
    BufferStays(t, t', k);
    if StatusAt(t, k).RollsBack() {
      GroundedStays(t, t', StatusAt(t, k).info.reason);
    }
    if VerdictAt(t, k).Some? && VerdictAt(t, k).value.Some? {
      GroundedStays(t, t', VerdictAt(t, k).value.value);
    }
  }

  lemma LoseKeeps(t: Txn, p: Packet)
    requires Inv(t) && Enabled(t, Lose(p))
    ensures Inv(Apply(t, Lose(p)))
  {
    QuietStep(t, Apply(t, Lose(p)), p.to);
  }

  lemma StopKeeps(t: Txn, k: NodeId)
    requires Inv(t) && Enabled(t, Stop(k))
    ensures Inv(Apply(t, Stop(k)))
  {
    QuietStep(t, Apply(t, Stop(k)), k);
  }

  // ----- Delivering a vote -----------------------------------------------------------

  lemma DeliverVoteKeeps(t: Txn, p: Packet, e: Env)
    requires Inv(t) && p in t.net && p.msg.VoteMessage?
    ensures Inv(Apply(t, Deliver(p, e)))
  {
    var t' := Apply(t, Deliver(p, e));
    var k, a := p.to, At(t, p.to);
    assert t'.sent == t.sent && t'.net == t.net - multiset{p};
    if a.outcome.Running? {
      assert At(t', k) == HandleVote(a, Vote(p.msg.from, p.msg.reason), e.finish);
      VoteTaken(t, t', p, e.finish);
    } else {
      QuietStep(t, t', k);
    }
  }

  lemma VoteTaken(t: Txn, t': Txn, p: Packet, e: FinishEnv)
    requires t.data.Some? && Inv(t) && p in t.net && p.msg.VoteMessage? && At(t, p.to).outcome.Running?
    requires t'.id == t.id && t'.coordinator == t.coordinator && t'.data == t.data
    requires t'.sent == t.sent && t'.net == t.net - multiset{p} && t.coordinator in t'.actors
    requires OnlyAt(t, t', p.to)
    requires At(t', p.to) == HandleVote(At(t, p.to), Vote(p.msg.from, p.msg.reason), e)
    ensures Inv(t')
  {
    var k, v := p.to, Vote(p.msg.from, p.msg.reason);
    assert NodeInv(t, k) && PacketInv(t, p) && Unseen(t, p);
    if Live(At(t, k)) {
      assert NodeInv(t, v.from);
      VoteCounted(t, t', k, v, e);
    } else {
      VoteBuffered(t, t', k, v, e);
    }
    VoteSeenOnce(t, t', p);
    QuietNet(t, t', k);
    StepAt(t, t', k);
  }

  /** A vote arriving at a live actor. */
  lemma VoteCounted(t: Txn, t': Txn, k: NodeId, v: Vote, e: FinishEnv)
    requires Authentic(t, v) && v.from != k && v.from !in CountedAt(t, k) && GroundsInv(t, v.from)
    requires NodeInv(t, k) && Live(At(t, k)) && At(t, k).outcome.Running?
    requires t'.id == t.id && t'.coordinator == t.coordinator && t'.data == t.data
    requires OnlyAt(t, t', k) && At(t', k) == HandleVote(At(t, k), v, e)
    ensures Extends(t, t') && NodeInv(t', k)
    ensures CountedAt(t', k) <= CountedAt(t, k) + {v.from} && Live(At(t', k))
  {
    var a := At(t, k);
    CountVote(t.coordinator, Participants(t), k, a, v);
    var b := a.(xact := if a.xact.Local? then Local(AddVote(a.xact.state, v)) else Surrogate(AddVote(a.xact.state, v)));
    FinishKeeps(t.coordinator, Participants(t), k, b, e);
    assert At(t', k) == Finish(b, e);
    assert Extends(t, t');
    CountedVotesInv(t, t', k, v);
    CountedGrounds(t, t', k, v);
  }

  lemma CountedVotesInv(t: Txn, t': Txn, k: NodeId, v: Vote)
    requires Extends(t, t') && Authentic(t, v) && VotesInv(t, k) && Live(At(t, k)) && Live(At(t', k))
    requires CountedAt(t', k) <= CountedAt(t, k) + (if v.reason.None? then {v.from} else {})
    requires StatusAt(t', k).RollsBack() ==>
               v.reason.Some? && StatusAt(t', k).info == RollbackInfo(v.from, v.reason.value)
    ensures VotesInv(t', k)
  {
    AuthenticStays(t, t', v);
    forall j | j in CountedAt(t', k) && j != k && j != t.coordinator
      ensures Authentic(t', Vote(j, None))
    {
      if j in CountedAt(t, k) {
        AuthenticStays(t, t', Vote(j, None));
      } else {
        assert v == Vote(j, None);
      }
    }
  }

  lemma CountedGrounds(t: Txn, t': Txn, k: NodeId, v: Vote)
    requires Extends(t, t') && Authentic(t, v) && GroundsInv(t, v.from) && GroundsInv(t, k)
    requires At(t', k).log == At(t, k).log
    requires StatusAt(t', k).RollsBack() ==>
               v.reason.Some? && StatusAt(t', k).info == RollbackInfo(v.from, v.reason.value)
    ensures GroundsInv(t', k)
  {
    if StatusAt(t', k).RollsBack() {
      GroundedStays(t, t', v.reason.value);
    }
    if VerdictAt(t, k).Some? && VerdictAt(t, k).value.Some? {
      GroundedStays(t, t', VerdictAt(t, k).value.value);
    }
  }

  /** A vote arriving before `Prepare`. */
  lemma VoteBuffered(t: Txn, t': Txn, k: NodeId, v: Vote, e: FinishEnv)
    requires Authentic(t, v) && v.from != k && (forall w :: w in BufferedAt(t, k) ==> w.from != v.from)
    requires NodeInv(t, k) && !Live(At(t, k)) && At(t, k).outcome.Running?
    requires t'.id == t.id && t'.coordinator == t.coordinator && t'.data == t.data
    requires OnlyAt(t, t', k) && At(t', k) == HandleVote(At(t, k), v, e)
    ensures Extends(t, t') && NodeInv(t', k)
    ensures BufferedAt(t', k) == BufferedAt(t, k) + [v] && !Live(At(t', k))
  {
    assert Extends(t, t');
    var before, after := BufferedAt(t, k), BufferedAt(t', k);
    forall i | 0 <= i < |after|
      ensures after[i].from != k && Authentic(t', after[i])
    {
      AuthenticStays(t, t', after[i]);
    }
    forall i, j | 0 <= i < j < |after|
      ensures after[i].from != after[j].from
    {
      assert before[i] in before;
    }
  }

  /** Two votes of one node in flight to one node are the same packet. */
  lemma SameVote(t: Txn, p: Packet, q: Packet)
    requires PacketInv(t, p) && PacketInv(t, q)
    requires p.msg.VoteMessage? && q.msg.VoteMessage?
    requires p.to == q.to && p.msg.from == q.msg.from
    ensures p == q
  {
  }

  lemma VoteSeenOnce(t: Txn, t': Txn, p: Packet)
    requires t.data.Some? && Inv(t) && p in t.net && p.msg.VoteMessage?
    requires t'.net == t.net - multiset{p}
    requires Live(At(t', p.to)) == Live(At(t, p.to))
    requires CountedAt(t', p.to) <= CountedAt(t, p.to) + {p.msg.from}
    requires forall w :: w in BufferedAt(t', p.to) ==> w in BufferedAt(t, p.to) || w.from == p.msg.from
    ensures forall q :: q in t'.net && q.to == p.to ==> Unseen(t', q)
  {
    assert t.net[p] <= 1;
    forall q | q in t'.net && q.to == p.to
      ensures Unseen(t', q)
    {
      assert q in t.net && q != p && Unseen(t, q);
      if q.msg.VoteMessage? && q.msg.from == p.msg.from {
        SameVote(t, p, q);
      }
    }
  }

  // ----- Delivering Prepare ----------------------------------------------------------

  lemma DeliverPrepareKeeps(t: Txn, p: Packet, e: Env)
    requires Inv(t) && p in t.net && p.msg.PrepareMessage?
    ensures Inv(Apply(t, Deliver(p, e)))
  {
    var t' := Apply(t, Deliver(p, e));
    var k, a := p.to, At(t, p.to);
    if a.outcome.Running? {
      assert NodeInv(t, k) && PacketInv(t, p) && Unseen(t, p);
      var h := HandlePrepare(a, k, t.id, t.coordinator, t.data.value, e);
      assert t' == Put(t.(net := t.net - multiset{p}), k, h);
      PrepareTaken(t, t', p, e);
    } else {
      assert t.sent + multiset{} == t.sent;
      QuietStep(t, t', k);
    }
  }

  /** The early votes of node `k` are fit for initializing it. */
  lemma EarlyVotesFit(t: Txn, k: NodeId)
    requires NodeInv(t, k) && !Live(At(t, k)) && k in Surrogates(t)
    ensures SurrogateStart(Start(t.coordinator, Participants(t), k), At(t, k).xact.votes)
  {
    var votes := BufferedAt(t, k);
    forall i | 0 <= i < |votes|
      ensures votes[i].from in Participants(t) && votes[i].from != k && votes[i].from != t.coordinator
    {
      assert Authentic(t, votes[i]);
    }
  }

  lemma PrepareTaken(t: Txn, t': Txn, p: Packet, e: Env)
    requires t.data.Some? && Inv(t) && p in t.net && p.msg.PrepareMessage? && At(t, p.to).outcome.Running?
    requires t' == Put(t.(net := t.net - multiset{p}), p.to,
                       HandlePrepare(At(t, p.to), p.to, t.id, t.coordinator, t.data.value, e))
    ensures Inv(t')
  {
    var k, a, c, participants := p.to, At(t, p.to), t.coordinator, Participants(t);
    assert NodeInv(t, k) && PacketInv(t, p) && Unseen(t, p);
    EarlyVotesFit(t, k);
    PrepareHandled(a, c, participants, k, t.id, t.data.value, e);
    PrepareRecorded(t, t', p, HandlePrepare(a, k, t.id, c, t.data.value, e), e);
  }

  lemma PrepareRecorded(t: Txn, t': Txn, p: Packet, h: Handled, e: Env)
    requires t.data.Some? && Inv(t) && p in t.net && p.msg.PrepareMessage?
    requires !Live(At(t, p.to)) && p.to in Surrogates(t)
    requires t' == Put(t.(net := t.net - multiset{p}), p.to, h)
    requires var d := Decided(t.coordinator, Participants(t), p.to, BufferedAt(t, p.to), e.exec);
             && h.sent == Broadcast(Peers(Participants(t), p.to), e.reached, VoteMessage(p.to, t.id, d.log.verdict.value))
             && SameDecision(d, h.actor)
    requires ActorInv(t.coordinator, Participants(t), p.to, h.actor)
    ensures Inv(t')
  {
    var k := p.to;
    assert At(t', k) == h.actor;
    PreparedNode(t, t', k, e.exec);
    PreparedFrom(t, t', k, e.exec);
    PreparedPackets(t, t', p, VerdictAt(t', k).value, e);
    StepAt(t, t', k);
  }

  /** What the initialization of `k` counted or relays was in its buffer. */
  lemma PreparedFrom(t: Txn, t': Txn, k: NodeId, e: ExecEnv)
    requires NodeInv(t, k) && !Live(At(t, k)) && k in Surrogates(t)
    requires SameDecision(Decided(t.coordinator, Participants(t), k, BufferedAt(t, k), e), At(t', k))
    ensures forall j :: j in CountedAt(t', k) && j != k && j != t.coordinator ==> Vote(j, None) in BufferedAt(t, k)
    ensures ExecutedAt(t', k).Some? && VerdictAt(t', k) == Some(VerdictOf(StatusAt(t', k)))
    ensures StatusAt(t', k).RollsBack() ==>
              if ExecutedAt(t', k).value.Some?
              then StatusAt(t', k).info == RollbackInfo(k, ExecutedAt(t', k).value.value)
              else Vote(StatusAt(t', k).info.origin, Some(StatusAt(t', k).info.reason)) in BufferedAt(t, k)
  {
    EarlyVotesFit(t, k);
    InitializedFrom(Start(t.coordinator, Participants(t), k), BufferedAt(t, k), e);
  }

  lemma PreparedNode(t: Txn, t': Txn, k: NodeId, e: ExecEnv)
    requires t.data.Some? && Inv(t) && !Live(At(t, k)) && k in Surrogates(t)
    requires t'.id == t.id && t'.coordinator == t.coordinator && t'.data == t.data && OnlyAt(t, t', k)
    requires SameDecision(Decided(t.coordinator, Participants(t), k, BufferedAt(t, k), e), At(t', k))
    requires ActorInv(t.coordinator, Participants(t), k, At(t', k))
    ensures Extends(t, t') && NodeInv(t', k)
  {
    assert NodeInv(t, k);
    assert Extends(t, t');
    PreparedFrom(t, t', k, e);
    forall j | j in CountedAt(t', k) && j != k && j != t.coordinator
      ensures Authentic(t', Vote(j, None))
    {
      BufferedAuthentic(t, t', k, Vote(j, None));
    }
    if StatusAt(t', k).RollsBack() {
      PreparedGrounds(t, t', k);
    }
  }

  lemma BufferedAuthentic(t: Txn, t': Txn, k: NodeId, v: Vote)
    requires BufferInv(t, k) && v in BufferedAt(t, k) && Extends(t, t')
    ensures Authentic(t, v) && Authentic(t', v) && v.from != k
  {
    AuthenticStays(t, t', v);
  }

  lemma PreparedGrounds(t: Txn, t': Txn, k: NodeId)
    requires t.data.Some? && Inv(t) && Extends(t, t') && k in Surrogates(t) && ExecutedAt(t', k).Some?
    requires StatusAt(t', k).RollsBack()
    requires if ExecutedAt(t', k).value.Some?
             then StatusAt(t', k).info == RollbackInfo(k, ExecutedAt(t', k).value.value)
             else Vote(StatusAt(t', k).info.origin, Some(StatusAt(t', k).info.reason)) in BufferedAt(t, k)
    ensures Grounded(t', StatusAt(t', k).info.reason)
    ensures StatusAt(t', k).info.origin != k ==>
              Authentic(t', Vote(StatusAt(t', k).info.origin, Some(StatusAt(t', k).info.reason)))
  {
    var info := StatusAt(t', k).info;
    if ExecutedAt(t', k).value.Some? {
      assert k in Surrogates(t') && ExecutedAt(t', k) == Some(Some(info.reason));
    } else {
      assert NodeInv(t, k) && NodeInv(t, info.origin);
      BufferedAuthentic(t, t', k, Vote(info.origin, Some(info.reason)));
      GroundedStays(t, t', info.reason);
    }
  }

  /** A node that has no verdict yet is named by no packet and by no vote anywhere. */
  lemma NoTrace(t: Txn, k: NodeId, j: NodeId)
    requires t.data.Some? && Inv(t) && VerdictAt(t, k).None? && j != k && k != t.coordinator
    ensures k !in CountedAt(t, j)
    ensures forall v :: v in BufferedAt(t, j) ==> v.from != k
    ensures forall p :: p in t.sent && p.msg.VoteMessage? ==> p.msg.from != k
  {
    assert NodeInv(t, j);
    forall v | v in BufferedAt(t, j)
      ensures v.from != k
    {
      assert Authentic(t, v);
    }
    forall p | p in t.sent && p.msg.VoteMessage?
      ensures p.msg.from != k
    {
      assert PacketInv(t, p);
    }
  }

  lemma PreparedPackets(t: Txn, t': Txn, p: Packet, verdict: Option<RollbackReason>, e: Env)
    requires t.data.Some? && Inv(t) && p in t.net && p.msg.PrepareMessage? && !Live(At(t, p.to))
    requires Extends(t, t') && OnlyAt(t, t', p.to)
    requires Live(At(t', p.to)) && VerdictAt(t', p.to) == Some(verdict)
    requires forall j :: j in CountedAt(t', p.to) && j != p.to && j != t.coordinator ==> Vote(j, None) in BufferedAt(t, p.to)
    requires var sent := Broadcast(Peers(Participants(t), p.to), e.reached, VoteMessage(p.to, t.id, verdict));
             t'.net == t.net - multiset{p} + sent && t'.sent == t.sent + sent
    ensures SentInv(t') && NetInv(t')
  {
    assert NodeInv(t, p.to) && PacketInv(t, p);
    assert VerdictAt(t, p.to).None?;
    forall q | q in t'.sent
      ensures t'.sent[q] == 1 && PacketInv(t', q)
    {
      NoTrace(t, p.to, t.coordinator);
      if q in t.sent {
        PacketStays(t, t', q);
      }
    }
    forall q | q in t'.net
      ensures Unseen(t', q)
    {
      if q in t.net - multiset{p} {
        PreparedUnseen(t, t', p, q);
      } else {
        NoTrace(t, p.to, q.to);
      }
    }
  }

  lemma PreparedUnseen(t: Txn, t': Txn, p: Packet, q: Packet)
    requires t.data.Some? && Inv(t) && p in t.net && p.msg.PrepareMessage?
    requires OnlyAt(t, t', p.to) && q in t.net - multiset{p}
    requires Live(At(t', p.to)) && !Live(At(t, p.to))
    requires forall j :: j in CountedAt(t', p.to) && j != p.to && j != t.coordinator ==> Vote(j, None) in BufferedAt(t, p.to)
    ensures Unseen(t', q)
  {
    assert t.net[p] <= t.sent[p] == 1;
    assert q != p && Unseen(t, q) && PacketInv(t, p) && PacketInv(t, q);
  }

  // ----- The client's request ---------------------------------------------------------

  lemma BeginKeeps(t: Txn, data: seq<Byte>, e: Env)
    requires Inv(t) && t.data.None?
    ensures Inv(Apply(t, Begin(data, e)))
  {
    var t' := Apply(t, Begin(data, e));
    var c, h := t.coordinator, HandleLocal(FRESH, t.coordinator, t.id, data, e);
    assert At(t, c) == FRESH;
    assert t' == Put(t.(data := Some(data)), c, h);
    LocalInv(c, t.id, data, e);
    LocalHandled(c, t.id, data, e);
    assert t'.net == h.sent && t'.sent == h.sent;
    BegunNodes(t', h);
    BegunPackets(t', h, e);
  }

  lemma BegunNodes(t: Txn, h: Handled)
    requires t.data.Some? && t.actors == map[t.coordinator := h.actor]
    requires ActorInv(t.coordinator, Participants(t), t.coordinator, h.actor)
    requires h.actor.log == NO_LOG
    requires Live(h.actor) ==>
               h.actor.xact.state.voted <= {t.coordinator} && !h.actor.xact.state.status.RollsBack()
    requires !Live(h.actor) ==> h.actor.xact.votes == []
    ensures forall k :: NodeInv(t, k)
  {
  }

  lemma BegunPackets(t: Txn, h: Handled, e: Env)
    requires t.data.Some? && t.actors == map[t.coordinator := h.actor] && t.net == t.sent == h.sent
    requires h.sent == multiset{} ||
             h.sent == Broadcast(Peers(Participants(t), t.coordinator), e.reached,
                                 PrepareMessage(t.coordinator, t.id, t.data.value))
    ensures SentInv(t) && NetInv(t)
  {
    forall p | p in t.net
      ensures Unseen(t, p)
    {
      assert p.to != t.coordinator && At(t, p.to) == FRESH;
    }
  }

  // ----- Every step, every run --------------------------------------------------------

  lemma StepKeeps(t: Txn, step: Step)
    requires Inv(t) && Enabled(t, step)
    ensures Inv(Apply(t, step))
  {
    match step
    case Begin(data, env) => BeginKeeps(t, data, env);
    case Deliver(p, env) =>
      if p.msg.PrepareMessage? {
        DeliverPrepareKeeps(t, p, env);
      } else {
        DeliverVoteKeeps(t, p, env);
      }
    case Lose(p) => LoseKeeps(t, p);
    case Stop(k) => StopKeeps(t, k);
  }
}
