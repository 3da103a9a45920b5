/** How many messages a transaction takes, and how many steps: each delivery uses up a
    measure of the messages under way, and no run goes on for ever. */
module TransactionProgress {
  import opened Messages
  import opened Transitions
  import opened Transaction
  import opened TransactionProofs
  import opened TransactionSafety
  import opened ActorProofs
  import opened Bags
  import AC = AtomicCommit
  import RwSetFormat

  // ----- The measure -------------------------------------------------------------------

  const IS_PREPARE: Packet -> bool := (p: Packet) => p.msg.PrepareMessage?

  const IS_VOTE: Packet -> bool := (p: Packet) => p.msg.VoteMessage?

  /** Undelivered `Prepare`s weigh as much as the votes they give rise to, plus one. */
  ghost function Measure(t: Txn): nat {
    Weight(|Participants(t)|, |Only(t.net, IS_PREPARE)|, |Only(t.net, IS_VOTE)|)
  }

  function Weight(n: nat, prepares: nat, votes: nat): nat {
    n * prepares + votes
  }

  lemma BroadcastSize(peers: set<NodeId>, reached: set<NodeId>, msg: Message)
    ensures |Broadcast(peers, reached, msg)| <= |peers|
    decreases peers
  {
    var ks := set k | k in peers && k in reached;
    var ps := set k | k in peers && k in reached :: Packet(k, msg);
    SubsetSize(ks, peers);
    ImageSize(ks, msg);
    assert ps == set k | k in ks :: Packet(k, msg);
  }

  lemma SubsetSize<T>(a: set<T>, b: set<T>)
    requires a <= b
    ensures |a| <= |b|
  {
    if a != {} {
      var x :| x in a;
      SubsetSize(a - {x}, b - {x});
    }
  }

  lemma {:induction false} ImageSize(ks: set<NodeId>, msg: Message)
    ensures |set k | k in ks :: Packet(k, msg)| == |ks|
  {
    if ks != {} {
      var x :| x in ks;
      ImageSize(ks - {x}, msg);
      assert (set k | k in ks :: Packet(k, msg)) == (set k | k in ks - {x} :: Packet(k, msg)) + {Packet(x, msg)};
    }
  }

  /** What one delivery puts on the network: nothing, or one vote to each peer. */
  lemma DeliverySends(t: Txn, p: Packet, e: Env)
    requires Inv(t) && p in t.net
    ensures var sent := Receive(At(t, p.to), p.to, t.id, Remote(p.msg), e).sent;
            && |sent| <= (if p.msg.PrepareMessage? then |Participants(t)| - 1 else 0)
            && (forall q :: q in sent ==> q.msg.VoteMessage?)
            && (sent != multiset{} ==> VerdictAt(t, p.to).None? && VerdictAt(Apply(t, Deliver(p, e)), p.to).Some?)
  {
    var k := p.to;
    assert NodeInv(t, k) && PacketInv(t, p) && Unseen(t, p);
    SubsetSize({k}, Participants(t));
    if p.msg.PrepareMessage? && At(t, k).outcome.Running? {
      PrepareSends(t, k, e);
    }
  }

  lemma PrepareSends(t: Txn, k: NodeId, e: Env)
    requires t.data.Some? && NodeInv(t, k) && k in Surrogates(t) && !Live(At(t, k)) && At(t, k).outcome.Running?
    ensures var h := HandlePrepare(At(t, k), k, t.id, t.coordinator, t.data.value, e);
            && |h.sent| <= |Participants(t)| - 1
            && (forall q :: q in h.sent ==> q.msg.VoteMessage?)
            && h.actor.log.verdict.Some?
  {
    var d := Decided(t.coordinator, Participants(t), k, BufferedAt(t, k), e.exec);
    EarlyVotesFit(t, k);
    PrepareHandled(At(t, k), t.coordinator, Participants(t), k, t.id, t.data.value, e);
    BroadcastSize(Peers(Participants(t), k), e.reached, VoteMessage(k, t.id, d.log.verdict.value));
  }

  lemma DeliveryShrinks(t: Txn, p: Packet, e: Env)
    requires Inv(t) && p in t.net
    ensures Measure(Apply(t, Deliver(p, e))) < Measure(t)
  {
    DeliverySends(t, p, e);
    assert PacketInv(t, p);
    Reweighs(t, Apply(t, Deliver(p, e)), p, Receive(At(t, p.to), p.to, t.id, Remote(p.msg), e).sent);
  }

  lemma LossShrinks(t: Txn, p: Packet)
    requires Inv(t) && p in t.net
    ensures Measure(Apply(t, Lose(p))) < Measure(t)
  {
    assert PacketInv(t, p);
    Reweighs(t, Apply(t, Lose(p)), p, multiset{});
  }

  /** A packet taken off the network, and the votes that came of it. */
  lemma Reweighs(t: Txn, t': Txn, p: Packet, sent: multiset<Packet>)
    requires p in t.net && t'.net == t.net - multiset{p} + sent && t'.data == t.data && t'.coordinator == t.coordinator
    requires forall q :: q in sent ==> q.msg.VoteMessage?
    requires |sent| <= (if p.msg.PrepareMessage? then |Participants(t)| - 1 else 0)
    requires Participants(t) != {}
    ensures Measure(t') < Measure(t)
  {
    NetWeighs(t.net, p, sent);
    var n := |Participants(t)|;
    assert n > 0;
    MeasureDrops(n, |Only(t.net, IS_PREPARE)|, |Only(t.net, IS_VOTE)|,
                 |Only(t'.net, IS_PREPARE)|, |Only(t'.net, IS_VOTE)|, |sent|, p.msg.PrepareMessage?);
  }

  lemma NetWeighs(net: multiset<Packet>, p: Packet, sent: multiset<Packet>)
    requires p in net && forall q :: q in sent ==> q.msg.VoteMessage?
    ensures var net' := net - multiset{p} + sent;
            && |Only(net', IS_PREPARE)| == |Only(net, IS_PREPARE)| - (if p.msg.PrepareMessage? then 1 else 0)
            && |Only(net', IS_VOTE)| == |Only(net, IS_VOTE)| - (if p.msg.PrepareMessage? then 0 else 1) + |sent|
  {
    OnlyUnion(net - multiset{p}, sent, IS_PREPARE);
    OnlyUnion(net - multiset{p}, sent, IS_VOTE);
    OnlyDrops(net, p, IS_PREPARE);
    OnlyDrops(net, p, IS_VOTE);
    OnlyNone(sent, IS_PREPARE);
    OnlyAll(sent, IS_VOTE);
  }

  lemma MeasureDrops(n: nat, a: nat, b: nat, a': nat, b': nat, s: nat, prepare: bool)
    requires s <= (if prepare then n - 1 else 0)
    requires prepare ==> a' == a - 1 && b' == b + s
    requires !prepare ==> a' == a && b' == b - 1 + s
    ensures Weight(n, a', b') < Weight(n, a, b)
  {
    if prepare {
      assert n * a == n * a' + n;
    }
  }

  // ----- The number of messages ---------------------------------------------------------

  ghost function Voted(t: Txn): set<NodeId> {
    set k | k in Surrogates(t) && VerdictAt(t, k).Some?
  }

  /** The coordinator sends one `Prepare` to each surrogate, and each surrogate that
      reaches a verdict one vote to each other participant. */
  ghost predicate FewMessages(t: Txn) {
    |t.sent| <= |Surrogates(t)| + (|Participants(t)| - 1) * |Voted(t)|
  }

  lemma DeliveryKeepsFew(t: Txn, p: Packet, e: Env)
    requires Inv(t) && p in t.net && FewMessages(t)
    ensures FewMessages(Apply(t, Deliver(p, e)))
  {
    var t' := Apply(t, Deliver(p, e));
    DeliverySends(t, p, e);
    VotedGrows(t, p, e);
    MoreMessages(t, t', Receive(At(t, p.to), p.to, t.id, Remote(p.msg), e).sent);
  }

  lemma MoreMessages(t: Txn, t': Txn, sent: multiset<Packet>)
    requires FewMessages(t) && t'.sent == t.sent + sent && t'.data == t.data && t'.coordinator == t.coordinator
    requires Participants(t) != {} && |sent| <= |Participants(t)| - 1
    requires Voted(t) <= Voted(t') && (sent != multiset{} ==> |Voted(t')| >= |Voted(t)| + 1)
    ensures FewMessages(t')
  {
    SubsetSize(Voted(t), Voted(t'));
    FewMore(|Participants(t)|, |sent|, |Voted(t)|, |Voted(t')|);
  }

  lemma FewMore(n: nat, sent: nat, v: nat, v': nat)
    requires n > 0 && sent <= n - 1 && v <= v' && (sent > 0 ==> v + 1 <= v')
    ensures sent + (n - 1) * v <= (n - 1) * v'
  {
    MulGrows(n - 1, if sent > 0 then v + 1 else v, v');
  }

  lemma MulGrows(n: nat, a: nat, b: nat)
    requires a <= b
    ensures n * a <= n * b
  {
  }

  lemma VotedGrows(t: Txn, p: Packet, e: Env)
    requires Inv(t) && p in t.net
    ensures var t' := Apply(t, Deliver(p, e));
            && t'.data == t.data && t'.coordinator == t.coordinator
            && Participants(t) != {}
            && Voted(t) <= Voted(t')
            && (VerdictAt(t, p.to).None? && VerdictAt(t', p.to).Some? ==> |Voted(t')| >= |Voted(t)| + 1)
  {
    var t' := Apply(t, Deliver(p, e));
    assert PacketInv(t, p);
    AC.StepExtends(t, Deliver(p, e), p.to);
    StepKeeps(t, Deliver(p, e));
    VerdictsCount(t, t', p.to);
  }

  lemma VerdictsCount(t: Txn, t': Txn, k: NodeId)
    requires Inv(t') && t.data.Some? && Extends(t, t')
    ensures Voted(t) <= Voted(t')
    ensures VerdictAt(t, k).None? && VerdictAt(t', k).Some? ==> |Voted(t')| >= |Voted(t)| + 1
  {
    if VerdictAt(t, k).None? && VerdictAt(t', k).Some? {
      assert NodeInv(t', k);
      assert k in Voted(t');
      SubsetSize(Voted(t) + {k}, Voted(t'));
    }
  }

  /** No packets sent and no new verdicts. */
  lemma SameKeepsFew(t: Txn, t': Txn)
    requires FewMessages(t) && t'.sent == t.sent && t'.data == t.data && t'.coordinator == t.coordinator
    requires forall k :: VerdictAt(t', k) == VerdictAt(t, k)
    ensures FewMessages(t')
  {
    assert Voted(t') == Voted(t);
  }

  lemma LossKeepsFew(t: Txn, p: Packet)
    requires Enabled(t, Lose(p)) && FewMessages(t)
    ensures FewMessages(Apply(t, Lose(p)))
  {
    SameKeepsFew(t, Apply(t, Lose(p)));
  }

  lemma StopKeepsFew(t: Txn, k: NodeId)
    requires Enabled(t, Stop(k)) && FewMessages(t)
    ensures FewMessages(Apply(t, Stop(k)))
  {
    SameKeepsFew(t, Apply(t, Stop(k)));
  }

  /** The request sends at most one `Prepare` to each surrogate, and nothing else. */
  lemma LocalSends(c: NodeId, id: XactId, data: seq<Byte>, e: Env)
    ensures var h := HandleLocal(FRESH, c, id, data, e);
            && |h.sent| <= (match RwSetFormat.ParticipantsOf(data) case None => 0 case Some(p) => |Peers(p, c)|)
            && h.actor.log.verdict.None?
            && (forall p :: p in h.sent ==> p.msg.PrepareMessage?)
  {
    LocalHandled(c, id, data, e);
    match RwSetFormat.ParticipantsOf(data)
    case None =>
    case Some(p) => BroadcastSize(Peers(p, c), e.reached, PrepareMessage(c, id, data));
  }

  lemma BeginSends(t: Txn, data: seq<Byte>, e: Env)
    requires t == Idle(t.id, t.coordinator)
    ensures var t' := Apply(t, Begin(data, e));
            && t'.net == t'.sent && |t'.sent| <= |Surrogates(t')|
            && t'.actors.Keys == {t.coordinator} && VerdictAt(t', t.coordinator).None?
            && (forall p :: p in t'.sent ==> p.msg.PrepareMessage?)
  {
    LocalSends(t.coordinator, t.id, data, e);
    var sent := HandleLocal(FRESH, t.coordinator, t.id, data, e).sent;
    assert multiset{} + sent == sent;
  }

  lemma BeginKeepsFew(t: Txn, data: seq<Byte>, e: Env)
    requires Inv(t) && t.data.None?
    ensures FewMessages(Apply(t, Begin(data, e)))
  {
    BeginSends(t, data, e);
    BeginHasNoVotes(Apply(t, Begin(data, e)));
  }

  lemma BeginHasNoVotes(t: Txn)
    requires |t.sent| <= |Surrogates(t)| && forall k :: VerdictAt(t, k).None?
    ensures FewMessages(t)
  {
    assert Voted(t) == {};
  }

  lemma StepKeepsFew(t: Txn, step: Step)
    requires Inv(t) && Enabled(t, step) && FewMessages(t)
    ensures FewMessages(Apply(t, step))
  {
    match step
    case Deliver(p, e) => DeliveryKeepsFew(t, p, e);
    case Lose(p) => LossKeepsFew(t, p);
    case Stop(k) => StopKeepsFew(t, k);
    case Begin(data, e) => BeginKeepsFew(t, data, e);
  }

  lemma {:induction false} RunKeepsFew(ts: seq<Txn>, steps: seq<Step>, i: nat)
    requires IsRun(ts, steps) && i < |ts|
    ensures FewMessages(ts[i])
  {
    if i == 0 {
      IdleHasFew(ts[0]);
    } else {
      RunKeepsFew(ts, steps, i - 1);
      NextKeepsFew(ts, steps, i - 1);
    }
  }

  lemma IdleHasFew(t: Txn)
    requires t == Idle(t.id, t.coordinator)
    ensures FewMessages(t)
  {
    assert Voted(t) == {};
  }

  lemma NextKeepsFew(ts: seq<Txn>, steps: seq<Step>, i: nat)
    requires IsRun(ts, steps) && i < |steps| && FewMessages(ts[i])
    ensures FewMessages(ts[i + 1])
  {
    RunInv(ts, steps, i);
    StepKeepsFew(ts[i], steps[i]);
  }

  /** A transaction of `n` participants costs at most `(n-1) + (n-1)^2` messages,
      in every run. */
  lemma MessageBound(ts: seq<Txn>, steps: seq<Step>, i: nat)
    requires IsRun(ts, steps) && i < |ts| && ts[i].coordinator in Participants(ts[i])
    ensures var n := |Participants(ts[i])|; |ts[i].sent| <= (n - 1) + (n - 1) * (n - 1)
  {
    RunKeepsFew(ts, steps, i);
    var t := ts[i];
    SubsetSize(Voted(t), Surrogates(t));
    assert |Surrogates(t)| == |Participants(t)| - 1;
    MulGrows(|Participants(t)| - 1, |Voted(t)|, |Participants(t)| - 1);
  }

  // ----- The length of runs ----------------------------------------------------------------

  /** The nodes whose actors, present or future, can still be cancelled. */
  ghost function Stoppable(t: Txn): set<NodeId> {
    set k | k in Participants(t) + {t.coordinator} && At(t, k).outcome.Running?
  }

  ghost predicate Placed(t: Txn) {
    t.actors.Keys <= Participants(t) + {t.coordinator}
  }

  ghost function Potential(t: Txn): nat {
    Measure(t) + |Stoppable(t)|
  }

  /** Only node `k` moved, and it does not listen unless it did before. */
  ghost predicate MovesAt(t: Txn, t': Txn, k: NodeId) {
    && t'.data == t.data && t'.coordinator == t.coordinator
    && k in Participants(t) + {t.coordinator} && OnlyAt(t, t', k)
    && (At(t', k).outcome.Running? ==> At(t, k).outcome.Running?)
  }

  lemma StoppableShrinks(t: Txn, t': Txn, k: NodeId)
    requires MovesAt(t, t', k)
    ensures |Stoppable(t')| <= |Stoppable(t)|
    ensures At(t, k).outcome.Running? && !At(t', k).outcome.Running? ==> |Stoppable(t')| < |Stoppable(t)|
  {
    SubsetSize(Stoppable(t'), Stoppable(t));
    if At(t, k).outcome.Running? && !At(t', k).outcome.Running? {
      SubsetSize(Stoppable(t') + {k}, Stoppable(t));
    }
  }

  /** Handlers do not bring an actor back to life. */
  lemma StaysStopped(a: Actor, me: NodeId, id: XactId, input: Input, e: Env)
    ensures Receive(a, me, id, input, e).actor.outcome.Running? ==> a.outcome.Running?
  {
  }

  lemma PutMoves(t: Txn, k: NodeId, net: multiset<Packet>, h: Handled)
    requires t.data.Some? && k in Participants(t) + {t.coordinator} && Placed(t)
    requires h.actor.outcome.Running? ==> At(t, k).outcome.Running?
    ensures MovesAt(t, Put(t.(net := net), k, h), k) && Placed(Put(t.(net := net), k, h))
  {
  }

  lemma DeliveryDescends(t: Txn, p: Packet, e: Env)
    requires Inv(t) && t.data.Some? && p in t.net && Placed(t)
    ensures var t' := Apply(t, Deliver(p, e)); Placed(t') && Potential(t') < Potential(t)
  {
    assert PacketInv(t, p);
    DeliveryShrinks(t, p, e);
    StaysStopped(At(t, p.to), p.to, t.id, Remote(p.msg), e);
    PutMoves(t, p.to, t.net - multiset{p}, Receive(At(t, p.to), p.to, t.id, Remote(p.msg), e));
    StoppableShrinks(t, Apply(t, Deliver(p, e)), p.to);
  }

  lemma LossDescends(t: Txn, p: Packet)
    requires Inv(t) && t.data.Some? && p in t.net && Placed(t)
    ensures var t' := Apply(t, Lose(p)); Placed(t') && Potential(t') < Potential(t)
  {
    LossShrinks(t, p);
    StoppableShrinks(t, Apply(t, Lose(p)), t.coordinator);
  }

  lemma StopDescends(t: Txn, k: NodeId)
    requires t.data.Some? && Enabled(t, Stop(k)) && Placed(t)
    ensures var t' := Apply(t, Stop(k)); Placed(t') && Potential(t') < Potential(t)
  {
    SameMeasure(t, Apply(t, Stop(k)));
    StoppableShrinks(t, Apply(t, Stop(k)), k);
  }

  /** Once the request is in, every step uses up potential. */
  lemma StepShrinks(t: Txn, step: Step)
    requires Inv(t) && t.data.Some? && Enabled(t, step) && Placed(t)
    ensures Placed(Apply(t, step)) && Potential(Apply(t, step)) < Potential(t)
    ensures Apply(t, step).data == t.data && Apply(t, step).coordinator == t.coordinator
  {
    match step
    case Deliver(p, e) => DeliveryDescends(t, p, e);
    case Lose(p) => LossDescends(t, p);
    case Stop(k) => StopDescends(t, k);
    case Begin(_, _) =>
  }

  lemma SameMeasure(t: Txn, t': Txn)
    requires t'.net == t.net && t'.data == t.data
    ensures Measure(t') == Measure(t)
  {
  }

  lemma NextShrinks(ts: seq<Txn>, steps: seq<Step>, i: nat)
    requires IsRun(ts, steps) && i < |steps| && ts[i].data.Some? && Placed(ts[i])
    ensures ts[i + 1].data == ts[i].data && ts[i + 1].coordinator == ts[i].coordinator
    ensures Placed(ts[i + 1]) && Potential(ts[i + 1]) < Potential(ts[i])
  {
    RunInv(ts, steps, i);
    StepShrinks(ts[i], steps[i]);
  }

  /** What a run's length depends on. */
  datatype Progress = Progress(data: Option<seq<Byte>>, coordinator: NodeId, placed: bool, potential: nat)

  ghost function ProgressOf(t: Txn): Progress {
    Progress(t.data, t.coordinator, Placed(t), Potential(t))
  }

  lemma {:induction false} Descends(qs: seq<Progress>, i: nat, j: nat)
    requires i <= j < |qs| && qs[i].data.Some? && qs[i].placed
    requires forall m :: i <= m < j && qs[m].data.Some? && qs[m].placed ==>
               qs[m + 1] == qs[m].(potential := qs[m + 1].potential) && qs[m + 1].potential < qs[m].potential
    ensures qs[j] == qs[i].(potential := qs[j].potential) && qs[j].potential + (j - i) <= qs[i].potential
    decreases j
  {
    if i < j {
      Descends(qs, i, j - 1);
    }
  }

  lemma RunDescends(ts: seq<Txn>, steps: seq<Step>, i: nat, j: nat)
    requires IsRun(ts, steps) && i <= j < |ts| && ts[i].data.Some? && Placed(ts[i])
    ensures ts[j].data == ts[i].data && ts[j].coordinator == ts[i].coordinator
    ensures Potential(ts[j]) + (j - i) <= Potential(ts[i])
  {
    var qs := seq(|ts|, m requires 0 <= m < |ts| => ProgressOf(ts[m]));
    forall m | i <= m < j && qs[m].data.Some? && qs[m].placed
      ensures qs[m + 1] == qs[m].(potential := qs[m + 1].potential) && qs[m + 1].potential < qs[m].potential
    {
      NextShrinks(ts, steps, m);
    }
    Descends(qs, i, j);
  }

  /** The request puts weight `n (n-1)` at most on the network. */
  lemma BeginMeasure(t: Txn, data: seq<Byte>, e: Env)
    requires Inv(t) && t.data.None?
    ensures var t' := Apply(t, Begin(data, e));
            Measure(t') <= |Participants(t')| * |Surrogates(t')| && Placed(t')
  {
    var t' := Apply(t, Begin(data, e));
    BeginSends(t, data, e);
    OnlyAll(t'.net, IS_PREPARE);
    OnlyNone(t'.net, IS_VOTE);
    MulGrows(|Participants(t')|, |t'.net|, |Surrogates(t')|);
  }

  /** No transaction goes on for ever: with `n` participants, no run has more than
      `n (n-1)` deliveries and losses, a cancellation for each node, and the request. */
  lemma RunsEnd(ts: seq<Txn>, steps: seq<Step>)
    requires IsRun(ts, steps)
    ensures var t := ts[|steps|];
            |steps| <= 1 + |Participants(t)| * |Surrogates(t)| + |Participants(t) + {t.coordinator}|
  {
    if |steps| > 0 {
      assert steps[0].Begin?;
      RunInv(ts, steps, 0);
      BeginMeasure(ts[0], steps[0].data, steps[0].env);
      RunDescends(ts, steps, 1, |steps|);
      SubsetSize(Stoppable(ts[1]), Participants(ts[1]) + {ts[1].coordinator});
    }
  }
}
