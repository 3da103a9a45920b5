/** Runs in which only the coordinator meets faults, and what they do to the others. A
    coordinator whose actor stops is not needed any more once its `Prepare`s are out. A
    coordinator that cannot be reached blocks everybody: a surrogate finishes only if its
    vote was acknowledged by all other participants, the coordinator included. */
module CoordinatorFailure {
  import opened Messages
  import opened Transitions
  import opened Transaction
  import opened TransactionProofs
  import opened TransactionSafety
  import opened TransactionPaths
  import opened TransactionLiveness
  import opened ActorProofs
  import opened VoteCounting
  import AC = AtomicCommit
  import Progress = TransactionProgress
  import RwSetFormat

  // ----- Finishing needs everybody's acknowledgement -----------------------------------------

  /** The step in which surrogate `k` gets its verdict out to all other participants, and
      knows it. */
  predicate AckedAt(t: Txn, step: Step, k: NodeId) {
    && step.Deliver? && step.packet.to == k && step.packet.msg.PrepareMessage?
    && At(t, k).outcome.Running? && BroadcastOk(Peers(Participants(t), k), step.env)
  }

  ghost predicate Acked(ts: seq<Txn>, steps: seq<Step>, n: nat, k: NodeId)
    requires n <= |steps| < |ts|
  {
    exists i :: 0 <= i < n && AckedAt(ts[i], steps[i], k)
  }

  /** The surrogate has got beyond its broadcast. */
  predicate Beyond(t: Txn, k: NodeId) {
    Live(At(t, k)) && (At(t, k).outcome.Running? || StatusAt(t, k).Terminal())
  }

  ghost predicate VotesOut(t: Txn, k: NodeId) {
    VerdictAt(t, k).Some? && forall j :: j in Participants(t) && j != k ==> VotePacket(t, k, j) in t.sent
  }

  /** A surrogate whose vote is not acknowledged by everybody stops then and there. */
  lemma UnheardIsStranded(t: Txn, p: Packet, e: Env)
    requires Inv(t) && p in t.net && p.msg.PrepareMessage? && At(t, p.to).outcome.Running?
    requires !BroadcastOk(Peers(Participants(t), p.to), e)
    ensures Stopped(Apply(t, Deliver(p, e)), p.to)
  {
    PrepareGives(t, p, e);
    var d := Decided(t.coordinator, Participants(t), p.to, BufferedAt(t, p.to), e.exec);
    DecidedInv(t.coordinator, Participants(t), p.to, BufferedAt(t, p.to), e.exec);
    assert At(Apply(t, Deliver(p, e)), p.to) == d.(outcome := Failed);
  }

  /** The surrogate has executed and has stopped without finishing. */
  predicate Stopped(t: Txn, k: NodeId) {
    Live(At(t, k)) && At(t, k).outcome.Failed? && !StatusAt(t, k).Terminal()
  }

  lemma PrepareGives(t: Txn, p: Packet, e: Env)
    requires Inv(t) && p in t.net && p.msg.PrepareMessage? && At(t, p.to).outcome.Running?
    ensures p.to in Surrogates(t) && SurrogateStart(Start(t.coordinator, Participants(t), p.to), BufferedAt(t, p.to))
    ensures var d := Decided(t.coordinator, Participants(t), p.to, BufferedAt(t, p.to), e.exec);
            var h := HandlePrepare(At(t, p.to), p.to, t.id, t.coordinator, t.data.value, e);
            && Apply(t, Deliver(p, e)) == Put(t.(net := t.net - multiset{p}), p.to, h)
            && h.sent == Broadcast(Peers(Participants(t), p.to), e.reached, VoteMessage(p.to, t.id, d.log.verdict.value))
            && h.actor == (if BroadcastOk(Peers(Participants(t), p.to), e) then Finish(d, e.finish) else d.(outcome := Failed))
            && SameDecision(d, h.actor)
  {
    assert NodeInv(t, p.to) && PacketInv(t, p) && Unseen(t, p);
    EarlyVotesFit(t, p.to);
    PrepareHandled(At(t, p.to), t.coordinator, Participants(t), p.to, t.id, t.data.value, e);
  }

  /** Getting beyond the broadcast takes an acknowledged broadcast, which leaves the votes
      on the network. */
  lemma GettingBeyond(t: Txn, step: Step, k: NodeId)
    requires Inv(t) && Enabled(t, step) && k in Surrogates(Apply(t, step))
    requires !Beyond(t, k) && Beyond(Apply(t, step), k)
    ensures AckedAt(t, step, k) && VotesOut(Apply(t, step), k)
  {
    match step
    case Begin(_, _) =>
    case Lose(_) =>
    case Stop(_) =>
    case Deliver(p, e) =>
      if p.to == k {
        assert NodeInv(t, k);
        VoteGoesNotBeyond(t, p, e);
        if p.msg.PrepareMessage? {
          if !BroadcastOk(Peers(Participants(t), k), e) {
            UnheardIsStranded(t, p, e);
          }
          AcksMeanVotesOut(t, p, e);
        }
      }
  }

  lemma VoteGoesNotBeyond(t: Txn, p: Packet, e: Env)
    requires Inv(t) && p in t.net && !Beyond(t, p.to)
    ensures p.msg.VoteMessage? || !At(t, p.to).outcome.Running? ==> !Beyond(Apply(t, Deliver(p, e)), p.to)
  {
    assert NodeInv(t, p.to);
  }

  lemma AcksMeanVotesOut(t: Txn, p: Packet, e: Env)
    requires Inv(t) && p in t.net && AckedAt(t, Deliver(p, e), p.to)
    ensures VotesOut(Apply(t, Deliver(p, e)), p.to)
  {
    PrepareGives(t, p, e);
    var t' := Apply(t, Deliver(p, e));
    forall j | j in Participants(t') && j != p.to
      ensures VotePacket(t', p.to, j) in t'.sent
    {
      assert j in Peers(Participants(t), p.to) && j in e.reached;
    }
  }

  lemma VotesStayOut(t: Txn, step: Step, k: NodeId)
    requires Inv(t) && t.data.Some? && Enabled(t, step) && VotesOut(t, k)
    ensures VotesOut(Apply(t, step), k)
  {
    AC.StepExtends(t, step, match step case Deliver(p, _) => p.to case Stop(j) => j case _ => t.coordinator);
    VotesOutLater(t, Apply(t, step), k);
  }

  lemma VotesOutLater(t: Txn, t': Txn, k: NodeId)
    requires VotesOut(t, k) && Extends(t, t') && t.sent <= t'.sent
    ensures VotesOut(t', k)
  {
    forall j | j in Participants(t') && j != k
      ensures VotePacket(t', k, j) in t'.sent
    {
      assert VotePacket(t, k, j) in t.sent;
    }
  }

  lemma BeyondNext(t: Txn, step: Step, k: NodeId)
    requires Inv(t) && Enabled(t, step) && k in Surrogates(Apply(t, step)) && Beyond(Apply(t, step), k)
    ensures AckedAt(t, step, k) || Beyond(t, k)
    ensures (Beyond(t, k) ==> k in Surrogates(t) && VotesOut(t, k)) ==> VotesOut(Apply(t, step), k)
  {
    if Beyond(t, k) {
      assert t.data.Some?;
      if VotesOut(t, k) {
        VotesStayOut(t, step, k);
      }
    } else {
      GettingBeyond(t, step, k);
    }
  }

  lemma SurrogatesBefore(t: Txn, step: Step, k: NodeId)
    requires Inv(t) && Enabled(t, step) && k in Surrogates(Apply(t, step)) && Beyond(t, k)
    ensures k in Surrogates(t)
  {
  }

  /** In every run, whatever the faults: a surrogate that has finished, or still listens
      after executing, has had its verdict acknowledged by every other participant, the
      coordinator included; its votes were sent to all of them. */
  lemma {:induction false} FinishingNeedsAcks(ts: seq<Txn>, steps: seq<Step>, n: nat, k: NodeId)
    requires IsRun(ts, steps) && n < |ts| && k in Surrogates(ts[n]) && Beyond(ts[n], k)
    ensures Acked(ts, steps, n, k) && VotesOut(ts[n], k)
  {
    if n > 0 {
      RunInv(ts, steps, n - 1);
      BeyondNext(ts[n - 1], steps[n - 1], k);
      if Beyond(ts[n - 1], k) {
        SurrogatesBefore(ts[n - 1], steps[n - 1], k);
        FinishingNeedsAcks(ts, steps, n - 1, k);
      }
    }
  }

  // ----- Faults of the coordinator only -------------------------------------------------------

  /** All that goes wrong goes wrong with the coordinator: its `Prepare`s get out, but need
      not be acknowledged; what is sent to it may get lost, or not get out at all, or not
      be acknowledged; what reaches it may go wrong there; and it may be cancelled. */
  predicate OnlyCoordinatorFails(t: Txn, step: Step) {
    match step
    case Begin(data, e) =>
      var p := RwSetFormat.ParticipantsOf(data);
      p.Some? && p.value - {t.coordinator} != {} && p.value - {t.coordinator} <= e.reached
    case Deliver(p, e) =>
      p.to == t.coordinator || (PerfectFinish(e.finish) && Surrogates(t) - {p.to} <= e.reached)
    case Lose(p) => p.to == t.coordinator
    case Stop(k) => k == t.coordinator
  }

  lemma LossHealthy(t: Txn, p: Packet, ks: set<NodeId>)
    requires Inv(t) && HealthyFor(t, ks) && p in t.net && p.to == t.coordinator && p.to !in ks
    ensures HealthyFor(Apply(t, Lose(p)), ks)
  {
    HealthyStep(t, Apply(t, Lose(p)), p, ks);
  }

  lemma StopHealthy(t: Txn, ks: set<NodeId>)
    requires HealthyFor(t, ks) && Enabled(t, Stop(t.coordinator)) && t.coordinator !in ks
    ensures HealthyFor(Apply(t, Stop(t.coordinator)), ks)
  {
    var t' := Apply(t, Stop(t.coordinator));
    assert OnlyAt(t, t', t.coordinator);
    forall k | k in Surrogates(t)
      ensures Live(At(t', k)) || DueAt(t', k)
    {
      assert Live(At(t, k)) || DueAt(t, k);
    }
    forall j, k | j in Surrogates(t) && k in ks && j != k
      ensures HeardOrDue(t', j, k)
    {
      assert HeardOrDue(t, j, k);
    }
  }

  /** Such a step does not disturb surrogates whose own broadcast is acknowledged. */
  lemma SurrogatesHealthy(t: Txn, step: Step, ks: set<NodeId>)
    requires Inv(t) && t.data.Some? && Enabled(t, step) && OnlyCoordinatorFails(t, step)
    requires HealthyFor(t, ks) && ks <= Surrogates(t)
    requires step.Deliver? && step.packet.msg.PrepareMessage? && step.packet.to in ks ==>
               BroadcastOk(Peers(Participants(t), step.packet.to), step.env)
    ensures HealthyFor(Apply(t, step), ks)
  {
    match step
    case Deliver(p, e) =>
      assert PacketInv(t, p);
      DeliveryHealthy(t, p, e, ks);
    case Lose(p) => LossHealthy(t, p, ks);
    case Stop(_) => StopHealthy(t, ks);
    case Begin(_, _) =>
  }

  ghost predicate CoordinatorFaultsOnly(ts: seq<Txn>, steps: seq<Step>) {
    IsRun(ts, steps) && forall i :: 0 <= i < |steps| ==> OnlyCoordinatorFails(ts[i], steps[i])
  }

  /** Surrogate `k` is on its way to a decision, or its vote was not acknowledged. */
  ghost predicate OnTrack(t: Txn, k: NodeId, acked: bool) {
    && t.data.Some? && k in Surrogates(t)
    && if acked then HealthyFor(t, {k}) && Live(At(t, k))
       else (HealthyFor(t, {k}) && !Live(At(t, k))) || Stopped(t, k)
  }

  lemma StaysOnTrack(t: Txn, step: Step, k: NodeId, acked: bool)
    requires Inv(t) && Enabled(t, step) && OnlyCoordinatorFails(t, step) && OnTrack(t, k, acked)
    ensures OnTrack(Apply(t, step), k, acked || AckedAt(t, step, k))
  {
    if Stopped(t, k) && !acked {
      assert At(Apply(t, step), k) == At(t, k);
    } else if step.Deliver? && step.packet.to == k && step.packet.msg.PrepareMessage? {
      PrepareKeepsTrack(t, step.packet, step.env, acked);
    } else {
      SurrogatesHealthy(t, step, {k});
      LivesOn(t, step, k);
    }
  }

  /** Only a `Prepare` brings an actor to life. */
  lemma LivesOn(t: Txn, step: Step, k: NodeId)
    requires Enabled(t, step) && t.data.Some?
    requires !(step.Deliver? && step.packet.to == k && step.packet.msg.PrepareMessage?)
    ensures Live(At(Apply(t, step), k)) == Live(At(t, k))
  {
    if step.Deliver? && step.packet.to == k {
      VoteAtOther(t, Apply(t, step), step.packet, step.env.finish);
    }
  }

  lemma PrepareKeepsTrack(t: Txn, p: Packet, e: Env, acked: bool)
    requires Inv(t) && p in t.net && OnlyCoordinatorFails(t, Deliver(p, e)) && OnTrack(t, p.to, acked)
    requires p.msg.PrepareMessage? && !(Stopped(t, p.to) && !acked)
    ensures OnTrack(Apply(t, Deliver(p, e)), p.to, acked || AckedAt(t, Deliver(p, e), p.to))
  {
    assert NodeInv(t, p.to) && PacketInv(t, p) && Unseen(t, p);
    assert !acked && DueAt(t, p.to);
    PrepareGives(t, p, e);
    if BroadcastOk(Peers(Participants(t), p.to), e) {
      DeliveryHealthy(t, p, e, {p.to});
    } else {
      UnheardIsStranded(t, p, e);
    }
  }

  lemma BegunOnTrack(t: Txn, begin: Step, k: NodeId)
    requires Inv(t) && t.data.None? && begin.Begin? && OnlyCoordinatorFails(t, begin)
    requires k in Surrogates(Apply(t, begin))
    ensures OnTrack(Apply(t, begin), k, false)
  {
    BeginHealthy(t, begin.data, begin.env, {k});
  }

  lemma {:induction false} RunOnTrack(ts: seq<Txn>, steps: seq<Step>, n: nat, k: NodeId)
    requires CoordinatorFaultsOnly(ts, steps) && 0 < n < |ts| && k in Surrogates(ts[n])
    ensures OnTrack(ts[n], k, Acked(ts, steps, n, k))
  {
    RunInv(ts, steps, n - 1);
    if n == 1 {
      BegunOnTrack(ts[0], steps[0], k);
    } else {
      NextSurrogates(ts, steps, n - 1);
      RunOnTrack(ts, steps, n - 1, k);
      StaysOnTrack(ts[n - 1], steps[n - 1], k, Acked(ts, steps, n - 1, k));
    }
  }

  lemma NextSurrogates(ts: seq<Txn>, steps: seq<Step>, n: nat)
    requires IsRun(ts, steps) && 0 < n < |steps|
    ensures Surrogates(ts[n + 1]) == Surrogates(ts[n])
  {
    BegunAtOnce(ts, steps, n);
  }

  lemma {:induction false} BegunAtOnce(ts: seq<Txn>, steps: seq<Step>, n: nat)
    requires IsRun(ts, steps) && 0 < n < |ts|
    ensures ts[n].data.Some?
  {
    if n > 1 {
      BegunAtOnce(ts, steps, n - 1);
    }
  }

  /** If only the coordinator meets faults, whatever they are, then once everything is
      delivered every surrogate has executed, and has finished exactly if its vote was
      acknowledged by all, the coordinator included; and those that have finished have
      committed exactly if all executions succeeded. */
  lemma FinishesExactlyIfAcked(ts: seq<Txn>, steps: seq<Step>, k: NodeId)
    requires CoordinatorFaultsOnly(ts, steps) && |steps| > 0 && ts[|steps|].net == multiset{}
    requires k in Surrogates(ts[|steps|])
    ensures var t := ts[|steps|];
            && ExecutedAt(t, k).Some?
            && (StatusAt(t, k).Terminal() <==> Acked(ts, steps, |steps|, k))
            && (StatusAt(t, k).Terminal() ==>
                  (StatusAt(t, k) == Committed <==> forall j :: j in Surrogates(t) ==> ExecutedAt(t, j) == Some(None)))
  {
    RunInv(ts, steps, |steps|);
    RunOnTrack(ts, steps, |steps|, k);
    EndOfTrack(ts[|steps|], k, Acked(ts, steps, |steps|, k));
  }

  lemma EndOfTrack(t: Txn, k: NodeId, acked: bool)
    requires Inv(t) && OnTrack(t, k, acked) && t.net == multiset{}
    ensures ExecutedAt(t, k).Some? && (StatusAt(t, k).Terminal() <==> acked)
    ensures StatusAt(t, k).Terminal() ==>
              (StatusAt(t, k) == Committed <==> forall j :: j in Surrogates(t) ==> ExecutedAt(t, j) == Some(None))
  {
    assert NodeInv(t, k);
    if HealthyFor(t, {k}) {
      AllLive(t, {k}, k);
    }
    if acked {
      QuietMeansFinished(t, {k}, k);
    }
  }

  /** In particular: when the coordinator's actor stops, but its server goes on
      acknowledging votes, all surrogates finish. */
  lemma SurrogatesDecide(ts: seq<Txn>, steps: seq<Step>, k: NodeId)
    requires CoordinatorFaultsOnly(ts, steps) && |steps| > 0 && ts[|steps|].net == multiset{}
    requires forall i :: 0 <= i < |steps| && steps[i].Deliver? && steps[i].packet.to != ts[i].coordinator ==>
               BroadcastOk(Peers(Participants(ts[i]), steps[i].packet.to), steps[i].env)
    requires k in Surrogates(ts[|steps|])
    ensures var t := ts[|steps|];
            && StatusAt(t, k).Terminal()
            && (StatusAt(t, k) == Committed <==> forall j :: j in Surrogates(t) ==> ExecutedAt(t, j) == Some(None))
  {
    FinishesExactlyIfAcked(ts, steps, k);
    ExecutionIsAcked(ts, steps, |steps|, k);
  }

  /** Where all broadcasts are acknowledged, one was when `k` executed. */
  lemma {:induction false} ExecutionIsAcked(ts: seq<Txn>, steps: seq<Step>, n: nat, k: NodeId)
    requires IsRun(ts, steps) && n < |ts| && k in Surrogates(ts[n]) && ExecutedAt(ts[n], k).Some?
    requires forall i :: 0 <= i < |steps| && steps[i].Deliver? && steps[i].packet.to != ts[i].coordinator ==>
               BroadcastOk(Peers(Participants(ts[i]), steps[i].packet.to), steps[i].env)
    ensures Acked(ts, steps, n, k)
  {
    if n > 0 {
      RunInv(ts, steps, n - 1);
      ExecutedNow(ts[n - 1], steps[n - 1], k);
      if ExecutedAt(ts[n - 1], k).Some? {
        ExecutionIsAcked(ts, steps, n - 1, k);
      } else {
        assert AckedAt(ts[n - 1], steps[n - 1], k);
      }
    }
  }

  lemma ExecutedNow(t: Txn, step: Step, k: NodeId)
    requires Inv(t) && Enabled(t, step) && k in Surrogates(Apply(t, step)) && ExecutedAt(Apply(t, step), k).Some?
    ensures if ExecutedAt(t, k).Some? then k in Surrogates(t)
            else step.Deliver? && step.packet.to == k && step.packet.msg.PrepareMessage? && At(t, k).outcome.Running?
                 && k != t.coordinator
  {
    assert NodeInv(t, k) || t.data.None?;
    if step.Deliver? && step.packet.to == k && step.packet.msg.VoteMessage? {
      VoteAtOther(t, Apply(t, step), step.packet, step.env.finish);
    }
  }

  // ----- A coordinator that cannot be reached --------------------------------------------------

  const WORKS := ExecEnv(Ok, Ok, Ok, Ok)

  /** A delivery after which everybody can be reached but the coordinator. */
  function CutOff(t: Txn, p: Packet): Step {
    Deliver(p, Env(WORKS, Peers(Participants(t), p.to) - {t.coordinator}, true, PERFECT_FINISH))
  }

  /** The surrogate has executed and voted, and stays with a prepared transaction. */
  predicate Stranded(t: Txn, k: NodeId) {
    Stopped(t, k) && ExecutedAt(t, k) == Some(None) && PgAt(t, k).phase.Prepared?
  }

  ghost predicate LiveStranded(t: Txn) {
    forall k :: k in Surrogates(t) && Live(At(t, k)) ==> Stranded(t, k)
  }

  ghost predicate AllStranded(t: Txn) {
    Inv(t) && HealthyFor(t, {}) && t.coordinator in Participants(t) && LiveStranded(t)
  }

  lemma CutOffStrands(t: Txn, p: Packet)
    requires AllStranded(t) && p in t.net
    ensures AllStranded(Apply(t, CutOff(t, p)))
  {
    StepKeeps(t, CutOff(t, p));
    DeliveryHealthy(t, p, CutOff(t, p).env, {});
    if p.to in Surrogates(t) {
      if p.msg.PrepareMessage? && At(t, p.to).outcome.Running? {
        CutOffPrepare(t, p);
      } else {
        CutOffOther(t, p);
      }
    }
    StrandedElsewhere(t, Apply(t, CutOff(t, p)), p.to);
  }

  lemma StrandedElsewhere(t: Txn, t': Txn, k: NodeId)
    requires LiveStranded(t) && OnlyAt(t, t', k) && t'.data == t.data && t'.coordinator == t.coordinator
    requires k in Surrogates(t) && Live(At(t', k)) ==> Stranded(t', k)
    ensures LiveStranded(t')
  {
    forall j | j in Surrogates(t') && Live(At(t', j))
      ensures Stranded(t', j)
    {
      assert j != k ==> At(t', j) == At(t, j);
    }
  }

  lemma CutOffPrepare(t: Txn, p: Packet)
    requires AllStranded(t) && p in t.net && p.msg.PrepareMessage? && At(t, p.to).outcome.Running?
    ensures Stranded(Apply(t, CutOff(t, p)), p.to)
  {
    var e := CutOff(t, p).env;
    PrepareGives(t, p, e);
    assert t.coordinator in Peers(Participants(t), p.to) && t.coordinator !in e.reached;
    UnheardIsStranded(t, p, e);
    InitializedFrom(Start(t.coordinator, Participants(t), p.to), BufferedAt(t, p.to), e.exec);
  }

  lemma CutOffOther(t: Txn, p: Packet)
    requires AllStranded(t) && p in t.net && p.to in Surrogates(t)
    requires p.msg.VoteMessage? || !At(t, p.to).outcome.Running?
    ensures Live(At(Apply(t, CutOff(t, p)), p.to)) ==> Stranded(Apply(t, CutOff(t, p)), p.to)
  {
    if At(t, p.to).outcome.Running? {
      VoteAtOther(t, Apply(t, CutOff(t, p)), p, CutOff(t, p).env.finish);
    }
  }

  /** For every request there is a run in which the coordinator sends out everything and
      then cannot be reached, and nothing else goes wrong: all executions succeed, all
      votes are "yes", and every surrogate ends up stopped and undecided, with its
      transaction prepared. */
  lemma UnreachableCoordinatorBlocks(id: XactId, c: NodeId, data: seq<Byte>) returns (ts: seq<Txn>, steps: seq<Step>)
    requires ProperRequest(c, data)
    ensures CoordinatorFaultsOnly(ts, steps) && ts[0] == Idle(id, c) && ts[|steps|].data == Some(data)
    ensures ts[|steps|].net == multiset{}
    ensures forall k :: k in RwSetFormat.ParticipantsOf(data).value - {c} ==> Stranded(ts[|steps|], k)
    ensures RunWithin(ts, steps)
  {
    var idle, e := Idle(id, c), Env(WORKS, RwSetFormat.ParticipantsOf(data).value - {c}, true, PERFECT_FINISH);
    var t := Requested(id, c, data, e);
    CutOffDeals(data, c);
    assert StrandingKept(data, c)(t);
    ts, steps := Drain(t, StrandingKept(data, c), CutOff);
    assert StrandingKept(data, c)(ts[|steps|]);
    AllPrepared(ts[|steps|]);
    CutOffRun(idle, Begin(data, e), ts, steps);
    ts, steps := [idle] + ts, [Begin(data, e)] + steps;
  }

  ghost function StrandingKept(data: seq<Byte>, c: NodeId): Txn -> bool {
    (t: Txn) => AllStranded(t) && t.data == Some(data) && t.coordinator == c
  }

  lemma CutOffDeals(data: seq<Byte>, c: NodeId)
    ensures forall t, p :: Deals(t, p, StrandingKept(data, c), CutOff)
  {
    forall t, p
      ensures Deals(t, p, StrandingKept(data, c), CutOff)
    {
      if StrandingKept(data, c)(t) && p in t.net {
        CutOffStrands(t, p);
        Progress.DeliveryShrinks(t, p, CutOff(t, p).env);
      }
    }
  }

  lemma CutOffRun(t: Txn, begin: Step, ts: seq<Txn>, steps: seq<Step>)
    requires t == Idle(t.id, t.coordinator) && Enabled(t, begin) && OnlyCoordinatorFails(t, begin) && ReachesOnly(t, begin)
    requires IsPath(ts, steps) && ts[0] == Apply(t, begin)
    requires forall i :: 0 <= i < |steps| ==> Chosen(ts[i], steps[i], CutOff)
    ensures CoordinatorFaultsOnly([t] + ts, [begin] + steps) && RunWithin([t] + ts, [begin] + steps)
  {
    forall i | 0 <= i < |steps|
      ensures OnlyCoordinatorFails(ts[i], steps[i]) && ReachesOnly(ts[i], steps[i])
    {
      CutOffIsAllowed(ts[i], steps[i]);
    }
    RunFrom(t, begin, ts, steps, (u: Txn, step: Step) => OnlyCoordinatorFails(u, step) && ReachesOnly(u, step));
  }

  lemma CutOffIsAllowed(t: Txn, step: Step)
    requires Chosen(t, step, CutOff)
    ensures OnlyCoordinatorFails(t, step) && ReachesOnly(t, step)
  {
    var p := ChosenFor(t, step, CutOff);
  }

  /** A surrogate that has stopped stays as it is. */
  lemma StrandedForGood(t: Txn, step: Step, k: NodeId)
    requires Inv(t) && t.data.Some? && Enabled(t, step) && Stranded(t, k)
    ensures Stranded(Apply(t, step), k) && At(Apply(t, step), k) == At(t, k)
  {
  }

  // ----- A client hung up on, and what became of its transaction ----------------------------

  /** A run that begins with the given request. */
  ghost predicate RequestRun(ts: seq<Txn>, steps: seq<Step>, id: XactId, c: NodeId, data: seq<Byte>, e: Env) {
    IsRun(ts, steps) && |steps| > 0 && ts[0] == Idle(id, c) && steps[0] == Begin(data, e)
  }

  /** A coordinator that could not send everything, or was not told that all of it
      arrived, hangs up on its client at once. */
  lemma BroadcastFailureHangsUp(id: XactId, c: NodeId, data: seq<Byte>, e: Env)
    requires ProperRequest(c, data)
    ensures ClientSees(Apply(Idle(id, c), Begin(data, e))) ==
            if BroadcastOk(RwSetFormat.ParticipantsOf(data).value - {c}, e) then Kept else HungUp
  {
    LocalHandled(c, id, data, e);
  }

  lemma Requested(id: XactId, c: NodeId, data: seq<Byte>, e: Env) returns (t: Txn)
    requires ProperRequest(c, data) && RwSetFormat.ParticipantsOf(data).value - {c} <= e.reached
    ensures t == Apply(Idle(id, c), Begin(data, e)) && Inv(t) && HealthyFor(t, Surrogates(t)) && HealthyFor(t, {})
    ensures Surrogates(t) == RwSetFormat.ParticipantsOf(data).value - {c} && Ran(t, None)
    ensures t.actors.Keys == {c}
  {
    var idle := Idle(id, c);
    t := Apply(idle, Begin(data, e));
    StepKeeps(idle, Begin(data, e));
    SomeSurrogate(c, RwSetFormat.ParticipantsOf(data).value);
    BeginHealthy(idle, data, e, Surrogates(t));
    AC.BegunCoordinator(idle, data, e);
  }

  /** If every `Prepare` arrives, all surrogates can commit, whether or not the
      coordinator has hung up. */
  lemma CommitsAfterHangUp(id: XactId, c: NodeId, data: seq<Byte>, e: Env) returns (ts: seq<Txn>, steps: seq<Step>)
    requires ProperRequest(c, data) && RwSetFormat.ParticipantsOf(data).value - {c} <= e.reached
    ensures RequestRun(ts, steps, id, c, data, e)
    ensures forall k :: k in RwSetFormat.ParticipantsOf(data).value - {c} ==> StatusAt(ts[|steps|], k) == Committed
    ensures !e.acked ==> ClientSees(ts[|steps|]) == HungUp
    ensures ReachesOnly(ts[0], steps[0]) ==> RunWithin(ts, steps)
  {
    var idle, begin := Idle(id, c), Begin(data, e);
    var t := Requested(id, c, data, e);
    var ts', steps' := Completes(t, Surrogates(t), WORKS);
    EndIsAsRan(ts'[|steps'|], Surrogates(t), None);
    PathAfter(idle, begin, ts', steps');
    ts, steps := [idle] + ts', [begin] + steps';
    if !e.acked {
      BroadcastFailureHangsUp(id, c, data, e);
      AnswerLasts(ts, steps, 1, |steps|);
    }
  }

  lemma PathAfter(t: Txn, begin: Step, ts: seq<Txn>, steps: seq<Step>)
    requires t == Idle(t.id, t.coordinator) && Enabled(t, begin) && FaultFreePath(ts, steps) && ts[0] == Apply(t, begin)
    ensures IsRun([t] + ts, [begin] + steps)
    ensures ReachesOnly(t, begin) ==> RunWithin([t] + ts, [begin] + steps)
  {
    RunFrom(t, begin, ts, steps, (u: Txn, step: Step) => ReachesOnly(t, begin) ==> ReachesOnly(u, step));
  }

  /** Surrogate `j` does not know of the transaction and never will. */
  ghost predicate LeftOut(t: Txn, j: NodeId) {
    && t.data.Some? && j in Surrogates(t) && !Live(At(t, j))
    && forall p :: p in t.net && p.msg.PrepareMessage? ==> p.to != j
  }

  lemma LeftOutPut(t: Txn, p: Packet, h: Handled, j: NodeId)
    requires LeftOut(t, j) && (p.to == j ==> !Live(h.actor))
    requires forall q :: q in h.sent ==> q.msg.VoteMessage?
    ensures LeftOut(Put(t.(net := t.net - multiset{p}), p.to, h), j)
  {
  }

  lemma VoteWakesNobody(a: Actor, me: NodeId, id: XactId, msg: Message, e: Env)
    requires msg.VoteMessage? && !Live(a)
    ensures !Live(Receive(a, me, id, Remote(msg), e).actor)
  {
  }

  lemma LeftOutStays(t: Txn, step: Step, j: NodeId)
    requires Inv(t) && Enabled(t, step) && LeftOut(t, j)
    ensures LeftOut(Apply(t, step), j)
  {
    match step
    case Deliver(p, e) =>
      Progress.DeliverySends(t, p, e);
      if p.to == j {
        VoteWakesNobody(At(t, j), j, t.id, p.msg, e);
      }
      LeftOutPut(t, p, Receive(At(t, p.to), p.to, t.id, Remote(p.msg), e), j);
    case _ =>
  }

  lemma {:induction false} LeftOutLasts(ts: seq<Txn>, steps: seq<Step>, i: nat, j: NodeId)
    requires IsRun(ts, steps) && 0 < i < |ts| && LeftOut(ts[1], j)
    ensures LeftOut(ts[i], j)
  {
    if i > 1 {
      LeftOutLasts(ts, steps, i - 1, j);
      RunInv(ts, steps, i - 1);
      LeftOutStays(ts[i - 1], steps[i - 1], j);
    }
  }

  lemma NoneCommits(t: Txn, j: NodeId, k: NodeId)
    requires Inv(t) && LeftOut(t, j)
    ensures !StatusAt(t, k).Commits()
  {
    assert NodeInv(t, j);
    if StatusAt(t, k).Commits() {
      CommitNeedsAll(t, k, j);
    }
  }

  /** If some `Prepare` did not get out, no node commits at any time. */
  lemma NeverCommits(ts: seq<Txn>, steps: seq<Step>, id: XactId, c: NodeId, data: seq<Byte>, e: Env, i: nat, k: NodeId)
    requires ProperRequest(c, data) && RequestRun(ts, steps, id, c, data, e) && i < |ts|
    requires !(RwSetFormat.ParticipantsOf(data).value - {c} <= e.reached)
    ensures !StatusAt(ts[i], k).Commits()
  {
    if i > 0 {
      var j :| j in RwSetFormat.ParticipantsOf(data).value - {c} && j !in e.reached;
      BegunWithout(id, c, data, e, j);
      LeftOutLasts(ts, steps, i, j);
      RunInv(ts, steps, i);
      NoneCommits(ts[i], j, k);
    }
  }

  lemma BegunWithout(id: XactId, c: NodeId, data: seq<Byte>, e: Env, j: NodeId)
    requires ProperRequest(c, data) && j in RwSetFormat.ParticipantsOf(data).value - {c} && j !in e.reached
    ensures LeftOut(Apply(Idle(id, c), Begin(data, e)), j)
  {
    LocalHandled(c, id, data, e);
  }

  ghost predicate SomeCommit(ts: seq<Txn>) {
    exists i, k :: 0 <= i < |ts| && StatusAt(ts[i], k).Commits()
  }

  /** A failed broadcast of the request always costs the client its answer, but it keeps
      the transaction from being committed exactly if some `Prepare` did not arrive. */
  lemma HangUpMeansNoCommitExactlyIf(id: XactId, c: NodeId, data: seq<Byte>, e: Env)
    requires ProperRequest(c, data) && !BroadcastOk(RwSetFormat.ParticipantsOf(data).value - {c}, e)
    ensures ClientSees(Apply(Idle(id, c), Begin(data, e))) == HungUp
    ensures (forall ts, steps :: RequestRun(ts, steps, id, c, data, e) ==> !SomeCommit(ts))
            <==> !(RwSetFormat.ParticipantsOf(data).value - {c} <= e.reached)
  {
    BroadcastFailureHangsUp(id, c, data, e);
    if RwSetFormat.ParticipantsOf(data).value - {c} <= e.reached {
      var ts, steps := CommitsAfterHangUp(id, c, data, e);
      SomeSurrogate(c, RwSetFormat.ParticipantsOf(data).value);
      var k :| k in RwSetFormat.ParticipantsOf(data).value - {c};
      assert StatusAt(ts[|steps|], k).Commits();
    } else {
      forall ts, steps | RequestRun(ts, steps, id, c, data, e)
        ensures !SomeCommit(ts)
      {
        forall i, k | 0 <= i < |ts|
          ensures !StatusAt(ts[i], k).Commits()
        {
          NeverCommits(ts, steps, id, c, data, e, i, k);
        }
      }
    }
  }
}
