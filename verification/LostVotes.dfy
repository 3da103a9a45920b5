/** Votes that do not come: a participant waits exactly as long as some other surrogate's
    vote is missing, and with nothing under way any more it waits for good. */
module LostVotes {
  import opened Messages
  import opened Transitions
  import opened Transaction
  import opened TransactionProofs
  import opened TransactionSafety
  import opened TransactionPaths
  import opened TransactionLiveness
  import opened CoordinatorFailure
  import opened ActorProofs
  import Progress = TransactionProgress
  import RwSetFormat

  /** Participant `k` does not know how surrogate `j` votes, nor of any rollback. */
  ghost predicate Unheard(t: Txn, k: NodeId, j: NodeId) {
    j in Surrogates(t) && j != k && !Heard(t, k, j)
  }

  /** A participant that has executed, or sent out the request, waits exactly if some
      surrogate is still to be heard, unless it knows of a "no". */
  lemma WaitsExactlyIfUnheard(t: Txn, k: NodeId)
    requires Inv(t) && t.data.Some? && k in Participants(t) && Live(At(t, k))
    ensures StatusAt(t, k).Waiting? <==> exists j :: Unheard(t, k, j)
  {
    assert NodeInv(t, k);
    if exists j :: Unheard(t, k, j) {
      var j :| Unheard(t, k, j);
      assert j in Participants(t) && j !in CountedAt(t, k);
    } else {
      forall j | j in Surrogates(t) && j != k
        ensures Heard(t, k, j)
      {
        assert !Unheard(t, k, j);
      }
      HeardAllDecides(t, k);
    }
  }

  // ----- With nothing under way ----------------------------------------------------------

  lemma NextQuiet(ts: seq<Txn>, steps: seq<Step>, i: nat, k: NodeId)
    requires IsRun(ts, steps) && i < |steps| && ts[i].data.Some? && ts[i].net == multiset{}
    ensures steps[i].Stop? && ts[i + 1].net == multiset{} && ts[i + 1].data == ts[i].data
    ensures At(ts[i + 1], k).xact == At(ts[i], k).xact
  {
  }

  /** Once nothing is under way, actors can only be cancelled: no participant ever gets
      any further. */
  lemma QuietForGood(ts: seq<Txn>, steps: seq<Step>, i: nat, j: nat, k: NodeId)
    requires IsRun(ts, steps) && i <= j < |ts| && ts[i].data.Some? && ts[i].net == multiset{}
    ensures ts[j].net == multiset{} && At(ts[j], k).xact == At(ts[i], k).xact
    ensures j < |steps| ==> steps[j].Stop?
  {
    var states := seq(|ts|, m requires 0 <= m < |ts| => (ts[m].data, ts[m].net, At(ts[m], k).xact));
    forall m | i <= m < j && states[m] == states[i]
      ensures states[m + 1] == states[m]
    {
      NextQuiet(ts, steps, m, k);
    }
    Frozen(states, i, j);
    if j < |steps| {
      NextQuiet(ts, steps, j, k);
    }
  }

  /** So a participant that has not heard some surrogate when nothing is under way any
      more never finishes, and a coordinator never answers its client. */
  lemma UnheardWaitsForGood(ts: seq<Txn>, steps: seq<Step>, i: nat, j: nat, k: NodeId)
    requires IsRun(ts, steps) && i <= j < |ts| && ts[i].data.Some? && ts[i].net == multiset{}
    requires k in Participants(ts[i]) && Live(At(ts[i], k)) && exists m :: Unheard(ts[i], k, m)
    ensures StatusAt(ts[j], k).Waiting?
    ensures k == ts[j].coordinator ==> !ClientSees(ts[j]).Told?
  {
    RunInv(ts, steps, i);
    RunInv(ts, steps, j);
    WaitsExactlyIfUnheard(ts[i], k);
    QuietForGood(ts, steps, i, j, k);
    if ts[j].data.Some? {
      ClientSeesEnd(ts[j]);
    }
  }

  // ----- One lost vote -------------------------------------------------------------------

  /** The loss of the vote of `j` to the coordinator. */
  predicate LosesVote(t: Txn, step: Step, j: NodeId) {
    step.Lose? && step.packet.to == t.coordinator && step.packet.msg.VoteMessage? && step.packet.msg.from == j
  }

  function ButOne(j: NodeId): (Txn, Packet) -> Step {
    (t: Txn, p: Packet) =>
      if p.to == t.coordinator && p.msg.VoteMessage? && p.msg.from == j then Lose(p) else Smooth(t, p, WORKS)
  }

  /** The coordinator listens, and has not counted the vote of `j`. */
  predicate Misses(t: Txn, j: NodeId) {
    var a := At(t, t.coordinator);
    a.xact.Local? && a.outcome.Running? && j !in CountedAt(t, t.coordinator)
  }

  ghost predicate MissingKept(t: Txn, j: NodeId) {
    && Inv(t) && t.data.Some? && t.coordinator in Participants(t)
    && HealthyFor(t, Surrogates(t)) && Ran(t, None) && j in Surrogates(t) && Misses(t, j)
  }

  lemma VoteLeavesWaiting(a: Actor, v: Vote, e: FinishEnv)
    requires a.xact.Local? && a.outcome.Running? && a.xact.state.status.Waiting?
    ensures var b := HandleVote(a, v, e);
            && b.xact.Local? && b.xact.state.voted <= a.xact.state.voted + {v.from}
            && (b.xact.state.status.Waiting? ==> b.outcome.Running?)
  {
  }

  lemma NobodyRollsBack(t: Txn, k: NodeId)
    requires Inv(t) && Ran(t, None)
    ensures !StatusAt(t, k).RollsBack()
  {
    if StatusAt(t, k).RollsBack() {
      RollbackProvenance(t, k);
    }
  }

  lemma OtherVoteMissesToo(t: Txn, p: Packet, j: NodeId)
    requires MissingKept(t, j) && p in t.net && p.to == t.coordinator && p.msg.VoteMessage? && p.msg.from != j
    requires var t' := Apply(t, Smooth(t, p, WORKS)); Inv(t') && Ran(t', None)
    ensures Misses(Apply(t, Smooth(t, p, WORKS)), j)
  {
    var c, t' := t.coordinator, Apply(t, Smooth(t, p, WORKS));
    assert NodeInv(t, c);
    VoteLeavesWaiting(At(t, c), Vote(p.msg.from, p.msg.reason), PERFECT_FINISH);
    NobodyRollsBack(t', c);
    assert NodeInv(t', c);
  }

  lemma SmoothMisses(t: Txn, p: Packet, j: NodeId)
    requires MissingKept(t, j) && p in t.net && !LosesVote(t, Lose(p), j)
    ensures MissingKept(Apply(t, Smooth(t, p, WORKS)), j)
    ensures Apply(t, Smooth(t, p, WORKS)).data == t.data
  {
    SmoothStep(t, Surrogates(t), p, WORKS);
    assert PacketInv(t, p);
    if p.to == t.coordinator {
      OtherVoteMissesToo(t, p, j);
    }
  }

  lemma LossMisses(t: Txn, p: Packet, j: NodeId)
    requires MissingKept(t, j) && p in t.net && p.to == t.coordinator
    ensures MissingKept(Apply(t, Lose(p)), j)
  {
    StepKeeps(t, Lose(p));
    LossHealthy(t, p, Surrogates(t));
    RanStays(t, Apply(t, Lose(p)), p.to, None);
  }

  ghost function Missing(data: seq<Byte>, c: NodeId, j: NodeId): Txn -> bool {
    (t: Txn) => MissingKept(t, j) && t.data == Some(data) && t.coordinator == c
  }

  lemma LossDeals(t: Txn, p: Packet, data: seq<Byte>, c: NodeId, j: NodeId)
    requires Missing(data, c, j)(t) && p in t.net && LosesVote(t, Lose(p), j)
    ensures Deals(t, p, Missing(data, c, j), ButOne(j))
  {
    LossMisses(t, p, j);
    Progress.LossShrinks(t, p);
    DealWith(t, p, Lose(p), Missing(data, c, j), ButOne(j));
  }

  lemma SmoothVoteDeals(t: Txn, p: Packet, data: seq<Byte>, c: NodeId, j: NodeId)
    requires Missing(data, c, j)(t) && p in t.net && !LosesVote(t, Lose(p), j)
    ensures Deals(t, p, Missing(data, c, j), ButOne(j))
  {
    SmoothMisses(t, p, j);
    Progress.DeliveryShrinks(t, p, Smooth(t, p, WORKS).env);
    DealWith(t, p, Smooth(t, p, WORKS), Missing(data, c, j), ButOne(j));
  }

  lemma ButOneDeals(keeps: Txn -> bool, data: seq<Byte>, c: NodeId, j: NodeId)
    requires keeps == Missing(data, c, j)
    ensures forall t, p :: Deals(t, p, keeps, ButOne(j))
  {
    forall t, p
      ensures Deals(t, p, keeps, ButOne(j))
    {
      if keeps(t) && p in t.net {
        if LosesVote(t, Lose(p), j) {
          LossDeals(t, p, data, c, j);
        } else {
          SmoothVoteDeals(t, p, data, c, j);
        }
      }
    }
  }

  /** What the run below consists of. */
  predicate FaultFreeButOne(t: Txn, step: Step, j: NodeId) {
    (FaultFree(t, step) || LosesVote(t, step, j)) && ReachesOnly(t, step)
  }

  lemma ButOneIsAllowed(t: Txn, step: Step, j: NodeId)
    requires Chosen(t, step, ButOne(j))
    ensures FaultFreeButOne(t, step, j)
  {
    var p := ChosenFor(t, step, ButOne(j));
  }

  lemma BegunMisses(idle: Txn, begin: Step, j: NodeId)
    requires idle == Idle(idle.id, idle.coordinator) && begin.Begin? && FaultFree(idle, begin)
    requires j in RwSetFormat.ParticipantsOf(begin.data).value - {idle.coordinator}
    ensures Enabled(idle, begin) && MissingKept(Apply(idle, begin), j)
    ensures Apply(idle, begin).data == Some(begin.data) && Apply(idle, begin).coordinator == idle.coordinator
  {
    var t := Requested(idle.id, idle.coordinator, begin.data, begin.env);
    LocalHandled(idle.coordinator, idle.id, begin.data, begin.env);
  }

  /** For every request and every surrogate there is a run in which nothing goes wrong but
      that the surrogate's vote to the coordinator is lost: all surrogates commit, and the
      coordinator waits, with nothing under way any more, and keeps its client waiting. */
  lemma LostVoteKeepsWaiting(id: XactId, c: NodeId, data: seq<Byte>, j: NodeId) returns (ts: seq<Txn>, steps: seq<Step>)
    requires ProperRequest(c, data) && j in RwSetFormat.ParticipantsOf(data).value - {c}
    ensures RunWithin(ts, steps) && ts[0] == Idle(id, c) && ts[|steps|].data == Some(data)
    ensures forall i :: 0 <= i < |steps| ==> FaultFree(ts[i], steps[i]) || LosesVote(ts[i], steps[i], j)
    ensures ts[|steps|].net == multiset{} && ClientSees(ts[|steps|]) == Kept
    ensures forall k :: k in RwSetFormat.ParticipantsOf(data).value - {c} ==> StatusAt(ts[|steps|], k) == Committed
    ensures Unheard(ts[|steps|], c, j) && StatusAt(ts[|steps|], c).Waiting?
  {
    var idle := Idle(id, c);
    var begin := Begin(data, Env(WORKS, RwSetFormat.ParticipantsOf(data).value - {c}, true, PERFECT_FINISH));
    BegunMisses(idle, begin, j);
    ts, steps := ButOnePath(Apply(idle, begin), j);
    MissingEnd(ts[|steps|], j);
    ts, steps := ButOneRun(idle, begin, ts, steps, j);
  }

  lemma ButOnePath(t: Txn, j: NodeId) returns (ts: seq<Txn>, steps: seq<Step>)
    requires MissingKept(t, j)
    ensures IsPath(ts, steps) && ts[0] == t && ts[|steps|].net == multiset{} && MissingKept(ts[|steps|], j)
    ensures ts[|steps|].data == t.data && ts[|steps|].coordinator == t.coordinator
    ensures forall i :: 0 <= i < |steps| ==> Chosen(ts[i], steps[i], ButOne(j))
  {
    var keeps := Missing(t.data.value, t.coordinator, j);
    ButOneDeals(keeps, t.data.value, t.coordinator, j);
    assert keeps(t);
    ts, steps := Drain(t, keeps, ButOne(j));
    assert keeps(ts[|steps|]);
  }

  lemma ButOneRun(t: Txn, begin: Step, ts: seq<Txn>, steps: seq<Step>, j: NodeId) returns (ts': seq<Txn>, steps': seq<Step>)
    requires t == Idle(t.id, t.coordinator) && Enabled(t, begin) && FaultFreeButOne(t, begin, j)
    requires IsPath(ts, steps) && ts[0] == Apply(t, begin)
    requires forall i :: 0 <= i < |steps| ==> Chosen(ts[i], steps[i], ButOne(j))
    ensures RunWithin(ts', steps') && ts'[0] == t && ts'[|steps'|] == ts[|steps|]
    ensures forall i :: 0 <= i < |steps'| ==> FaultFree(ts'[i], steps'[i]) || LosesVote(ts'[i], steps'[i], j)
  {
    forall i | 0 <= i < |steps|
      ensures FaultFreeButOne(ts[i], steps[i], j)
    {
      ButOneIsAllowed(ts[i], steps[i], j);
    }
    ts', steps' := [t] + ts, [begin] + steps;
    RunFrom(t, begin, ts, steps, (u: Txn, step: Step) => FaultFreeButOne(u, step, j));
  }

  lemma MissingEnd(t: Txn, j: NodeId)
    requires MissingKept(t, j) && t.net == multiset{} && RwSetFormat.ParticipantsOf(t.data.value).Some?
    ensures ClientSees(t) == Kept && StatusAt(t, t.coordinator).Waiting? && Unheard(t, t.coordinator, j)
    ensures forall k :: k in RwSetFormat.ParticipantsOf(t.data.value).value - {t.coordinator} ==> StatusAt(t, k) == Committed
  {
    EndIsAsRan(t, Surrogates(t), None);
    assert Surrogates(t) == RwSetFormat.ParticipantsOf(t.data.value).value - {t.coordinator};
    ClientSeesEnd(t);
    NobodyRollsBack(t, t.coordinator);
    assert NodeInv(t, t.coordinator);
  }
}
