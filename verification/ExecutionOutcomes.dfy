/** How the calls that executions make decide a transaction: a commit anywhere means that
    all calls of all executions have worked, and a rollback anywhere names the first call
    that has not, at some surrogate. */
module ExecutionOutcomes {
  import opened Messages
  import opened Transitions
  import opened PgCalls
  import opened Transaction
  import opened TransactionSafety
  import opened TransactionLiveness
  import opened CoordinatorFailure
  import opened ActorProofs

  /** The step in which surrogate `j` executes. */
  predicate ExecutesAt(t: Txn, step: Step, j: NodeId) {
    step.Deliver? && step.packet.to == j && step.packet.msg.PrepareMessage? && At(t, j).outcome.Running?
  }

  lemma ExecutionIsRecorded(t: Txn, step: Step, j: NodeId)
    requires Inv(t) && Enabled(t, step) && ExecutesAt(t, step, j)
    ensures ExecutedAt(Apply(t, step), j) == Some(FailureOf(step.env.exec))
    ensures Live(At(Apply(t, step), j)) && ExecutedAt(t, j).None?
  {
    PrepareGives(t, step.packet, step.env);
    assert NodeInv(t, j) && PacketInv(t, step.packet) && Unseen(t, step.packet);
  }

  lemma RecordStays(t: Txn, step: Step, j: NodeId)
    requires Enabled(t, step) && !ExecutesAt(t, step, j)
    ensures ExecutedAt(Apply(t, step), j) == ExecutedAt(t, j)
  {
    match step
    case Begin(data, env) => OthersKeepLog(At(t, t.coordinator), t.coordinator, t.id, LocalXact(data), env);
    case Deliver(p, env) =>
      if p.to == j {
        OthersKeepLog(At(t, j), j, t.id, Remote(p.msg), env);
      }
    case Lose(_) =>
    case Stop(_) =>
  }

  /** Only `Prepare` makes a listening actor execute. */
  lemma OthersKeepLog(a: Actor, me: NodeId, id: XactId, input: Input, e: Env)
    requires a.outcome.Running? ==> input.LocalXact? || input.msg.VoteMessage?
    ensures Receive(a, me, id, input, e).actor.log == a.log
  {
  }

  lemma NextRecord(ts: seq<Txn>, steps: seq<Step>, i: nat, j: NodeId)
    requires IsRun(ts, steps) && i < |steps|
    ensures if ExecutesAt(ts[i], steps[i], j)
            then ExecutedAt(ts[i], j).None? && ExecutedAt(ts[i + 1], j) == Some(FailureOf(steps[i].env.exec))
            else ExecutedAt(ts[i + 1], j) == ExecutedAt(ts[i], j)
  {
    RunInv(ts, steps, i);
    if ExecutesAt(ts[i], steps[i], j) {
      ExecutionIsRecorded(ts[i], steps[i], j);
    } else {
      RecordStays(ts[i], steps[i], j);
    }
  }

  lemma NothingAtFirst(ts: seq<Txn>, steps: seq<Step>, j: NodeId)
    requires IsRun(ts, steps)
    ensures ExecutedAt(ts[0], j).None?
  {
  }

  /** What is on record of an execution is what its calls made of it. */
  lemma {:induction false} RecordComesFrom(ts: seq<Txn>, steps: seq<Step>, n: nat, j: NodeId) returns (i: nat)
    requires IsRun(ts, steps) && n < |ts| && ExecutedAt(ts[n], j).Some?
    ensures i < n && ExecutesAt(ts[i], steps[i], j) && ExecutedAt(ts[n], j) == Some(FailureOf(steps[i].env.exec))
  {
    NothingAtFirst(ts, steps, j);
    NextRecord(ts, steps, n - 1, j);
    if ExecutesAt(ts[n - 1], steps[n - 1], j) {
      i := n - 1;
    } else {
      i := RecordComesFrom(ts, steps, n - 1, j);
    }
  }

  lemma RecordLasts(ts: seq<Txn>, steps: seq<Step>, i: nat, n: nat, j: NodeId)
    requires IsRun(ts, steps) && i < n < |ts| && ExecutesAt(ts[i], steps[i], j)
    ensures ExecutedAt(ts[n], j) == Some(FailureOf(steps[i].env.exec))
  {
    var records := seq(|ts|, m requires 0 <= m < |ts| => ExecutedAt(ts[m], j));
    NextRecord(ts, steps, i, j);
    forall m | i + 1 <= m < n && records[m] == records[i + 1]
      ensures records[m + 1] == records[m]
    {
      NextRecord(ts, steps, m, j);
    }
    Frozen(records, i + 1, n);
  }

  // ----- Commits ---------------------------------------------------------------------------

  /** If a node decides to commit, every surrogate has executed before, and all four calls
      of its execution have worked. */
  lemma CommitMeansAllWorked(ts: seq<Txn>, steps: seq<Step>, n: nat, k: NodeId, j: NodeId) returns (i: nat)
    requires IsRun(ts, steps) && n < |ts| && StatusAt(ts[n], k).Commits() && j in Surrogates(ts[n])
    ensures i < n && ExecutesAt(ts[i], steps[i], j) && Works(steps[i].env.exec)
  {
    RunInv(ts, steps, n);
    CommitNeedsAll(ts[n], k, j);
    i := RecordComesFrom(ts, steps, n, j);
    ExecuteByCalls(NO_XACT, steps[i].env.exec);
  }

  /** If any call of any execution does not work, no node decides to commit, before or
      after it. */
  lemma FailedCallMeansNoCommit(ts: seq<Txn>, steps: seq<Step>, i: nat, j: NodeId, n: nat, k: NodeId)
    requires IsRun(ts, steps) && i < |steps| && n < |ts| && ExecutesAt(ts[i], steps[i], j) && !Works(steps[i].env.exec)
    ensures !StatusAt(ts[n], k).Commits()
  {
    ExecuteByCalls(NO_XACT, steps[i].env.exec);
    if StatusAt(ts[n], k).Commits() {
      var m := if n <= i then i + 1 else n;
      DecisionsLast(ts, steps, n, m, k);
      RecordLasts(ts, steps, i, m, j);
      RunInv(ts, steps, m);
      ExecutorsAreSurrogates(ts[m], j);
      CommitNeedsAll(ts[m], k, j);
    }
  }

  lemma ExecutorsAreSurrogates(t: Txn, j: NodeId)
    requires Inv(t) && ExecutedAt(t, j).Some?
    ensures j in Surrogates(t)
  {
    assert NodeInv(t, j);
  }

  // ----- Rollbacks -------------------------------------------------------------------------

  /** If a node rolls back, some surrogate has executed before, not all of its calls have
      worked, and the reason is that of the first that did not: of connecting, starting,
      preparing and validating, in this order. */
  lemma RollbackMeansFailedCall(ts: seq<Txn>, steps: seq<Step>, n: nat, k: NodeId) returns (i: nat, j: NodeId)
    requires IsRun(ts, steps) && n < |ts| && StatusAt(ts[n], k).RollsBack()
    ensures i < n && ExecutesAt(ts[i], steps[i], j) && !Works(steps[i].env.exec)
    ensures FailureOf(steps[i].env.exec) == Some(StatusAt(ts[n], k).info.reason)
  {
    RunInv(ts, steps, n);
    RollbackProvenance(ts[n], k);
    j :| j in Surrogates(ts[n]) && ExecutedAt(ts[n], j) == Some(Some(StatusAt(ts[n], k).info.reason));
    i := RecordComesFrom(ts, steps, n, j);
    ExecuteByCalls(NO_XACT, steps[i].env.exec);
  }

  /** Where only validations fail, and all for one reason, the client is told that reason,
      if it is told of a rollback at all. */
  lemma ValidationIsNamed(ts: seq<Txn>, steps: seq<Step>, n: nat, why: RollbackReason)
    requires IsRun(ts, steps) && n < |ts| && ClientSees(ts[n]).Told? && ClientSees(ts[n]).answer.Some?
    requires forall i, j :: 0 <= i < |steps| && ExecutesAt(ts[i], steps[i], j) ==>
               var e := steps[i].env.exec;
               e.connect.Ok? && e.start.Ok? && e.prepare.Ok? && (!e.validate.Ok? ==> e.validate.why == why)
    ensures ClientSees(ts[n]).answer.value.reason == why
  {
    RunInv(ts, steps, n);
    ClientAnswer(ts[n]);
    var i, j := RollbackMeansFailedCall(ts, steps, n, ts[n].coordinator);
  }

  // ----- Fault-free runs ---------------------------------------------------------------------

  /** At the end of a fault-free run every participant has committed exactly if the calls
      of all executions have worked. */
  lemma CommitsExactlyIfAllWork(ts: seq<Txn>, steps: seq<Step>, k: NodeId)
    requires IsFaultFree(ts, steps) && |steps| > 0 && ts[|steps|].net == multiset{} && k in Participants(ts[|steps|])
    ensures StatusAt(ts[|steps|], k).Terminal()
    ensures StatusAt(ts[|steps|], k) == Committed <==>
            forall i, j :: 0 <= i < |steps| && ExecutesAt(ts[i], steps[i], j) ==> Works(steps[i].env.exec)
  {
    FaultFreeRunDecides(ts, steps);
    if StatusAt(ts[|steps|], k) == Committed {
      forall i, j | 0 <= i < |steps| && ExecutesAt(ts[i], steps[i], j)
        ensures Works(steps[i].env.exec)
      {
        if !Works(steps[i].env.exec) {
          FailedCallMeansNoCommit(ts, steps, i, j, |steps|, k);
        }
      }
    } else {
      var i, j := RollbackMeansFailedCall(ts, steps, |steps|, k);
    }
  }

  // ----- Finishing -----------------------------------------------------------------------------

  /** How a surrogate gets to its terminal status: in a delivery during which it had a
      connection, and the command that finished its transaction was acknowledged. */
  predicate FinishedBy(t: Txn, t': Txn, step: Step, k: NodeId) {
    && step.Deliver? && step.packet.to == k && step.env.finish.connect.Ok?
    && (PgAt(t', k).phase.CommittedInPg? || PgAt(t', k).phase.RolledBackInPg? ==> step.env.finish.command.Ok?)
    && (StatusAt(t', k).Committed? ==> PgAt(t', k).phase.CommittedInPg?)
  }

  lemma FinishTakesCalls(a: Actor, e: FinishEnv)
    requires a.xact.Surrogate? && a.xact.state.controller.SurrogateController? && !a.xact.state.status.Terminal()
    requires a.xact.state.status.Committing? ==> a.xact.state.controller.pg.phase.Prepared?
    requires a.xact.state.controller.pg.phase.Prepared? || a.xact.state.controller.pg.phase.Absent?
    ensures var b := Finish(a, e);
            b.xact.Surrogate? && (b.xact.state.status.Terminal() ==>
              && e.connect.Ok?
              && (b.xact.state.status.Committed? ==> PgOf(b.xact).phase.CommittedInPg?)
              && (PgOf(b.xact).phase.CommittedInPg? || PgOf(b.xact).phase.RolledBackInPg? ==> e.command.Ok?))
  {
    var pg := a.xact.state.controller.pg;
    CommitByCalls(pg, e);
    if a.xact.state.status.Rollbacking? {
      RollbackByCalls(pg, a.xact.state.status.info, e);
    }
  }

  /** A surrogate whose `COMMIT PREPARED` or `ROLLBACK PREPARED` was not acknowledged has
      not finished in that step. */
  lemma FinishingTakesCalls(t: Txn, step: Step, k: NodeId)
    requires Inv(t) && t.data.Some? && Enabled(t, step) && k in Surrogates(t)
    requires !StatusAt(t, k).Terminal() && StatusAt(Apply(t, step), k).Terminal()
    ensures FinishedBy(t, Apply(t, step), step, k)
  {
    assert NodeInv(t, k);
    if step.Deliver? && step.packet.to == k && At(t, k).outcome.Running? {
      if step.packet.msg.PrepareMessage? {
        PrepareFinishes(t, step.packet, step.env);
      } else {
        VoteFinishes(t, step.packet, step.env);
      }
    }
  }

  lemma PrepareFinishes(t: Txn, p: Packet, e: Env)
    requires Inv(t) && p in t.net && p.msg.PrepareMessage? && At(t, p.to).outcome.Running?
    requires StatusAt(Apply(t, Deliver(p, e)), p.to).Terminal()
    ensures FinishedBy(t, Apply(t, Deliver(p, e)), Deliver(p, e), p.to)
  {
    PrepareGives(t, p, e);
    var d := Decided(t.coordinator, Participants(t), p.to, BufferedAt(t, p.to), e.exec);
    DecidedInv(t.coordinator, Participants(t), p.to, BufferedAt(t, p.to), e.exec);
    FinishTakesCalls(d, e.finish);
    assert BroadcastOk(Peers(Participants(t), p.to), e);
    assert At(Apply(t, Deliver(p, e)), p.to) == Finish(d, e.finish);
  }

  lemma VoteFinishes(t: Txn, p: Packet, e: Env)
    requires Inv(t) && p in t.net && p.msg.VoteMessage? && p.to in Surrogates(t) && At(t, p.to).outcome.Running?
    requires StatusAt(Apply(t, Deliver(p, e)), p.to).Terminal()
    ensures FinishedBy(t, Apply(t, Deliver(p, e)), Deliver(p, e), p.to)
  {
    var k, a, v := p.to, At(t, p.to), Vote(p.msg.from, p.msg.reason);
    assert NodeInv(t, k) && PacketInv(t, p) && Unseen(t, p);
    CountVote(t.coordinator, Participants(t), k, a, v);
    var b := a.(xact := Surrogate(AddVote(a.xact.state, v)));
    FinishTakesCalls(b, e.finish);
    assert At(Apply(t, Deliver(p, e)), k) == Finish(b, e.finish);
  }
}
