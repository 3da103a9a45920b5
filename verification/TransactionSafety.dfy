/** What the protocol guarantees for one transaction in every run, whatever is lost,
    delayed, reordered, refused or cancelled. */
module TransactionSafety {
  import opened Messages
  import opened Transitions
  import opened Transaction
  import opened TransactionProofs
  import opened ActorProofs
  import Ids
  import RwSetFormat
  import RwSetRoundTrip

  /** A run: states and the steps between them, from the state before the request. */
  ghost predicate IsRun(ts: seq<Txn>, steps: seq<Step>) {
    && |ts| == |steps| + 1
    && ts[0] == Idle(ts[0].id, ts[0].coordinator)
    && forall i :: 0 <= i < |steps| ==> Enabled(ts[i], steps[i]) && ts[i + 1] == Apply(ts[i], steps[i])
  }

  lemma {:induction false} RunInv(ts: seq<Txn>, steps: seq<Step>, i: nat)
    requires IsRun(ts, steps) && i < |ts|
    ensures Inv(ts[i])
  {
    if i > 0 {
      RunInv(ts, steps, i - 1);
      StepKeeps(ts[i - 1], steps[i - 1]);
    }
  }

  // ----- Agreement -------------------------------------------------------------------

  /** A node that decided to commit has seen every surrogate vote "yes". */
  lemma CommitNeedsAll(t: Txn, a: NodeId, j: NodeId)
    requires Inv(t) && StatusAt(t, a).Commits() && j in Surrogates(t)
    ensures ExecutedAt(t, j) == Some(None)
    ensures j != a ==> VerdictAt(t, j) == Some(None)
  {
    assert NodeInv(t, a);
    if j != a {
      assert j in CountedAt(t, a);
      assert Authentic(t, Vote(j, None)) && NodeInv(t, j);
    }
  }

  /** A node that rolls back blames a surrogate that failed itself, if it blames
      itself, and a surrogate that voted "no" otherwise. */
  lemma RollbackNeedsOne(t: Txn, b: NodeId)
    requires Inv(t) && StatusAt(t, b).RollsBack()
    ensures var info := StatusAt(t, b).info;
            && info.origin in Surrogates(t)
            && if info.origin == b then ExecutedAt(t, b) == Some(Some(info.reason))
               else VerdictAt(t, info.origin) == Some(Some(info.reason)) && StatusAt(t, info.origin).RollsBack()
  {
    assert NodeInv(t, b);
    var info := StatusAt(t, b).info;
    if info.origin != b {
      assert Authentic(t, Vote(info.origin, Some(info.reason)));
      assert NodeInv(t, info.origin);
    }
  }

  /** No two nodes decide differently. */
  lemma Agreement(t: Txn, a: NodeId, b: NodeId)
    requires Inv(t)
    ensures !(StatusAt(t, a).Commits() && StatusAt(t, b).RollsBack())
  {
    if StatusAt(t, a).Commits() && StatusAt(t, b).RollsBack() {
      RollbackNeedsOne(t, b);
      CommitNeedsAll(t, a, StatusAt(t, b).info.origin);
    }
  }

  /** An actor that has decided is out of reach of every later step. */
  lemma DecisionsStand(t: Txn, step: Step, k: NodeId)
    requires Inv(t) && Enabled(t, step)
    requires StatusAt(t, k).Commits() || StatusAt(t, k).RollsBack()
    ensures At(Apply(t, step), k) == At(t, k)
  {
    assert NodeInv(t, k);
    assert !At(t, k).outcome.Running?;
  }

  lemma DecisionsStandNext(ts: seq<Txn>, steps: seq<Step>, i: nat, k: NodeId)
    requires IsRun(ts, steps) && i < |steps|
    requires StatusAt(ts[i], k).Commits() || StatusAt(ts[i], k).RollsBack()
    ensures At(ts[i + 1], k) == At(ts[i], k)
  {
    RunInv(ts, steps, i);
    DecisionsStand(ts[i], steps[i], k);
  }

  lemma DecisionsLast(ts: seq<Txn>, steps: seq<Step>, i: nat, j: nat, k: NodeId)
    requires IsRun(ts, steps) && i <= j < |ts|
    requires StatusAt(ts[i], k).Commits() || StatusAt(ts[i], k).RollsBack()
    ensures At(ts[j], k) == At(ts[i], k)
  {
    var actors := seq(|ts|, m requires 0 <= m < |ts| => At(ts[m], k));
    forall m | i <= m < j && actors[m] == actors[i]
      ensures actors[m + 1] == actors[m]
    {
      DecisionsStandNext(ts, steps, m, k);
    }
    Frozen(actors, i, j);
  }

  lemma {:induction false} Frozen<T>(xs: seq<T>, i: nat, j: nat)
    requires i <= j < |xs| && forall m :: i <= m < j && xs[m] == xs[i] ==> xs[m + 1] == xs[m]
    ensures xs[j] == xs[i]
    decreases j
  {
    if i < j {
      Frozen(xs, i, j - 1);
    }
  }

  /** If some node commits at some time, no node rolls back at any time. */
  lemma AgreementInRuns(ts: seq<Txn>, steps: seq<Step>, i: nat, a: NodeId, j: nat, b: NodeId)
    requires IsRun(ts, steps) && i < |ts| && j < |ts|
    ensures !(StatusAt(ts[i], a).Commits() && StatusAt(ts[j], b).RollsBack())
  {
    if StatusAt(ts[i], a).Commits() && StatusAt(ts[j], b).RollsBack() {
      var m := if i <= j then j else i;
      DecisionsLast(ts, steps, i, m, a);
      DecisionsLast(ts, steps, j, m, b);
      RunInv(ts, steps, m);
      Agreement(ts[m], a, b);
    }
  }

  /** All nodes that take part count votes against the same participant set, that of the
      client's request. */
  lemma SameParticipants(t: Txn, a: NodeId, b: NodeId)
    requires Inv(t) && Live(At(t, a)) && Live(At(t, b))
    ensures At(t, a).xact.state.participants == At(t, b).xact.state.participants == Participants(t)
  {
    assert NodeInv(t, a) && NodeInv(t, b);
  }

  // ----- Durability, validity, no residue ----------------------------------------------

  function PgAt(t: Txn, k: NodeId): PgXact { PgOf(At(t, k).xact) }

  /** Once any node has decided to commit, every surrogate's Postgres holds the
      transaction, prepared or committed. */
  lemma CommitDurability(t: Txn, a: NodeId, j: NodeId)
    requires Inv(t) && StatusAt(t, a).Commits() && j in Surrogates(t)
    ensures PgAt(t, j).phase.Prepared? || PgAt(t, j).phase.CommittedInPg?
    ensures ExecutedAt(t, j) == Some(None)
  {
    CommitNeedsAll(t, a, j);
    Agreement(t, a, j);
    assert NodeInv(t, j);
  }

  /** A rollback anywhere goes back to a surrogate whose own execution failed. */
  lemma RollbackProvenance(t: Txn, k: NodeId)
    requires Inv(t) && StatusAt(t, k).RollsBack()
    ensures exists m :: m in Surrogates(t) && ExecutedAt(t, m) == Some(Some(StatusAt(t, k).info.reason))
  {
    assert NodeInv(t, k);
  }

  /** `COMMIT PREPARED` is sent at most once and only for a prepared transaction; a
      finished surrogate leaves nothing prepared. */
  lemma NoResidue(t: Txn, k: NodeId)
    requires Inv(t)
    ensures PgAt(t, k).commits <= 1 && PgAt(t, k).invalid == 0
    ensures PgAt(t, k).commits == 1 ==> StatusAt(t, k).Commits()
    ensures StatusAt(t, k).Terminal() ==> !PgAt(t, k).phase.Prepared?
    ensures At(t, k).xact.Surrogate? && StatusAt(t, k).Committed? ==> PgAt(t, k).phase.CommittedInPg?
    ensures StatusAt(t, k).Rollbacked? && ExecutedAt(t, k) == Some(None) ==> PgAt(t, k).phase.RolledBackInPg?
  {
    if t.data.Some? {
      assert NodeInv(t, k);
    }
  }

  // ----- The client's answer -----------------------------------------------------------

  function ReplyAt(t: Txn): Reply {
    var a := At(t, t.coordinator);
    if a.xact.Local? && a.xact.state.controller.LocalController? then a.xact.state.controller.reply else Pending
  }

  /** The client is told of a commit exactly when the coordinator committed, and of a
      rollback, with its reason, exactly when the coordinator rolled back for it. */
  lemma ClientAnswer(t: Txn)
    requires Inv(t)
    ensures ReplyAt(t) == Answered(None) <==> StatusAt(t, t.coordinator) == Committed
    ensures forall info :: ReplyAt(t) == Answered(Some(info)) <==> StatusAt(t, t.coordinator) == Rollbacked(info)
    ensures ReplyAt(t).Answered? && ReplyAt(t).answer.Some? ==> ReplyAt(t).answer.value.origin in Surrogates(t)
  {
    if t.data.Some? {
      AnswerFollowsStatus(t);
      if StatusAt(t, t.coordinator).RollsBack() {
        RollbackNeedsOne(t, t.coordinator);
      }
    }
  }

  lemma AnswerFollowsStatus(t: Txn)
    requires Inv(t) && t.data.Some?
    ensures ReplyInv(StatusAt(t, t.coordinator), ReplyAt(t))
  {
    assert NodeInv(t, t.coordinator);
  }

  /** The one-shot reply is used at most once: once used, it never changes. */
  lemma AnswerOnce(t: Txn, step: Step)
    requires Inv(t) && Enabled(t, step) && !ReplyAt(t).Pending?
    ensures ReplyAt(Apply(t, step)) == ReplyAt(t)
  {
    assert NodeInv(t, t.coordinator);
    DecisionsStand(t, step, t.coordinator);
  }

  /** What the client's side of the one-shot channel shows: nothing yet, that the sender
      is gone, or the answer. The sender goes with the coordinator's actor. */
  datatype ClientView = Kept | HungUp | Told(answer: Option<RollbackInfo>)

  function ClientSees(t: Txn): ClientView {
    if ReplyAt(t).Answered? then Told(ReplyAt(t).answer)
    else if t.data.Some? && !At(t, t.coordinator).outcome.Running? then HungUp
    else Kept
  }

  /** The client is kept waiting exactly as long as the coordinator listens; when that is
      over, it has its answer if the coordinator finished, and none otherwise. */
  lemma ClientSeesEnd(t: Txn)
    requires Inv(t) && t.data.Some?
    ensures ClientSees(t) == Kept <==> At(t, t.coordinator).outcome.Running?
    ensures ClientSees(t).Told? <==> StatusAt(t, t.coordinator).Terminal()
  {
    assert NodeInv(t, t.coordinator);
  }

  /** What the client sees is final. */
  lemma ClientSeesOnce(t: Txn, step: Step)
    requires Inv(t) && Enabled(t, step) && ClientSees(t) != Kept
    ensures ClientSees(Apply(t, step)) == ClientSees(t)
  {
    assert NodeInv(t, t.coordinator);
    assert At(Apply(t, step), t.coordinator) == At(t, t.coordinator);
  }

  lemma ClientSeesOnceNext(ts: seq<Txn>, steps: seq<Step>, i: nat)
    requires IsRun(ts, steps) && i < |steps| && ClientSees(ts[i]) != Kept
    ensures ClientSees(ts[i + 1]) == ClientSees(ts[i])
  {
    RunInv(ts, steps, i);
    ClientSeesOnce(ts[i], steps[i]);
  }

  /** In a run the client is answered, or hung up on, once and for all. */
  lemma AnswerLasts(ts: seq<Txn>, steps: seq<Step>, i: nat, j: nat)
    requires IsRun(ts, steps) && i <= j < |ts| && ClientSees(ts[i]) != Kept
    ensures ClientSees(ts[j]) == ClientSees(ts[i])
  {
    var views := seq(|ts|, m requires 0 <= m < |ts| => ClientSees(ts[m]));
    forall m | i <= m < j && views[m] == views[i]
      ensures views[m + 1] == views[m]
    {
      ClientSeesOnceNext(ts, steps, m);
    }
    Frozen(views, i, j);
  }

  // ----- Panics ----------------------------------------------------------------------

  /** No actor ever reaches an `unreachable!()` arm, and no status assertion fails but
      that of a coordinator which is the only participant. */
  lemma Panics(t: Txn, k: NodeId)
    requires Inv(t)
    ensures !At(t, k).outcome.Unreachable?
    ensures At(t, k).outcome.AssertFailed? ==> k == t.coordinator && Participants(t) == {k}
  {
    if t.data.Some? {
      assert NodeInv(t, k);
    }
  }

  /** The status assertion of the coordinator fails exactly on a request whose only
      participant is the coordinator, */
  lemma AssertionTrips(t: Txn, data: seq<Byte>, e: Env)
    requires Inv(t) && t.data.None?
    ensures At(Apply(t, Begin(data, e)), t.coordinator).outcome.AssertFailed?
            <==> RwSetFormat.ParticipantsOf(data) == Some({t.coordinator})
  {
    LocalHandled(t.coordinator, t.id, data, e);
  }

  /** and there are such requests: a read/write set without relations will do. */
  lemma AssertionCanTrip(c: NodeId, e: Env) returns (data: seq<Byte>)
    requires c < 64
    ensures At(Apply(Idle(Ids.New(1, c), c), Begin(data, e)), c).outcome.AssertFailed?
  {
    var x := RwSetRoundTrip.RwSet(0, {c}, []);
    data := RwSetRoundTrip.Encode(x, [], []);
    assert RwSetRoundTrip.SectionSize([]) == 0;
    RwSetRoundTrip.WordsArePowers();
    RwSetRoundTrip.HeadRoundTrip(x, [], []);
    AssertionTrips(Idle(Ids.New(1, c), c), data, e);
  }
}
