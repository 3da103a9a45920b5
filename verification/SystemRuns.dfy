/** Runs of the whole system, and the guarantees of each of its transactions. */
module SystemRuns {
  import opened Messages
  import opened Transitions
  import opened Transaction
  import opened TransactionProofs
  import opened TransactionSafety
  import opened System
  import Liveness = TransactionLiveness
  import Progress = TransactionProgress
  import AC = AtomicCommit
  import PgCalls
  import Outcomes = ExecutionOutcomes
  import Bits
  import Ids

  // ----- Every reachable state ----------------------------------------------------------

  lemma StartInv(n: nat)
    requires n <= Bits.U32_LIMIT
    ensures SysInv(Start(n))
  {
    forall id
      ensures Inv(View(Start(n), id))
    {
      assert ActorsOf(Start(n), id) == map[];
      assert View(Start(n), id) == Idle(id, Ids.Node(id));
    }
  }

  lemma NumberingKept(s: System, step: SysStep)
    requires SysInv(s) && Possible(s, step)
    ensures WellNumbered(Take(s, step))
  {
    if step.Request? {
      var k := step.node;
      FreshId(s, k);
      NextId(s.servers[k].counter, k);
    }
  }

  lemma SysStepKeeps(s: System, step: SysStep)
    requires SysInv(s) && Possible(s, step)
    ensures SysInv(Take(s, step))
  {
    NumberingKept(s, step);
    forall id
      ensures Inv(View(Take(s, step), id))
    {
      StepProjects(s, step, id);
      if StepOf(s, step, id).Some? {
        StepKeeps(View(s, id), StepOf(s, step, id).value);
      }
    }
  }

  ghost predicate IsSysRun(ss: seq<System>, steps: seq<SysStep>) {
    && |ss| == |steps| + 1
    && |ss[0].servers| <= Bits.U32_LIMIT && ss[0] == Start(|ss[0].servers|)
    && forall i :: 0 <= i < |steps| ==> Possible(ss[i], steps[i]) && ss[i + 1] == Take(ss[i], steps[i])
  }

  lemma {:induction false} SysRunInv(ss: seq<System>, steps: seq<SysStep>, i: nat)
    requires IsSysRun(ss, steps) && i < |ss|
    ensures SysInv(ss[i])
  {
    if i == 0 {
      StartInv(|ss[0].servers|);
    } else {
      SysRunInv(ss, steps, i - 1);
      SysStepKeeps(ss[i - 1], steps[i - 1]);
    }
  }

  // ----- Projection of runs ---------------------------------------------------------------

  function Listed<T>(o: Option<T>): seq<T> {
    if o.Some? then [o.value] else []
  }

  /** The steps of the run before state `n` that are for transaction `id`, in order. */
  ghost function Moves(ss: seq<System>, steps: seq<SysStep>, id: XactId, n: nat): seq<Step>
    requires IsSysRun(ss, steps) && n < |ss|
  {
    if n == 0 then [] else Moves(ss, steps, id, n - 1) + Listed(StepOf(ss[n - 1], steps[n - 1], id))
  }

  /** The states of the transaction before, between and after these steps. */
  ghost function Views(ss: seq<System>, steps: seq<SysStep>, id: XactId, n: nat): (ts: seq<Txn>)
    requires IsSysRun(ss, steps) && n < |ss|
    ensures |ts| == |Moves(ss, steps, id, n)| + 1
  {
    if n == 0 then [View(ss[0], id)]
    else Views(ss, steps, id, n - 1) + (if StepOf(ss[n - 1], steps[n - 1], id).Some? then [View(ss[n], id)] else [])
  }

  /** The run up to state `n`, seen from one transaction, is a run of that transaction
      alone: its steps are exactly those that are for it, in their order, and it ends in
      what state `n` shows of it. */
  lemma {:induction false} RunProjects(ss: seq<System>, steps: seq<SysStep>, id: XactId, n: nat)
    requires IsSysRun(ss, steps) && n < |ss|
    ensures IsRun(Views(ss, steps, id, n), Moves(ss, steps, id, n))
    ensures Views(ss, steps, id, n)[|Moves(ss, steps, id, n)|] == View(ss[n], id)
  {
    if n == 0 {
      NothingBegun(|ss[0].servers|, id);
    } else {
      RunProjects(ss, steps, id, n - 1);
      NextProjects(ss, steps, n - 1, id);
      RunExtends(Views(ss, steps, id, n - 1), Moves(ss, steps, id, n - 1),
                 StepOf(ss[n - 1], steps[n - 1], id), View(ss[n], id));
    }
  }

  lemma LongerBy(ss: seq<System>, steps: seq<SysStep>, id: XactId, n: nat)
    requires IsSysRun(ss, steps) && n < |steps|
    ensures Moves(ss, steps, id, n) <= Moves(ss, steps, id, n + 1)
    ensures Views(ss, steps, id, n) <= Views(ss, steps, id, n + 1)
  {
  }

  lemma {:induction false} Longer(ss: seq<System>, steps: seq<SysStep>, id: XactId, i: nat, n: nat)
    requires IsSysRun(ss, steps) && i <= n < |ss|
    ensures Moves(ss, steps, id, i) <= Moves(ss, steps, id, n)
    ensures Views(ss, steps, id, i) <= Views(ss, steps, id, n)
    decreases n
  {
    if i < n {
      Longer(ss, steps, id, i, n - 1);
      LongerBy(ss, steps, id, n - 1);
    }
  }

  /** Where state `i` of the system is in the longer run of the transaction. */
  lemma ViewAt(ss: seq<System>, steps: seq<SysStep>, id: XactId, i: nat, n: nat)
    requires IsSysRun(ss, steps) && i <= n < |ss|
    ensures Moves(ss, steps, id, i) <= Moves(ss, steps, id, n)
    ensures Views(ss, steps, id, n)[|Moves(ss, steps, id, i)|] == View(ss[i], id)
  {
    Longer(ss, steps, id, i, n);
    RunProjects(ss, steps, id, i);
  }

  /** A step that is for the transaction is found in its run, between the states before
      and after it; other steps leave no mark. */
  lemma MoveAt(ss: seq<System>, steps: seq<SysStep>, id: XactId, i: nat, n: nat)
    requires IsSysRun(ss, steps) && i < n < |ss|
    ensures var at, at' := |Moves(ss, steps, id, i)|, |Moves(ss, steps, id, i + 1)|;
            match StepOf(ss[i], steps[i], id)
            case None => at' == at
            case Some(v) => at' == at + 1 <= |Moves(ss, steps, id, n)| && Moves(ss, steps, id, n)[at] == v
  {
    ViewAt(ss, steps, id, i + 1, n);
  }

  lemma NothingBegun(n: nat, id: XactId)
    requires n <= Bits.U32_LIMIT
    ensures View(Start(n), id) == Idle(id, Ids.Node(id))
  {
    assert ActorsOf(Start(n), id) == map[];
  }

  lemma NextProjects(ss: seq<System>, steps: seq<SysStep>, i: nat, id: XactId)
    requires IsSysRun(ss, steps) && i < |steps|
    ensures Possible(ss[i], steps[i])
    ensures match StepOf(ss[i], steps[i], id)
            case None => View(ss[i + 1], id) == View(ss[i], id)
            case Some(v) => Enabled(View(ss[i], id), v) && View(ss[i + 1], id) == Apply(View(ss[i], id), v)
  {
    SysRunInv(ss, steps, i);
    StepProjects(ss[i], steps[i], id);
  }

  lemma RunExtends(ts: seq<Txn>, vs: seq<Step>, o: Option<Step>, t: Txn)
    requires IsRun(ts, vs)
    requires match o
             case None => t == ts[|vs|]
             case Some(v) => Enabled(ts[|vs|], v) && t == Apply(ts[|vs|], v)
    ensures var ts', vs' := ts + (if o.Some? then [t] else []), vs + Listed(o);
            IsRun(ts', vs') && ts'[|vs'|] == t
  {
    var ts', vs' := ts + (if o.Some? then [t] else []), vs + Listed(o);
    forall i | 0 <= i < |vs'|
      ensures Enabled(ts'[i], vs'[i]) && ts'[i + 1] == Apply(ts'[i], vs'[i])
    {
      if i < |vs| {
        assert ts'[i] == ts[i] && ts'[i + 1] == ts[i + 1] && vs'[i] == vs[i];
      } else {
        assert ts'[i] == ts[|vs|] && ts'[i + 1] == t && vs'[i] == o.value;
      }
    }
  }

  // ----- The guarantees ---------------------------------------------------------------------

  /** The status of transaction `id` at node `k`. */
  ghost function Status(s: System, id: XactId, k: NodeId): Status {
    StatusAt(View(s, id), k)
  }

  /** Agreement over whole runs of the system: if a node commits a transaction at some
      time, no node rolls that transaction back at any time. */
  lemma SystemAgreement(ss: seq<System>, steps: seq<SysStep>, id: XactId, i: nat, a: NodeId, j: nat, b: NodeId)
    requires IsSysRun(ss, steps) && i < |ss| && j < |ss|
    ensures !(Status(ss[i], id, a).Commits() && Status(ss[j], id, b).RollsBack())
  {
    Projected(ss, steps, id, i);
    Projected(ss, steps, id, j);
    AgreementInRuns(Whole(ss, steps, id), Moves(ss, steps, id, |steps|),
                    |Moves(ss, steps, id, i)|, a, |Moves(ss, steps, id, j)|, b);
  }

  /** The whole run, seen from one transaction. */
  ghost function Whole(ss: seq<System>, steps: seq<SysStep>, id: XactId): seq<Txn>
    requires IsSysRun(ss, steps)
  {
    Views(ss, steps, id, |steps|)
  }

  lemma Projected(ss: seq<System>, steps: seq<SysStep>, id: XactId, i: nat)
    requires IsSysRun(ss, steps) && i < |ss|
    ensures IsRun(Whole(ss, steps, id), Moves(ss, steps, id, |steps|))
    ensures |Moves(ss, steps, id, i)| < |Whole(ss, steps, id)|
    ensures Whole(ss, steps, id)[|Moves(ss, steps, id, i)|] == View(ss[i], id)
  {
    RunProjects(ss, steps, id, |steps|);
    ViewAt(ss, steps, id, i, |steps|);
  }

  /** Once any node has decided to commit, the transaction is prepared or committed in
      the Postgres of every surrogate, then and at all later times. */
  lemma SystemDurability(ss: seq<System>, steps: seq<SysStep>, id: XactId, i: nat, j: nat, a: NodeId, k: NodeId)
    requires IsSysRun(ss, steps) && i <= j < |ss|
    requires Status(ss[i], id, a).Commits() && k in Surrogates(View(ss[j], id))
    ensures PgAt(View(ss[j], id), k).phase.Prepared? || PgAt(View(ss[j], id), k).phase.CommittedInPg?
    ensures ExecutedAt(View(ss[j], id), k) == Some(None)
  {
    SysRunInv(ss, steps, j);
    StatusLasts(ss, steps, id, i, j, a);
    CommitDurability(View(ss[j], id), a, k);
  }

  /** An actor that has decided never changes again. */
  lemma StatusLasts(ss: seq<System>, steps: seq<SysStep>, id: XactId, i: nat, j: nat, k: NodeId)
    requires IsSysRun(ss, steps) && i <= j < |ss|
    requires Status(ss[i], id, k).Commits() || Status(ss[i], id, k).RollsBack()
    ensures At(View(ss[j], id), k) == At(View(ss[i], id), k)
  {
    Projected(ss, steps, id, i);
    Projected(ss, steps, id, j);
    ViewAt(ss, steps, id, i, j);
    DecisionsLast(Whole(ss, steps, id), Moves(ss, steps, id, |steps|),
                  |Moves(ss, steps, id, i)|, |Moves(ss, steps, id, j)|, k);
  }

  /** `COMMIT PREPARED` is sent at most once in the whole run, for a transaction that no
      node ever rolls back; no finishing command ever names a gid that is not prepared. */
  lemma SystemNoResidue(ss: seq<System>, steps: seq<SysStep>, id: XactId, i: nat, j: nat, k: NodeId, b: NodeId)
    requires IsSysRun(ss, steps) && i <= j < |ss|
    ensures PgAt(View(ss[i], id), k).commits <= PgAt(View(ss[j], id), k).commits <= 1
    ensures PgAt(View(ss[i], id), k).commits == 1 ==> !Status(ss[j], id, b).RollsBack()
    ensures PgAt(View(ss[j], id), k).invalid == 0
    ensures Status(ss[i], id, k).Terminal() ==> !PgAt(View(ss[j], id), k).phase.Prepared?
  {
    SysRunInv(ss, steps, i);
    SysRunInv(ss, steps, j);
    NoResidue(View(ss[i], id), k);
    NoResidue(View(ss[j], id), k);
    if Status(ss[i], id, k).Commits() || Status(ss[i], id, k).RollsBack() {
      StatusLasts(ss, steps, id, i, j, k);
      SystemAgreement(ss, steps, id, i, k, j, b);
    }
  }

  /** A rollback at any time goes back to a surrogate whose execution has failed: if no
      failure is on record at the end of the run, nobody ever rolled back. */
  lemma SystemProvenance(ss: seq<System>, steps: seq<SysStep>, id: XactId, i: nat, k: NodeId)
    requires IsSysRun(ss, steps) && i < |ss| && Status(ss[i], id, k).RollsBack()
    ensures var t := View(ss[|steps|], id);
            exists m :: m in Surrogates(t) && ExecutedAt(t, m) == Some(Some(Status(ss[i], id, k).info.reason))
  {
    StatusLasts(ss, steps, id, i, |steps|, k);
    SysRunInv(ss, steps, |steps|);
    RollbackProvenance(View(ss[|steps|], id), k);
  }

  /** A step of the transaction's run is a step of the system's run. */
  lemma {:induction false} MoveComesFrom(ss: seq<System>, steps: seq<SysStep>, id: XactId, n: nat, at: nat) returns (i: nat)
    requires IsSysRun(ss, steps) && n < |ss| && at < |Moves(ss, steps, id, n)|
    ensures i < n && StepOf(ss[i], steps[i], id) == Some(Moves(ss, steps, id, n)[at])
  {
    if at < |Moves(ss, steps, id, n - 1)| {
      i := MoveComesFrom(ss, steps, id, n - 1, at);
      LongerBy(ss, steps, id, n - 1);
    } else {
      i := n - 1;
    }
  }

  /** The step of the system in which node `j` executes transaction `id`. */
  predicate Executes(step: SysStep, id: XactId, j: NodeId) {
    step.Arrive? && step.packet.to == j && step.packet.msg.PrepareMessage? && step.packet.msg.id == id
  }

  lemma MoveExecutes(s: System, step: SysStep, id: XactId, v: Step, t: Txn, j: NodeId)
    requires Possible(s, step) && StepOf(s, step, id) == Some(v) && Outcomes.ExecutesAt(t, v, j)
    ensures Executes(step, id, j) && step.env == v.env
  {
  }

  lemma CommitInMoves(ss: seq<System>, steps: seq<SysStep>, id: XactId, n: nat, k: NodeId, j: NodeId) returns (at: nat)
    requires IsSysRun(ss, steps) && n < |ss| && Status(ss[n], id, k).Commits() && j in Surrogates(View(ss[n], id))
    ensures at < |Moves(ss, steps, id, n)|
    ensures var v := Moves(ss, steps, id, n)[at];
            Outcomes.ExecutesAt(Views(ss, steps, id, n)[at], v, j) && PgCalls.Works(v.env.exec)
  {
    RunProjects(ss, steps, id, n);
    at := Outcomes.CommitMeansAllWorked(Views(ss, steps, id, n), Moves(ss, steps, id, n), |Moves(ss, steps, id, n)|, k, j);
  }

  /** If any node decides to commit a transaction, each of its surrogates has executed it
      before, and all four calls of that execution have worked. */
  lemma SystemCommitMeansAllWorked(ss: seq<System>, steps: seq<SysStep>, id: XactId, n: nat, k: NodeId, j: NodeId)
    returns (i: nat)
    requires IsSysRun(ss, steps) && n < |ss| && Status(ss[n], id, k).Commits() && j in Surrogates(View(ss[n], id))
    ensures i < n && Executes(steps[i], id, j) && PgCalls.Works(steps[i].env.exec)
  {
    var at := CommitInMoves(ss, steps, id, n, k, j);
    i := MoveComesFrom(ss, steps, id, n, at);
    MoveExecutes(ss[i], steps[i], id, Moves(ss, steps, id, n)[at], Views(ss, steps, id, n)[at], j);
  }

  lemma RollbackInMoves(ss: seq<System>, steps: seq<SysStep>, id: XactId, n: nat, k: NodeId) returns (at: nat, j: NodeId)
    requires IsSysRun(ss, steps) && n < |ss| && Status(ss[n], id, k).RollsBack()
    ensures at < |Moves(ss, steps, id, n)|
    ensures var v := Moves(ss, steps, id, n)[at];
            && Outcomes.ExecutesAt(Views(ss, steps, id, n)[at], v, j) && !PgCalls.Works(v.env.exec)
            && PgCalls.FailureOf(v.env.exec) == Some(Status(ss[n], id, k).info.reason)
  {
    RunProjects(ss, steps, id, n);
    at, j := Outcomes.RollbackMeansFailedCall(Views(ss, steps, id, n), Moves(ss, steps, id, n), |Moves(ss, steps, id, n)|, k);
  }

  /** If any node rolls a transaction back, some surrogate has executed it before, and the
      reason is that of the first call of that execution that did not work. */
  lemma SystemRollbackMeansFailedCall(ss: seq<System>, steps: seq<SysStep>, id: XactId, n: nat, k: NodeId)
    returns (i: nat, j: NodeId)
    requires IsSysRun(ss, steps) && n < |ss| && Status(ss[n], id, k).RollsBack()
    ensures i < n && Executes(steps[i], id, j) && !PgCalls.Works(steps[i].env.exec)
    ensures PgCalls.FailureOf(steps[i].env.exec) == Some(Status(ss[n], id, k).info.reason)
  {
    var at;
    at, j := RollbackInMoves(ss, steps, id, n, k);
    i := MoveComesFrom(ss, steps, id, n, at);
    MoveExecutes(ss[i], steps[i], id, Moves(ss, steps, id, n)[at], Views(ss, steps, id, n)[at], j);
  }

  /** The client is answered or hung up on once and for all, */
  lemma SystemAnswerOnce(ss: seq<System>, steps: seq<SysStep>, id: XactId, i: nat, j: nat)
    requires IsSysRun(ss, steps) && i <= j < |ss| && ClientSees(View(ss[i], id)) != Kept
    ensures ClientSees(View(ss[j], id)) == ClientSees(View(ss[i], id))
  {
    Projected(ss, steps, id, i);
    Projected(ss, steps, id, j);
    ViewAt(ss, steps, id, i, j);
    AnswerLasts(Whole(ss, steps, id), Moves(ss, steps, id, |steps|),
                |Moves(ss, steps, id, i)|, |Moves(ss, steps, id, j)|);
  }

  /** and an answer holds for every node at every time. */
  lemma SystemAnswerTrue(ss: seq<System>, steps: seq<SysStep>, id: XactId, i: nat, j: nat, k: NodeId)
    requires IsSysRun(ss, steps) && i < |ss| && j < |ss| && ClientSees(View(ss[i], id)).Told?
    ensures if ClientSees(View(ss[i], id)).answer.None? then !Status(ss[j], id, k).RollsBack()
            else !Status(ss[j], id, k).Commits()
  {
    SysRunInv(ss, steps, i);
    var t := View(ss[i], id);
    ClientAnswer(t);
    SystemAgreement(ss, steps, id, i, t.coordinator, j, k);
    SystemAgreement(ss, steps, id, j, k, i, t.coordinator);
  }

  /** What the specification sees of a transaction along the run. */
  ghost function SpecStates(ss: seq<System>, id: XactId): seq<AC.Spec> {
    seq(|ss|, i requires 0 <= i < |ss| => AC.Abstract(View(ss[i], id)))
  }

  /** Every transaction of a run is an atomic commitment: the run, seen from it, is a
      path of the specification with its single write-once verdict. The path visits the
      states of the run in their order and ends at the last one. */
  lemma SystemRefines(ss: seq<System>, steps: seq<SysStep>, id: XactId) returns (path: seq<AC.Spec>, pos: seq<nat>)
    requires IsSysRun(ss, steps)
    ensures AC.Path(path) && path[0] == AC.INITIAL && AC.Visits(path, pos, SpecStates(ss, id))
  {
    RunProjects(ss, steps, id, |steps|);
    var ts, vs := Whole(ss, steps, id), Moves(ss, steps, id, |steps|);
    path, pos := AC.RunRefines(ts, vs);
    PlacesInOrder(ss, steps, id);
    pos := AC.VisitsSome(path, pos, AC.Abstracts(ts), SpecStates(ss, id), Places(ss, steps, id));
  }

  /** Where the states of the system are in the run of the transaction. */
  ghost function Places(ss: seq<System>, steps: seq<SysStep>, id: XactId): (at: seq<nat>)
    requires IsSysRun(ss, steps)
  {
    seq(|ss|, i requires 0 <= i < |ss| => |Moves(ss, steps, id, i)|)
  }

  lemma PlacesInOrder(ss: seq<System>, steps: seq<SysStep>, id: XactId)
    requires IsSysRun(ss, steps)
    ensures var at, ts := Places(ss, steps, id), Whole(ss, steps, id);
            && (forall i :: 0 <= i < |ss| ==> at[i] < |ts| && AC.Abstracts(ts)[at[i]] == SpecStates(ss, id)[i])
            && (forall i, j :: 0 <= i <= j < |ss| ==> at[i] <= at[j])
            && at[|ss| - 1] == |ts| - 1
  {
    var at, ts := Places(ss, steps, id), Whole(ss, steps, id);
    forall i | 0 <= i < |ss|
      ensures at[i] < |ts| && ts[at[i]] == View(ss[i], id)
    {
      Projected(ss, steps, id, i);
    }
    forall i, j | 0 <= i <= j < |ss|
      ensures at[i] <= at[j]
    {
      Longer(ss, steps, id, i, j);
    }
  }

  /** So the verdict of a transaction is written once in a run, and what its nodes decide
      is that verdict and stays. */
  lemma VerdictWrittenOnce(ss: seq<System>, steps: seq<SysStep>, id: XactId, i: nat, j: nat)
    requires IsSysRun(ss, steps) && i <= j < |ss|
    ensures var early, late := AC.Abstract(View(ss[i], id)), AC.Abstract(View(ss[j], id));
            && (early.verdict.Some? ==> late.verdict == early.verdict)
            && (forall k :: k in early.decided ==>
                  k in late.decided && Some(late.decided[k]) == Some(early.decided[k]) == late.verdict)
  {
    var path, pos := SystemRefines(ss, steps, id);
    AC.VisitedVerdictStays(path, pos, SpecStates(ss, id), i, j);
  }

  /** A step changes at most one transaction. */
  lemma Isolation(s: System, step: SysStep, x: XactId, y: XactId)
    requires SysInv(s) && Possible(s, step) && x != y
    ensures View(Take(s, step), x) == View(s, x) || View(Take(s, step), y) == View(s, y)
  {
    if StepOf(s, step, x).None? {
      StepProjects(s, step, x);
    } else {
      assert StepOf(s, step, y).None?;
      StepProjects(s, step, y);
    }
  }

  /** No message is ever misrouted: no actor of any run reaches an `unreachable!()` arm,
      and each local transaction creates an actor of its own. */
  lemma NeverMisrouted(ss: seq<System>, steps: seq<SysStep>, i: nat, k: NodeId, id: XactId)
    requires IsSysRun(ss, steps) && i < |ss| && k < |ss[i].servers| && id in ss[i].servers[k].actors
    ensures !ss[i].servers[k].actors[id].outcome.Unreachable?
    ensures i < |steps| && steps[i].Request? && steps[i].node == k ==>
              id != TargetId(ss[i].servers[k], k, LocalXact(steps[i].data))
  {
    SysRunInv(ss, steps, i);
    Panics(View(ss[i], id), k);
    assert At(View(ss[i], id), k) == ss[i].servers[k].actors[id];
    if i < |steps| && steps[i].Request? && steps[i].node == k {
      FreshId(ss[i], k);
    }
  }

  /** The id a request gets. */
  ghost function IssuedId(s: System, step: SysStep): XactId
    requires step.Request? && step.node < |s.servers|
  {
    TargetId(s.servers[step.node], step.node, LocalXact(step.data))
  }

  lemma {:induction false} BegunLasts(ss: seq<System>, steps: seq<SysStep>, i: nat, j: nat)
    requires IsSysRun(ss, steps) && i <= j < |ss|
    ensures ss[i].begun.Keys <= ss[j].begun.Keys
    decreases j
  {
    if i < j {
      BegunLasts(ss, steps, i, j - 1);
      assert ss[j] == Take(ss[j - 1], steps[j - 1]);
    }
  }

  /** The ids issued by all servers over a run are valid, fit into 64 bits and are
      pairwise different, and so are their gids. */
  lemma IdsDistinct(ss: seq<System>, steps: seq<SysStep>, i: nat, j: nat)
    requires IsSysRun(ss, steps) && i < j < |steps| && steps[i].Request? && steps[j].Request?
    ensures IssuedId(ss[i], steps[i]) != Ids.INVALID && IssuedId(ss[j], steps[j]) != Ids.INVALID
    ensures IssuedId(ss[i], steps[i]) < Bits.U64_LIMIT && IssuedId(ss[j], steps[j]) < Bits.U64_LIMIT
    ensures IssuedId(ss[i], steps[i]) != IssuedId(ss[j], steps[j])
    ensures Ids.Display(IssuedId(ss[i], steps[i])) != Ids.Display(IssuedId(ss[j], steps[j]))
  {
    var x, y := IssuedId(ss[i], steps[i]), IssuedId(ss[j], steps[j]);
    SysRunInv(ss, steps, i);
    SysRunInv(ss, steps, j);
    FreshId(ss[i], steps[i].node);
    FreshId(ss[j], steps[j].node);
    assert x in ss[i + 1].begun;
    BegunLasts(ss, steps, i + 1, j);
    if Ids.Display(x) == Ids.Display(y) {
      Ids.DisplayInjective(x, y);
    }
  }

  // ----- Termination --------------------------------------------------------------------------

  /** What happened to transaction `id` was free of faults, whatever happened to others. */
  ghost predicate NoFaults(ss: seq<System>, steps: seq<SysStep>, id: XactId) {
    && IsSysRun(ss, steps)
    && forall i :: 0 <= i < |steps| ==>
         match StepOf(ss[i], steps[i], id)
         case None => true
         case Some(v) => Liveness.FaultFree(View(ss[i], id), v)
  }

  lemma NoFaultsProject(ss: seq<System>, steps: seq<SysStep>, id: XactId)
    requires NoFaults(ss, steps, id)
    ensures Liveness.IsFaultFree(Whole(ss, steps, id), Moves(ss, steps, id, |steps|))
  {
    FaultFreeUpTo(ss, steps, id, |steps|);
  }

  lemma {:induction false} FaultFreeUpTo(ss: seq<System>, steps: seq<SysStep>, id: XactId, n: nat)
    requires NoFaults(ss, steps, id) && n < |ss|
    ensures Liveness.IsFaultFree(Views(ss, steps, id, n), Moves(ss, steps, id, n))
  {
    RunProjects(ss, steps, id, n);
    if n > 0 {
      FaultFreeUpTo(ss, steps, id, n - 1);
      LongerBy(ss, steps, id, n - 1);
      LastIsFaultFree(ss, steps, id, n - 1);
      FaultFreeExtends(Views(ss, steps, id, n - 1), Moves(ss, steps, id, n - 1),
                       Views(ss, steps, id, n), Moves(ss, steps, id, n));
    }
  }

  lemma LastIsFaultFree(ss: seq<System>, steps: seq<SysStep>, id: XactId, n: nat)
    requires NoFaults(ss, steps, id) && n < |steps|
    ensures var ts, vs, vs' := Views(ss, steps, id, n), Moves(ss, steps, id, n), Moves(ss, steps, id, n + 1);
            |vs'| <= |vs| + 1 && (|vs'| > |vs| ==> Liveness.FaultFree(ts[|vs|], vs'[|vs|]))
  {
    assert Views(ss, steps, id, n)[|Moves(ss, steps, id, n)|] == View(ss[n], id) by {
      RunProjects(ss, steps, id, n);
    }
  }

  lemma FaultFreeExtends(ts: seq<Txn>, vs: seq<Step>, ts': seq<Txn>, vs': seq<Step>)
    requires Liveness.IsFaultFree(ts, vs) && IsRun(ts', vs') && ts <= ts' && vs <= vs' && |vs'| <= |vs| + 1
    requires |vs'| > |vs| ==> Liveness.FaultFree(ts[|vs|], vs'[|vs|])
    ensures Liveness.IsFaultFree(ts', vs')
  {
    forall i | 0 <= i < |vs'|
      ensures Liveness.FaultFree(ts'[i], vs'[i])
    {
      if i < |vs| {
        assert ts'[i] == ts[i] && vs'[i] == vs[i];
      }
    }
  }

  /** A transaction that met no faults and has nothing left to deliver is finished at
      every participant, committed exactly if all executions succeeded, and its client
      has been told so. */
  lemma SystemTermination(ss: seq<System>, steps: seq<SysStep>, id: XactId, k: NodeId)
    requires NoFaults(ss, steps, id)
    requires var t := View(ss[|steps|], id);
             t.data.Some? && t.net == multiset{} && k in Participants(t)
    ensures var t := View(ss[|steps|], id);
            && StatusAt(t, k).Terminal()
            && (StatusAt(t, k) == Committed <==> forall j :: j in Surrogates(t) ==> ExecutedAt(t, j) == Some(None))
            && ReplyAt(t) == Answered(if StatusAt(t, t.coordinator).RollsBack()
                                      then Some(StatusAt(t, t.coordinator).info) else None)
  {
    var ts, vs := Whole(ss, steps, id), Moves(ss, steps, id, |steps|);
    NoFaultsProject(ss, steps, id);
    RunProjects(ss, steps, id, |steps|);
    Liveness.FaultFreeRunDecides(ts, vs);
    SysRunInv(ss, steps, |steps|);
    AnswerFollowsStatus(View(ss[|steps|], id));
  }

  /** In any run, faulty or not, a transaction of `n` participants, its coordinator
      among them, takes at most `(n-1) + (n-1)^2` messages. */
  lemma SystemMessageBound(ss: seq<System>, steps: seq<SysStep>, id: XactId)
    requires IsSysRun(ss, steps)
    requires var t := View(ss[|steps|], id); t.coordinator in Participants(t)
    ensures var t := View(ss[|steps|], id);
            var n := |Participants(t)|;
            |t.sent| <= (n - 1) + (n - 1) * (n - 1)
  {
    RunProjects(ss, steps, id, |steps|);
    Progress.MessageBound(Whole(ss, steps, id), Moves(ss, steps, id, |steps|), |Moves(ss, steps, id, |steps|)|);
  }

  /** However long the run, only so many of its steps are for any one transaction. */
  lemma SystemStepBound(ss: seq<System>, steps: seq<SysStep>, id: XactId)
    requires IsSysRun(ss, steps)
    ensures var t := View(ss[|steps|], id);
            |Moves(ss, steps, id, |steps|)| <=
            1 + |Participants(t)| * |Surrogates(t)| + |Participants(t) + {t.coordinator}|
  {
    RunProjects(ss, steps, id, |steps|);
    Progress.RunsEnd(Whole(ss, steps, id), Moves(ss, steps, id, |steps|));
  }
}
