/** Atomic commitment as a specification with a single write-once verdict, and the
    proof that the protocol refines it. */
module AtomicCommit {
  import opened Messages
  import opened Transitions
  import opened Transaction
  import opened TransactionProofs
  import opened TransactionSafety
  import opened ActorProofs

  datatype Decision = Commit | Abort

  /** `executed` records which voters could do their part of the transaction. */
  datatype Spec = Spec(
    voters: Option<set<NodeId>>,
    executed: map<NodeId, bool>,
    verdict: Option<Decision>,
    decided: map<NodeId, Decision>)

  const INITIAL := Spec(None, map[], None, map[])

  ghost predicate Submit(s: Spec, s': Spec) {
    s == INITIAL && s'.voters.Some? && s' == s.(voters := s'.voters)
  }

  ghost predicate Execute(s: Spec, s': Spec, k: NodeId, ok: bool) {
    && s.voters.Some? && k in s.voters.value && k !in s.executed
    && s' == s.(executed := s.executed[k := ok])
  }

  /** The verdict is written once: commit only if every voter has done its part,
      abort only if some voter could not. */
  ghost predicate Choose(s: Spec, s': Spec, d: Decision) {
    && s.voters.Some? && s.verdict.None?
    && (d.Commit? ==> forall k :: k in s.voters.value ==> k in s.executed && s.executed[k])
    && (d.Abort? ==> exists k :: k in s.voters.value && k in s.executed && !s.executed[k])
    && s' == s.(verdict := Some(d))
  }

  /** A node learns the verdict, once. */
  ghost predicate Decide(s: Spec, s': Spec, k: NodeId) {
    && s.verdict.Some? && k !in s.decided
    && s' == s.(decided := s.decided[k := s.verdict.value])
  }

  ghost predicate Next(s: Spec, s': Spec) {
    || s' == s
    || Submit(s, s')
    || (exists k, ok :: Execute(s, s', k, ok))
    || (exists d :: Choose(s, s', d))
    || (exists k :: Decide(s, s', k))
  }

  ghost predicate Path(ss: seq<Spec>) {
    && ss != []
    && forall i :: 0 <= i < |ss| - 1 ==> Next(ss[i], ss[i + 1])
  }

  // ----- The specification is an atomic commitment ----------------------------------

  ghost predicate SpecInv(s: Spec) {
    && (forall k :: k in s.decided ==> Some(s.decided[k]) == s.verdict)
    && (s.voters.None? ==> s == INITIAL)
    && (s.verdict == Some(Commit) ==> forall k :: k in s.voters.value ==> k in s.executed && s.executed[k])
    && (s.verdict == Some(Abort) ==> exists k :: k in s.voters.value && k in s.executed && !s.executed[k])
  }

  lemma NextKeeps(s: Spec, s': Spec)
    requires SpecInv(s) && Next(s, s')
    ensures SpecInv(s')
    ensures s.verdict.Some? ==> s'.verdict == s.verdict
    ensures forall k :: k in s.decided ==> k in s'.decided && s'.decided[k] == s.decided[k]
  {
  }

  lemma {:induction false} PathKeeps(ss: seq<Spec>, i: nat)
    requires Path(ss) && ss[0] == INITIAL && i < |ss|
    ensures SpecInv(ss[i])
    ensures forall j :: 0 <= j <= i && ss[j].verdict.Some? ==> ss[i].verdict == ss[j].verdict
    ensures forall j, k :: 0 <= j <= i && k in ss[j].decided ==> k in ss[i].decided && ss[i].decided[k] == ss[j].decided[k]
  {
    if i > 0 {
      PathKeeps(ss, i - 1);
      NextKeeps(ss[i - 1], ss[i]);
    }
  }

  // ----- The protocol refines it ------------------------------------------------------

  predicate DecidedAt(t: Txn, k: NodeId) {
    StatusAt(t, k).Commits() || StatusAt(t, k).RollsBack()
  }

  function DecisionAt(t: Txn, k: NodeId): Decision {
    if StatusAt(t, k).Commits() then Commit else Abort
  }

  /** The verdict of a state is that of any node that has decided. */
  ghost function VerdictOfAll(t: Txn): Option<Decision> {
    if exists k :: k in t.actors && StatusAt(t, k).Commits() then Some(Commit)
    else if exists k :: k in t.actors && StatusAt(t, k).RollsBack() then Some(Abort)
    else None
  }

  ghost function Executions(t: Txn): map<NodeId, bool> {
    map k | k in t.actors && ExecutedAt(t, k).Some? :: ExecutedAt(t, k).value.None?
  }

  ghost function Decisions(t: Txn): map<NodeId, Decision> {
    map k | k in t.actors && DecidedAt(t, k) :: DecisionAt(t, k)
  }

  ghost function Abstract(t: Txn): Spec {
    Spec(if t.data.None? then None else Some(Surrogates(t)), Executions(t), VerdictOfAll(t), Decisions(t))
  }

  lemma VerdictIsAny(t: Txn, k: NodeId)
    requires Inv(t) && DecidedAt(t, k)
    ensures VerdictOfAll(t) == Some(DecisionAt(t, k))
  {
    assert k in t.actors;
    if StatusAt(t, k).RollsBack() {
      forall j | j in t.actors
        ensures !StatusAt(t, j).Commits()
      {
        Agreement(t, j, k);
      }
    }
  }

  lemma VerdictNeedsOne(t: Txn)
    ensures VerdictOfAll(t).Some? ==> exists k :: k in t.actors && DecidedAt(t, k)
    ensures VerdictOfAll(t).None? ==> forall k :: k in t.actors ==> !DecidedAt(t, k)
  {
  }

  /** The abstract state after an execution in the step, but before a decision. */
  ghost function AfterExecution(t: Txn, t': Txn): Spec {
    Abstract(t).(executed := Abstract(t').executed)
  }

  ghost function AfterChoice(t: Txn, t': Txn): Spec {
    AfterExecution(t, t').(verdict := Abstract(t').verdict)
  }

  lemma OnlySurrogatesExecute(t: Txn, k: NodeId)
    requires Inv(t) && ExecutedAt(t, k).Some?
    ensures k in Surrogates(t)
  {
    assert NodeInv(t, k);
  }

  lemma ExecutionsGrow(t: Txn, t': Txn, k: NodeId)
    requires OnlyAt(t, t', k) && t'.actors.Keys == t.actors.Keys + {k}
    requires ExecutedAt(t, k).Some? ==> ExecutedAt(t', k) == ExecutedAt(t, k)
    ensures Executions(t') == if ExecutedAt(t', k).Some? then Executions(t)[k := ExecutedAt(t', k).value.None?]
                              else Executions(t)
    ensures k in Executions(t) <==> ExecutedAt(t, k).Some?
  {
    assert forall j :: j != k ==> ExecutedAt(t', j) == ExecutedAt(t, j);
  }

  lemma ExecutionStep(t: Txn, t': Txn, k: NodeId)
    requires Inv(t') && t.data.Some? && Extends(t, t') && OnlyAt(t, t', k)
    requires t'.actors.Keys == t.actors.Keys + {k}
    ensures Next(Abstract(t), AfterExecution(t, t'))
  {
    ExecutionsGrow(t, t', k);
    if ExecutedAt(t, k).None? && ExecutedAt(t', k).Some? {
      OnlySurrogatesExecute(t', k);
      assert Execute(Abstract(t), AfterExecution(t, t'), k, ExecutedAt(t', k).value.None?);
    }
  }

  /** Nodes that had decided still have, and only `k` can be new among them. */
  ghost predicate Frozen(t: Txn, t': Txn, k: NodeId) {
    && OnlyAt(t, t', k)
    && t'.actors.Keys == t.actors.Keys + {k}
    && (DecidedAt(t, k) ==> At(t', k) == At(t, k))
  }

  lemma ChoiceStep(t: Txn, t': Txn, k: NodeId)
    requires Inv(t) && Inv(t') && t.data.Some? && Extends(t, t') && Frozen(t, t', k)
    ensures Next(AfterExecution(t, t'), AfterChoice(t, t'))
  {
    if VerdictOfAll(t).Some? {
      VerdictNeedsOne(t);
      var j :| j in t.actors && DecidedAt(t, j);
      assert At(t', j) == At(t, j);
      VerdictIsAny(t, j);
      VerdictIsAny(t', j);
    } else if VerdictOfAll(t').Some? {
      VerdictNeedsOne(t');
      var j :| j in t'.actors && DecidedAt(t', j);
      VerdictIsAny(t', j);
      ChoiceAllowed(t, t', j);
    }
  }

  lemma ChoiceAllowed(t: Txn, t': Txn, j: NodeId)
    requires Inv(t') && t.data.Some? && Extends(t, t') && DecidedAt(t', j) && VerdictOfAll(t).None?
    requires VerdictOfAll(t') == Some(DecisionAt(t', j))
    ensures Choose(AfterExecution(t, t'), AfterChoice(t, t'), DecisionAt(t', j))
  {
    if StatusAt(t', j).Commits() {
      forall m | m in Surrogates(t')
        ensures ExecutedAt(t', m) == Some(None)
      {
        CommitNeedsAll(t', j, m);
      }
    } else {
      RollbackProvenance(t', j);
      var m :| m in Surrogates(t') && ExecutedAt(t', m) == Some(Some(StatusAt(t', j).info.reason));
      assert m in t'.actors && !Abstract(t').executed[m];
    }
  }

  lemma DecisionsGrow(t: Txn, t': Txn, k: NodeId)
    requires Frozen(t, t', k)
    ensures Decisions(t') == if DecidedAt(t', k) then Decisions(t)[k := DecisionAt(t', k)] else Decisions(t)
    ensures k in Decisions(t) <==> DecidedAt(t, k)
  {
    assert forall j :: j != k ==> StatusAt(t', j) == StatusAt(t, j);
  }

  lemma DecisionStep(t: Txn, t': Txn, k: NodeId)
    requires Inv(t') && t.data.Some? && Extends(t, t') && Frozen(t, t', k)
    ensures Next(AfterChoice(t, t'), Abstract(t'))
  {
    DecisionsGrow(t, t', k);
    if DecidedAt(t', k) && !DecidedAt(t, k) {
      VerdictIsAny(t', k);
      assert Decide(AfterChoice(t, t'), Abstract(t'), k);
    }
  }

  /** One step of the protocol is at most an execution, a choice and a decision. */
  lemma UpdateRefines(t: Txn, t': Txn, k: NodeId)
    requires Inv(t) && Inv(t') && t.data.Some? && Extends(t, t') && Frozen(t, t', k)
    ensures Path([Abstract(t), AfterExecution(t, t'), AfterChoice(t, t'), Abstract(t')])
  {
    ExecutionStep(t, t', k);
    ChoiceStep(t, t', k);
    DecisionStep(t, t', k);
  }

  /** A handler records an execution and a verdict only for an actor without any. */
  lemma LogWrittenOnce(a: Actor, me: NodeId, id: XactId, input: Input, e: Env)
    ensures Receive(a, me, id, input, e).actor.log == a.log || a.xact.Unknown?
  {
  }

  lemma StepExtends(t: Txn, step: Step, k: NodeId)
    requires Inv(t) && t.data.Some? && Enabled(t, step)
    requires match step case Deliver(p, _) => k == p.to case Stop(j) => k == j case _ => k == t.coordinator
    ensures Extends(t, Apply(t, step)) && Frozen(t, Apply(t, step), k)
  {
    if step.Deliver? {
      LogWrittenOnce(At(t, k), k, t.id, Remote(step.packet.msg), step.env);
    }
    LogStays(t, Apply(t, step), k);
    if DecidedAt(t, k) {
      DecisionsStand(t, step, k);
    }
  }

  lemma LogStays(t: Txn, t': Txn, k: NodeId)
    requires Inv(t) && t.data.Some?
    requires t'.id == t.id && t'.coordinator == t.coordinator && t'.data == t.data && OnlyAt(t, t', k)
    requires At(t', k).log == At(t, k).log || At(t, k).xact.Unknown?
    ensures Extends(t, t')
  {
    assert NodeInv(t, k);
  }

  /** After the request the coordinator has no execution of its own, and it has
      decided only if nobody else takes part. */
  lemma BegunCoordinator(t: Txn, data: seq<Byte>, e: Env)
    requires Inv(t) && t.data.None?
    ensures var t' := Apply(t, Begin(data, e));
            && t'.actors.Keys == {t.coordinator}
            && ExecutedAt(t', t.coordinator).None?
            && !StatusAt(t', t.coordinator).RollsBack()
            && (StatusAt(t', t.coordinator).Commits() ==> Surrogates(t') == {})
  {
    LocalHandled(t.coordinator, t.id, data, e);
  }

  /** The request itself: submission and, if the coordinator is the only participant,
      its decision. */
  lemma BeginRefines(t: Txn, data: seq<Byte>, e: Env) returns (ss: seq<Spec>)
    requires Inv(t) && t.data.None?
    ensures Path(ss) && ss[0] == Abstract(t) && ss[|ss| - 1] == Abstract(Apply(t, Begin(data, e)))
  {
    StepKeeps(t, Begin(data, e));
    BegunCoordinator(t, data, e);
    ss := BegunPath(Apply(t, Begin(data, e)));
    IdleIsInitial(t);
  }

  lemma IdleIsInitial(t: Txn)
    requires Inv(t) && t.data.None?
    ensures Abstract(t) == INITIAL
  {
    assert Executions(t) == map[] && Decisions(t) == map[];
  }

  lemma BegunPath(t: Txn) returns (ss: seq<Spec>)
    requires Inv(t) && t.data.Some? && t.actors.Keys == {t.coordinator}
    requires ExecutedAt(t, t.coordinator).None? && !StatusAt(t, t.coordinator).RollsBack()
    requires StatusAt(t, t.coordinator).Commits() ==> Surrogates(t) == {}
    ensures Path(ss) && ss[0] == INITIAL && ss[|ss| - 1] == Abstract(t)
  {
    var c := t.coordinator;
    BegunMaps(t, c);
    var submitted := Spec(Some(Surrogates(t)), map[], None, map[]);
    assert Submit(INITIAL, submitted);
    if DecidedAt(t, c) {
      VerdictIsAny(t, c);
      var chosen := submitted.(verdict := Some(Commit));
      assert Choose(submitted, chosen, Commit);
      assert Decide(chosen, Abstract(t), c);
      ss := [INITIAL, submitted, chosen, Abstract(t)];
    } else {
      ss := [INITIAL, submitted];
    }
  }

  lemma BegunMaps(t: Txn, c: NodeId)
    requires t.actors.Keys == {c} && ExecutedAt(t, c).None?
    ensures Executions(t) == map[]
    ensures Decisions(t) == if DecidedAt(t, c) then map[c := DecisionAt(t, c)] else map[]
    ensures !DecidedAt(t, c) ==> VerdictOfAll(t).None?
  {
  }

  /** Every step of the protocol is a path of the specification. */
  lemma StepRefines(t: Txn, step: Step) returns (ss: seq<Spec>)
    requires Inv(t) && Enabled(t, step)
    ensures Path(ss) && ss[0] == Abstract(t) && ss[|ss| - 1] == Abstract(Apply(t, step))
  {
    if t.data.None? {
      ss := BeginRefines(t, step.data, step.env);
    } else {
      var t' := Apply(t, step);
      var k := match step case Deliver(p, _) => p.to case Stop(j) => j case _ => t.coordinator;
      StepKeeps(t, step);
      StepExtends(t, step, k);
      UpdateRefines(t, t', k);
      ss := [Abstract(t), AfterExecution(t, t'), AfterChoice(t, t'), Abstract(t')];
    }
  }

  lemma JoinPaths(ss: seq<Spec>, rr: seq<Spec>)
    requires Path(ss) && Path(rr) && ss[|ss| - 1] == rr[0]
    ensures Path(ss + rr[1..])
    ensures (ss + rr[1..])[0] == ss[0] && (ss + rr[1..])[|ss + rr[1..]| - 1] == rr[|rr| - 1]
  {
    var qq := ss + rr[1..];
    forall i | 0 <= i < |qq| - 1
      ensures Next(qq[i], qq[i + 1])
    {
      if i >= |ss| - 1 {
        assert qq[i] == rr[i - (|ss| - 1)] && qq[i + 1] == rr[i + 1 - (|ss| - 1)];
      }
    }
  }

  /** The path goes through the given states in their order and ends at the last one:
      `pos[i]` is where state `i` is on the path. */
  ghost predicate Visits(path: seq<Spec>, pos: seq<nat>, states: seq<Spec>) {
    && |pos| == |states| > 0
    && (forall i :: 0 <= i < |pos| ==> pos[i] < |path| && path[pos[i]] == states[i])
    && (forall i, j :: 0 <= i <= j < |pos| ==> pos[i] <= pos[j])
    && pos[|pos| - 1] == |path| - 1
  }

  ghost function Abstracts(ts: seq<Txn>): seq<Spec> {
    seq(|ts|, i requires 0 <= i < |ts| => Abstract(ts[i]))
  }

  /** Some of the visited states, in order and with the last one, are visited too. */
  lemma VisitsSome(path: seq<Spec>, pos: seq<nat>, states: seq<Spec>, some: seq<Spec>, at: seq<nat>) returns (pos': seq<nat>)
    requires Visits(path, pos, states) && |at| == |some| > 0
    requires forall i :: 0 <= i < |at| ==> at[i] < |states| && states[at[i]] == some[i]
    requires forall i, j :: 0 <= i <= j < |at| ==> at[i] <= at[j]
    requires at[|at| - 1] == |states| - 1
    ensures Visits(path, pos', some)
  {
    pos' := seq(|at|, i requires 0 <= i < |at| => pos[at[i]]);
  }

  /** Some path leads from one state to the other. */
  ghost predicate Leads(s: Spec, s': Spec) {
    exists path :: Path(path) && path[0] == s && path[|path| - 1] == s'
  }

  lemma VisitsNext(path: seq<Spec>, pos: seq<nat>, states: seq<Spec>, qq: seq<Spec>)
    requires path != [] && qq != [] && Visits(path, pos, states) && qq[0] == path[|path| - 1]
    ensures var path' := path + qq[1..]; Visits(path', pos + [|path'| - 1], states + [qq[|qq| - 1]])
  {
    var path', states' := path + qq[1..], states + [qq[|qq| - 1]];
    var pos' := pos + [|path'| - 1];
    assert path'[|path'| - 1] == qq[|qq| - 1];
    assert forall i :: 0 <= i < |pos| ==> pos'[i] == pos[i] && path'[pos[i]] == path[pos[i]] && states'[i] == states[i];
  }

  lemma LeadsOn(path: seq<Spec>, pos: seq<nat>, states: seq<Spec>, s: Spec) returns (path': seq<Spec>, pos': seq<nat>)
    requires Path(path) && Visits(path, pos, states) && Leads(states[|states| - 1], s)
    ensures Path(path') && path'[0] == path[0] && Visits(path', pos', states + [s])
  {
    var qq :| Path(qq) && qq[0] == states[|states| - 1] && qq[|qq| - 1] == s;
    JoinPaths(path, qq);
    VisitsNext(path, pos, states, qq);
    path' := path + qq[1..];
    pos' := pos + [|path'| - 1];
  }

  lemma {:induction false} PathThrough(states: seq<Spec>) returns (path: seq<Spec>, pos: seq<nat>)
    requires states != [] && forall i :: 0 <= i < |states| - 1 ==> Leads(states[i], states[i + 1])
    ensures Path(path) && path[0] == states[0] && Visits(path, pos, states)
    decreases |states|
  {
    var n := |states| - 1;
    if n == 0 {
      path, pos := [states[0]], [0];
    } else {
      path, pos := PathThrough(states[..n]);
      path, pos := LeadsOn(path, pos, states[..n], states[n]);
      assert states == states[..n] + [states[n]];
    }
  }

  lemma NextLeads(ts: seq<Txn>, steps: seq<Step>, i: nat)
    requires IsRun(ts, steps) && i < |steps|
    ensures Leads(Abstract(ts[i]), Abstract(ts[i + 1]))
  {
    RunInv(ts, steps, i);
    var path := StepRefines(ts[i], steps[i]);
  }

  /** Every run of the protocol is a path of the specification from its start, which
      visits the states of the run in their order. */
  lemma RunRefines(ts: seq<Txn>, steps: seq<Step>) returns (path: seq<Spec>, pos: seq<nat>)
    requires IsRun(ts, steps)
    ensures Path(path) && path[0] == INITIAL && Visits(path, pos, Abstracts(ts))
  {
    var states := Abstracts(ts);
    forall i | 0 <= i < |states| - 1
      ensures Leads(states[i], states[i + 1])
    {
      NextLeads(ts, steps, i);
    }
    path, pos := PathThrough(states);
    IdleIsInitial(ts[0]);
  }

  /** What visiting in order comes to: a verdict stays, and so do the decisions of the
      nodes, which agree with it. */
  lemma VisitedVerdictStays(path: seq<Spec>, pos: seq<nat>, states: seq<Spec>, i: nat, j: nat)
    requires Path(path) && path[0] == INITIAL && Visits(path, pos, states) && i <= j < |states|
    ensures states[i].verdict.Some? ==> states[j].verdict == states[i].verdict
    ensures forall k :: k in states[i].decided ==>
              k in states[j].decided && Some(states[j].decided[k]) == Some(states[i].decided[k]) == states[j].verdict
  {
    PathKeeps(path, pos[j]);
    assert pos[i] <= pos[j];
    var early := path[pos[i]];
    assert early == states[i] && path[pos[j]] == states[j];
  }
}
