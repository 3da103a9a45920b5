/** Every run of a single transaction is what some run of the whole system shows of it, so
    that what can happen to a transaction can happen in the system. */
module SystemWitnesses {
  import opened Messages
  import opened Transitions
  import opened Transaction
  import opened TransactionSafety
  import opened TransactionPaths
  import opened System
  import opened SystemRuns
  import opened Bags
  import Bits
  import CoordinatorFailure
  import Ids
  import Liveness = TransactionLiveness
  import LostVotes
  import Progress = TransactionProgress
  import RwSetFormat

  /** The first transaction of node `c`. */
  function FirstOf(c: NodeId): XactId {
    Ids.New(1, c)
  }

  /** The step of the system that is the given step of transaction `id`. */
  function Lifted(step: Step, id: XactId): SysStep {
    match step
    case Begin(data, e) => Request(Ids.Node(id), data, e)
    case Deliver(p, e) => Arrive(p, e)
    case Lose(p) => Drop(p)
    case Stop(k) => Cancel(k, id)
  }

  /** Only the first `n` nodes are told anything. */
  predicate ReachesBelow(step: Step, n: nat) {
    match step
    case Begin(_, e) => forall k :: k in e.reached ==> k < n
    case Deliver(_, e) => forall k :: k in e.reached ==> k < n
    case _ => true
  }

  predicate NetBelow(t: Txn, n: nat) {
    forall p :: p in t.net ==> p.to < n
  }

  lemma SentReaches(a: Actor, me: NodeId, id: XactId, input: Input, e: Env)
    ensures forall p :: p in Receive(a, me, id, input, e).sent ==> p.to in e.reached
  {
  }

  lemma NetStaysBelow(t: Txn, step: Step, n: nat)
    requires Enabled(t, step) && NetBelow(t, n) && ReachesBelow(step, n)
    ensures NetBelow(Apply(t, step), n)
  {
    match step
    case Begin(data, e) => SentReaches(At(t, t.coordinator), t.coordinator, t.id, LocalXact(data), e);
    case Deliver(p, e) => SentReaches(At(t, p.to), p.to, t.id, Remote(p.msg), e);
    case _ =>
  }

  lemma FirstIds(c: NodeId, n: nat)
    requires c < n <= Bits.U32_LIMIT
    ensures FirstOf(c) < Bits.U64_LIMIT && Ids.Node(FirstOf(c)) == c
    ensures TargetId(Start(n).servers[c], c, LocalXact([])) == FirstOf(c)
    ensures View(Start(n), FirstOf(c)) == Idle(FirstOf(c), c)
  {
    NextId(0, c);
    NothingBegun(n, FirstOf(c));
  }

  /** A state of the system, `n` servers large, that shows the given state of a
      transaction: at the start or after the request. */
  ghost predicate Shows(s: System, t: Txn, n: nat) {
    && SysInv(s) && |s.servers| == n && View(s, t.id) == t
    && (t.data.None? ==> s == Start(n))
  }

  lemma LiftedIsPossible(s: System, t: Txn, step: Step, n: nat)
    requires Shows(s, t, n) && n <= Bits.U32_LIMIT && t.coordinator < n && t.id == FirstOf(t.coordinator)
    requires Enabled(t, step) && NetBelow(t, n) && ReachesBelow(step, n)
    ensures Possible(s, Lifted(step, t.id)) && StepOf(s, Lifted(step, t.id), t.id) == Some(step)
  {
    FirstIds(t.coordinator, n);
    match step
    case Begin(_, _) =>
    case Deliver(p, _) => HasPacket(s, t, p);
    case Lose(p) => HasPacket(s, t, p);
    case Stop(k) => assert k in ActorsOf(s, t.id);
  }

  lemma HasPacket(s: System, t: Txn, p: Packet)
    requires View(s, t.id) == t && p in t.net
    ensures p in s.net && p.msg.id == t.id
  {
    assert Only(s.net, ForId(t.id))[p] > 0;
  }

  lemma LiftedShows(s: System, t: Txn, step: Step, n: nat)
    requires Shows(s, t, n) && n <= Bits.U32_LIMIT && t.coordinator < n && t.id == FirstOf(t.coordinator)
    requires Enabled(t, step) && NetBelow(t, n) && ReachesBelow(step, n)
    ensures Possible(s, Lifted(step, t.id)) && Shows(Take(s, Lifted(step, t.id)), Apply(t, step), n)
  {
    LiftedIsPossible(s, t, step, n);
    StepProjects(s, Lifted(step, t.id), t.id);
    SysStepKeeps(s, Lifted(step, t.id));
    TakeKeepsServers(s, Lifted(step, t.id));
    BegunAfter(t, step);
  }

  lemma TakeKeepsServers(s: System, step: SysStep)
    requires Possible(s, step)
    ensures |Take(s, step).servers| == |s.servers|
  {
  }

  lemma BegunAfter(t: Txn, step: Step)
    requires Inv(t) && Enabled(t, step)
    ensures Apply(t, step).data.Some? && Apply(t, step).id == t.id
  {
  }

  lemma SysRunGrows(ss: seq<System>, sys: seq<SysStep>, step: SysStep)
    requires IsSysRun(ss, sys) && Possible(ss[|sys|], step)
    ensures IsSysRun(ss + [Take(ss[|sys|], step)], sys + [step])
  {
    var ss', sys' := ss + [Take(ss[|sys|], step)], sys + [step];
    forall i | 0 <= i < |sys'|
      ensures Possible(ss'[i], sys'[i]) && ss'[i + 1] == Take(ss'[i], sys'[i])
    {
      if i < |sys| {
        assert ss'[i] == ss[i] && ss'[i + 1] == ss[i + 1] && sys'[i] == sys[i];
      } else {
        assert ss'[i] == ss[|sys|];
      }
    }
  }

  ghost predicate RunBelow(ts: seq<Txn>, steps: seq<Step>, c: NodeId, n: nat) {
    && IsRun(ts, steps) && c < n <= Bits.U32_LIMIT && ts[0] == Idle(FirstOf(c), c)
    && forall i :: 0 <= i < |steps| ==> ReachesBelow(steps[i], n)
  }

  /** The states of the system show those of the run, one by one. */
  ghost predicate Lifts(ss: seq<System>, sys: seq<SysStep>, ts: seq<Txn>, m: nat, n: nat) {
    && m < |ts| && IsSysRun(ss, sys) && |sys| == m
    && forall i :: 0 <= i <= m ==> Shows(ss[i], ts[i], n)
  }

  lemma {:induction false} RunIdentity(ts: seq<Txn>, steps: seq<Step>, c: NodeId, n: nat, m: nat)
    requires RunBelow(ts, steps, c, n) && m < |ts|
    ensures ts[m].id == FirstOf(c) && ts[m].coordinator == c && NetBelow(ts[m], n)
  {
    if m > 0 {
      RunIdentity(ts, steps, c, n, m - 1);
      NetStaysBelow(ts[m - 1], steps[m - 1], n);
    }
  }

  lemma StartShows(c: NodeId, n: nat)
    requires c < n <= Bits.U32_LIMIT
    ensures Shows(Start(n), Idle(FirstOf(c), c), n) && IsSysRun([Start(n)], [])
  {
    FirstIds(c, n);
    StartInv(n);
  }

  lemma {:induction false} RunLiftsTo(ts: seq<Txn>, steps: seq<Step>, c: NodeId, n: nat, m: nat)
    returns (ss: seq<System>, sys: seq<SysStep>)
    requires RunBelow(ts, steps, c, n) && m < |ts|
    ensures Lifts(ss, sys, ts, m, n)
  {
    if m == 0 {
      StartShows(c, n);
      ss, sys := [Start(n)], [];
    } else {
      ss, sys := RunLiftsTo(ts, steps, c, n, m - 1);
      RunIdentity(ts, steps, c, n, m - 1);
      LiftedShows(ss[m - 1], ts[m - 1], steps[m - 1], n);
      ss, sys := LiftsOneMore(ss, sys, ts, m, n, Lifted(steps[m - 1], FirstOf(c)));
    }
  }

  lemma LiftsOneMore(ss: seq<System>, sys: seq<SysStep>, ts: seq<Txn>, m: nat, n: nat, step: SysStep)
    returns (ss': seq<System>, sys': seq<SysStep>)
    requires 0 < m < |ts| && Lifts(ss, sys, ts, m - 1, n)
    requires Possible(ss[m - 1], step) && Shows(Take(ss[m - 1], step), ts[m], n)
    ensures Lifts(ss', sys', ts, m, n)
  {
    SysRunGrows(ss, sys, step);
    ss', sys' := ss + [Take(ss[m - 1], step)], sys + [step];
    forall i | 0 <= i <= m
      ensures Shows(ss'[i], ts[i], n)
    {
      assert i < m ==> ss'[i] == ss[i];
    }
  }

  /** Every run of the first transaction of some node, in which only the first `n` nodes
      are told anything, is the view of a run of the system of `n` servers. */
  lemma RunLifts(ts: seq<Txn>, steps: seq<Step>, c: NodeId, n: nat) returns (ss: seq<System>, sys: seq<SysStep>)
    requires RunBelow(ts, steps, c, n)
    ensures IsSysRun(ss, sys) && |sys| == |steps|
    ensures forall i :: 0 <= i < |ts| ==> |ss[i].servers| == n && View(ss[i], FirstOf(c)) == ts[i]
  {
    ss, sys := RunLiftsTo(ts, steps, c, n, |steps|);
    forall i | 0 <= i < |ts|
      ensures |ss[i].servers| == n && View(ss[i], FirstOf(c)) == ts[i]
    {
      assert Shows(ss[i], ts[i], n);
      RunIdentity(ts, steps, c, n, i);
    }
  }

  // ----- What can happen to a transaction can happen in the system ----------------------------

  /** The nodes that the request names exist. */
  predicate NamesBelow(data: seq<Byte>, n: nat) {
    RwSetFormat.ParticipantsOf(data).Some? && forall k :: k in RwSetFormat.ParticipantsOf(data).value ==> k < n
  }

  lemma WithinIsBelow(ts: seq<Txn>, steps: seq<Step>, c: NodeId, n: nat, data: seq<Byte>)
    requires RunWithin(ts, steps) && ts[0] == Idle(FirstOf(c), c) && c < n <= Bits.U32_LIMIT
    requires |steps| > 0 ==> steps[0] == Begin(data, steps[0].env) && NamesBelow(data, n)
    ensures RunBelow(ts, steps, c, n)
  {
    forall i | 0 <= i < |steps|
      ensures ReachesBelow(steps[i], n)
    {
      if i > 0 {
        DataKept(ts, steps, i);
      }
      assert ReachesOnly(ts[i], steps[i]);
    }
  }

  lemma {:induction false} DataKept(ts: seq<Txn>, steps: seq<Step>, i: nat)
    requires IsRun(ts, steps) && 0 < i < |ts|
    ensures steps[0].Begin? && ts[i].data == Some(steps[0].data)
  {
    if i > 1 {
      DataKept(ts, steps, i - 1);
    }
  }

  /** In a system of `n` servers, every proper request among them has a run in which all
      its participants commit, if the calls of their executions work, and otherwise all roll
      back for the reason of the first call that does not. */
  lemma SystemCanEnd(c: NodeId, data: seq<Byte>, exec: ExecEnv, n: nat) returns (ss: seq<System>, sys: seq<SysStep>)
    requires c < n <= Bits.U32_LIMIT && Liveness.ProperRequest(c, data) && NamesBelow(data, n)
    ensures IsSysRun(ss, sys) && |ss[0].servers| == n && View(ss[|sys|], FirstOf(c)).data == Some(data)
    ensures forall k :: k in RwSetFormat.ParticipantsOf(data).value ==>
              Liveness.EndsBy(SystemRuns.Status(ss[|sys|], FirstOf(c), k), exec)
  {
    var ts, steps := Liveness.EveryRequestCanEnd(FirstOf(c), c, data, exec);
    ss, sys := WithinLifts(ts, steps, c, n, data);
  }

  lemma WithinLifts(ts: seq<Txn>, steps: seq<Step>, c: NodeId, n: nat, data: seq<Byte>)
    returns (ss: seq<System>, sys: seq<SysStep>)
    requires RunWithin(ts, steps) && ts[0] == Idle(FirstOf(c), c) && c < n <= Bits.U32_LIMIT
    requires ts[|steps|].data == Some(data) && NamesBelow(data, n)
    ensures IsSysRun(ss, sys) && |ss[0].servers| == n && View(ss[|sys|], FirstOf(c)) == ts[|steps|]
  {
    assert |steps| > 0;
    DataKept(ts, steps, |steps|);
    WithinIsBelow(ts, steps, c, n, data);
    ss, sys := RunLifts(ts, steps, c, n);
  }

  /** It has a run in which the coordinator cannot be reached any more, all executions
      succeed, and every surrogate ends up stopped with its transaction prepared; */
  lemma SystemCanBlock(c: NodeId, data: seq<Byte>, n: nat) returns (ss: seq<System>, sys: seq<SysStep>)
    requires c < n <= Bits.U32_LIMIT && Liveness.ProperRequest(c, data) && NamesBelow(data, n)
    ensures IsSysRun(ss, sys) && |ss[0].servers| == n
    ensures forall k :: k in RwSetFormat.ParticipantsOf(data).value - {c} ==>
              CoordinatorFailure.Stranded(View(ss[|sys|], FirstOf(c)), k)
  {
    var ts, steps := CoordinatorFailure.UnreachableCoordinatorBlocks(FirstOf(c), c, data);
    ss, sys := WithinLifts(ts, steps, c, n, data);
  }

  /** one in which one vote is lost and the client is kept waiting while all surrogates
      have committed; */
  lemma SystemCanKeepWaiting(c: NodeId, data: seq<Byte>, j: NodeId, n: nat) returns (ss: seq<System>, sys: seq<SysStep>)
    requires c < n <= Bits.U32_LIMIT && Liveness.ProperRequest(c, data) && NamesBelow(data, n)
    requires j in RwSetFormat.ParticipantsOf(data).value - {c}
    ensures IsSysRun(ss, sys) && |ss[0].servers| == n
    ensures View(ss[|sys|], FirstOf(c)).net == multiset{} && ClientSees(View(ss[|sys|], FirstOf(c))) == Kept
    ensures forall k :: k in RwSetFormat.ParticipantsOf(data).value - {c} ==> SystemRuns.Status(ss[|sys|], FirstOf(c), k) == Committed
  {
    var ts, steps := LostVotes.LostVoteKeepsWaiting(FirstOf(c), c, data, j);
    ss, sys := WithinLifts(ts, steps, c, n, data);
  }

  /** and one in which the client is hung up on and all surrogates commit. */
  lemma SystemCanHangUp(c: NodeId, data: seq<Byte>, n: nat) returns (ss: seq<System>, sys: seq<SysStep>)
    requires c < n <= Bits.U32_LIMIT && Liveness.ProperRequest(c, data) && NamesBelow(data, n)
    ensures IsSysRun(ss, sys) && |ss[0].servers| == n && ClientSees(View(ss[|sys|], FirstOf(c))) == HungUp
    ensures forall k :: k in RwSetFormat.ParticipantsOf(data).value - {c} ==> SystemRuns.Status(ss[|sys|], FirstOf(c), k) == Committed
  {
    var e := Env(CoordinatorFailure.WORKS, RwSetFormat.ParticipantsOf(data).value - {c}, false, Liveness.PERFECT_FINISH);
    var ts, steps := CoordinatorFailure.CommitsAfterHangUp(FirstOf(c), c, data, e);
    DataKept(ts, steps, |steps|);
    ss, sys := WithinLifts(ts, steps, c, n, data);
  }
}
