/** Pieces of runs, and a way to build them: dealing with one packet after another until
    none is left. */
module TransactionPaths {
  import opened Messages
  import opened Transaction
  import opened TransactionSafety
  import opened TransactionProgress
  import RwSetFormat

  /** Steps in a row. */
  ghost predicate IsPath(ts: seq<Txn>, steps: seq<Step>) {
    && |ts| == |steps| + 1
    && forall i :: 0 <= i < |steps| ==> Enabled(ts[i], steps[i]) && ts[i + 1] == Apply(ts[i], steps[i])
  }

  ghost predicate Chosen(t: Txn, step: Step, choose: (Txn, Packet) -> Step) {
    exists p :: p in t.net && step == choose(t, p)
  }

  lemma ChosenFor(t: Txn, step: Step, choose: (Txn, Packet) -> Step) returns (p: Packet)
    requires Chosen(t, step, choose)
    ensures p in t.net && step == choose(t, p)
  {
    p :| p in t.net && step == choose(t, p);
  }

  /** Dealing with one packet in the chosen way keeps what is to be kept and uses up some
      of the measure. */
  ghost predicate Deals(t: Txn, p: Packet, keeps: Txn -> bool, choose: (Txn, Packet) -> Step) {
    keeps(t) && p in t.net ==>
      && Enabled(t, choose(t, p)) && keeps(Apply(t, choose(t, p)))
      && Measure(Apply(t, choose(t, p))) < Measure(t)
  }

  lemma DealWith(t: Txn, p: Packet, step: Step, keeps: Txn -> bool, choose: (Txn, Packet) -> Step)
    requires choose(t, p) == step && Enabled(t, step) && keeps(Apply(t, step))
    requires Measure(Apply(t, step)) < Measure(t)
    ensures Deals(t, p, keeps, choose)
  {
  }

  /** The network can be emptied, packet by packet. */
  lemma {:induction false} Drain(t: Txn, keeps: Txn -> bool, choose: (Txn, Packet) -> Step)
    returns (ts: seq<Txn>, steps: seq<Step>)
    requires keeps(t) && forall u, p :: Deals(u, p, keeps, choose)
    ensures IsPath(ts, steps) && ts[0] == t && |steps| <= Measure(t)
    ensures ts[|steps|].net == multiset{} && keeps(ts[|steps|])
    ensures forall i :: 0 <= i < |steps| ==> Chosen(ts[i], steps[i], choose) && keeps(ts[i])
    decreases Measure(t)
  {
    if t.net == multiset{} {
      ts, steps := [t], [];
    } else {
      var p :| p in t.net;
      assert Deals(t, p, keeps, choose);
      var step := choose(t, p);
      ts, steps := Drain(Apply(t, step), keeps, choose);
      ts, steps := DrainMore(t, step, ts, steps, keeps, choose);
    }
  }

  lemma DrainMore(t: Txn, step: Step, ts: seq<Txn>, steps: seq<Step>, keeps: Txn -> bool, choose: (Txn, Packet) -> Step)
    returns (ts': seq<Txn>, steps': seq<Step>)
    requires IsPath(ts, steps) && Enabled(t, step) && ts[0] == Apply(t, step) && Chosen(t, step, choose) && keeps(t)
    requires forall i :: 0 <= i < |steps| ==> Chosen(ts[i], steps[i], choose) && keeps(ts[i])
    ensures ts' == [t] + ts && steps' == [step] + steps && IsPath(ts', steps')
    ensures forall i :: 0 <= i < |steps'| ==> Chosen(ts'[i], steps'[i], choose) && keeps(ts'[i])
  {
    ts', steps' := [t] + ts, [step] + steps;
    forall i | 0 <= i < |steps'|
      ensures Enabled(ts'[i], steps'[i]) && ts'[i + 1] == Apply(ts'[i], steps'[i])
      ensures Chosen(ts'[i], steps'[i], choose) && keeps(ts'[i])
    {
      if i > 0 {
        assert ts'[i] == ts[i - 1] && steps'[i] == steps[i - 1] && ts'[i + 1] == ts[i];
      }
    }
  }

  /** A piece of a run after the request is, with the request, a run. */
  lemma RunFrom(t: Txn, begin: Step, ts: seq<Txn>, steps: seq<Step>, holds: (Txn, Step) -> bool)
    requires t == Idle(t.id, t.coordinator) && Enabled(t, begin)
    requires IsPath(ts, steps) && ts[0] == Apply(t, begin)
    requires holds(t, begin) && forall i :: 0 <= i < |steps| ==> holds(ts[i], steps[i])
    ensures IsRun([t] + ts, [begin] + steps)
    ensures forall i :: 0 <= i < |[begin] + steps| ==> holds(([t] + ts)[i], ([begin] + steps)[i])
  {
    var ts', steps' := [t] + ts, [begin] + steps;
    forall i | 0 <= i < |steps'|
      ensures Enabled(ts'[i], steps'[i]) && ts'[i + 1] == Apply(ts'[i], steps'[i]) && holds(ts'[i], steps'[i])
    {
      if i > 0 {
        assert ts'[i] == ts[i - 1] && steps'[i] == steps[i - 1] && ts'[i + 1] == ts[i];
      }
    }
  }

  /** A step tells participants only. */
  predicate ReachesOnly(t: Txn, step: Step) {
    match step
    case Begin(data, e) =>
      RwSetFormat.ParticipantsOf(data).Some? && e.reached <= RwSetFormat.ParticipantsOf(data).value
    case Deliver(_, e) => e.reached <= Participants(t)
    case _ => true
  }

  /** A run in which only participants are told. */
  ghost predicate RunWithin(ts: seq<Txn>, steps: seq<Step>) {
    IsRun(ts, steps) && forall i :: 0 <= i < |steps| ==> ReachesOnly(ts[i], steps[i])
  }
}
