/** Which clients are answered at all: those whose request names its coordinator and
    somebody else. */
module ClientAnswers {
  import opened Messages
  import opened Transitions
  import opened Transaction
  import opened TransactionSafety
  import opened TransactionLiveness
  import opened CoordinatorFailure
  import opened ActorProofs
  import RwSetFormat
  import RwSetRoundTrip

  /** The coordinator is not told anything any more, or does not listen. */
  predicate OutOfTouch(t: Txn) {
    t.coordinator !in Participants(t) || !At(t, t.coordinator).outcome.Running?
  }

  lemma StaysOutOfTouch(t: Txn, step: Step)
    requires Inv(t) && t.data.Some? && Enabled(t, step) && OutOfTouch(t)
    ensures OutOfTouch(Apply(t, step)) && Apply(t, step).data == t.data && Apply(t, step).coordinator == t.coordinator
    ensures At(Apply(t, step), t.coordinator).xact == At(t, t.coordinator).xact
    ensures step != Stop(t.coordinator) ==> At(Apply(t, step), t.coordinator) == At(t, t.coordinator)
  {
    if step.Deliver? {
      assert PacketInv(t, step.packet);
    }
  }

  /** What an improper request makes of its coordinator. */
  lemma ImproperBegins(id: XactId, c: NodeId, data: seq<Byte>, e: Env)
    requires !ProperRequest(c, data)
    ensures var t := Apply(Idle(id, c), Begin(data, e));
            && OutOfTouch(t) && !StatusAt(t, c).Terminal() && !ReplyAt(t).Answered?
            && (At(t, c).outcome.Running? <==>
                  && RwSetFormat.ParticipantsOf(data).Some? && c !in RwSetFormat.ParticipantsOf(data).value
                  && BroadcastOk(RwSetFormat.ParticipantsOf(data).value, e))
  {
    LocalHandled(c, id, data, e);
    if RwSetFormat.ParticipantsOf(data).Some? && c !in RwSetFormat.ParticipantsOf(data).value {
      assert RwSetFormat.ParticipantsOf(data).value - {c} == RwSetFormat.ParticipantsOf(data).value;
    }
  }

  lemma {:induction false} ImproperStays(ts: seq<Txn>, steps: seq<Step>, n: nat)
    requires IsRun(ts, steps) && 0 < n < |ts| && OutOfTouch(ts[1])
    ensures ts[n].data == ts[1].data && ts[n].data.Some? && ts[n].coordinator == ts[1].coordinator && OutOfTouch(ts[n])
    ensures At(ts[n], ts[1].coordinator).xact == At(ts[1], ts[1].coordinator).xact
    ensures (forall i :: 0 <= i < n ==> steps[i] != Stop(ts[1].coordinator)) ==>
              At(ts[n], ts[1].coordinator) == At(ts[1], ts[1].coordinator)
  {
    if n > 1 {
      ImproperStays(ts, steps, n - 1);
      RunInv(ts, steps, n - 1);
      StaysOutOfTouch(ts[n - 1], steps[n - 1]);
    }
  }

  /** In no run, whatever its faults or their absence, is a client answered whose request
      does not name its coordinator and somebody else. */
  lemma AnsweredOnlyIfProper(ts: seq<Txn>, steps: seq<Step>, n: nat)
    requires IsRun(ts, steps) && n < |ts| && ClientSees(ts[n]).Told?
    ensures ts[n].data.Some? && ProperRequest(ts[n].coordinator, ts[n].data.value)
  {
    RunInv(ts, steps, n);
    assert n > 0;
    var data, e := steps[0].data, steps[0].env;
    if !ProperRequest(ts[0].coordinator, data) {
      ImproperBegins(ts[0].id, ts[0].coordinator, data, e);
      ImproperStays(ts, steps, n);
    } else {
      RequestKept(ts, steps, n);
    }
  }

  lemma {:induction false} RequestKept(ts: seq<Txn>, steps: seq<Step>, n: nat)
    requires IsRun(ts, steps) && 0 < n < |ts|
    ensures ts[n].data == ts[1].data && ts[n].data.Some? && ts[n].coordinator == ts[1].coordinator
  {
    if n > 1 {
      RequestKept(ts, steps, n - 1);
    }
  }

  /** Nothing goes wrong, whatever the request is. */
  predicate WellServed(t: Txn, step: Step) {
    match step
    case Begin(data, e) =>
      RwSetFormat.ParticipantsOf(data).Some? ==> Perfect(e, RwSetFormat.ParticipantsOf(data).value - {t.coordinator})
    case Deliver(_, _) => FaultFree(t, step)
    case _ => false
  }

  /** When nothing goes wrong and everything is delivered, the client is answered exactly
      if its request names the coordinator and somebody else. A request that names others
      only keeps the client waiting for good; any other makes the coordinator hang up. */
  lemma AnsweredExactlyIfProper(ts: seq<Txn>, steps: seq<Step>)
    requires IsRun(ts, steps) && |steps| > 0 && ts[|steps|].net == multiset{}
    requires forall i :: 0 <= i < |steps| ==> WellServed(ts[i], steps[i])
    ensures var t := ts[|steps|];
            && t.data.Some?
            && (ClientSees(t).Told? <==> ProperRequest(t.coordinator, t.data.value))
            && (ClientSees(t) == Kept <==>
                  && RwSetFormat.ParticipantsOf(t.data.value).Some?
                  && t.coordinator !in RwSetFormat.ParticipantsOf(t.data.value).value)
  {
    var data, c := steps[0].data, ts[0].coordinator;
    RequestKept(ts, steps, |steps|);
    if ProperRequest(c, data) {
      ProperIsFaultFree(ts, steps);
      FaultFreeRunDecides(ts, steps);
    } else {
      ImproperBegins(ts[0].id, c, data, steps[0].env);
      ImproperStays(ts, steps, |steps|);
      ImproperEnds(ts, steps);
    }
  }

  lemma ProperIsFaultFree(ts: seq<Txn>, steps: seq<Step>)
    requires IsRun(ts, steps) && |steps| > 0 && ProperRequest(ts[0].coordinator, steps[0].data)
    requires forall i :: 0 <= i < |steps| ==> WellServed(ts[i], steps[i])
    ensures IsFaultFree(ts, steps)
  {
    forall i | 0 <= i < |steps|
      ensures FaultFree(ts[i], steps[i])
    {
      if i > 0 {
        RequestKept(ts, steps, i);
        assert !steps[i].Begin?;
      }
    }
  }

  lemma ImproperEnds(ts: seq<Txn>, steps: seq<Step>)
    requires IsRun(ts, steps) && |steps| > 0 && !ProperRequest(ts[0].coordinator, steps[0].data)
    requires forall i :: 0 <= i < |steps| ==> WellServed(ts[i], steps[i])
    ensures var c, p, t := ts[0].coordinator, RwSetFormat.ParticipantsOf(steps[0].data), ts[|steps|];
            ClientSees(t) == if p.Some? && c !in p.value then Kept else HungUp
  {
    var c, t := ts[0].coordinator, ts[|steps|];
    ImproperBegins(ts[0].id, c, steps[0].data, steps[0].env);
    ImproperStays(ts, steps, |steps|);
    assert At(t, c) == At(ts[1], c);
    var p := RwSetFormat.ParticipantsOf(steps[0].data);
    if p.Some? && c !in p.value {
      assert p.value - {c} == p.value;
    }
  }

  /** The transaction of a client kept waiting in this way may well be decided: its
      participants all finish. */
  lemma UnansweredIsDecided(ts: seq<Txn>, steps: seq<Step>, k: NodeId)
    requires IsRun(ts, steps) && |steps| > 0 && ts[|steps|].net == multiset{}
    requires forall i :: 0 <= i < |steps| ==> WellServed(ts[i], steps[i])
    requires ts[|steps|].coordinator !in Participants(ts[|steps|]) && k in Participants(ts[|steps|])
    ensures StatusAt(ts[|steps|], k).Terminal() && !ClientSees(ts[|steps|]).Told?
  {
    AnsweredExactlyIfProper(ts, steps);
    RequestKept(ts, steps, |steps|);
    forall i | 0 <= i < |steps|
      ensures OnlyCoordinatorFails(ts[i], steps[i])
      ensures steps[i].Deliver? ==> BroadcastOk(Peers(Participants(ts[i]), steps[i].packet.to), steps[i].env)
    {
      if i > 0 {
        RequestKept(ts, steps, i);
      }
    }
    SurrogatesDecide(ts, steps, k);
  }

  // ----- Requests that are rejected --------------------------------------------------------

  /** The bytes break off before the section length, or fewer follow it than it says, or
      not even the relation count. */
  ghost predicate BreaksOff(data: seq<Byte>) {
    || |data| < 16
    || exists dbid, regionSet, len, rest :: IsHead(data, dbid, regionSet, len, rest) && (|rest| < len || |rest| < 4)
  }

  predicate IsHead(data: seq<Byte>, dbid: nat, regionSet: nat, len: nat, rest: seq<Byte>) {
    && RwSetRoundTrip.Word(dbid, 4) && RwSetRoundTrip.Word(regionSet, 8) && RwSetRoundTrip.Word(len, 4)
    && data == RwSetRoundTrip.Bytes(dbid, 4) + RwSetRoundTrip.Bytes(regionSet, 8) + RwSetRoundTrip.Bytes(len, 4) + rest
  }

  lemma BreakingOffIsRejected(data: seq<Byte>)
    ensures BreaksOff(data) ==> RwSetFormat.ParticipantsOf(data).None?
  {
    if |data| < 16 {
      RwSetRoundTrip.ShortDataRejected(data);
    } else if BreaksOff(data) {
      var dbid, regionSet, len, rest :| IsHead(data, dbid, regionSet, len, rest) && (|rest| < len || |rest| < 4);
      RwSetRoundTrip.HeadRejectsExactlyIf(dbid, regionSet, len, rest);
    }
  }

  lemma RejectedBegins(id: XactId, c: NodeId, data: seq<Byte>, e: Env)
    requires BreaksOff(data)
    ensures var t := Apply(Idle(id, c), Begin(data, e));
            t.sent == multiset{} && t.net == multiset{} && ClientSees(t) == HungUp
  {
    BreakingOffIsRejected(data);
    Undecodable(FRESH, c, id, c, data, e);
  }

  /** A request that breaks off costs its client the session, and no message is ever sent
      for it. */
  lemma {:induction false} BreakingOffHangsUp(ts: seq<Txn>, steps: seq<Step>, n: nat)
    requires IsRun(ts, steps) && 0 < n < |ts| && BreaksOff(steps[0].data)
    ensures ts[n].data.Some? && ts[n].sent == multiset{} && ts[n].net == multiset{} && ClientSees(ts[n]) == HungUp
  {
    if n == 1 {
      RejectedBegins(ts[0].id, ts[0].coordinator, steps[0].data, steps[0].env);
    } else {
      BreakingOffHangsUp(ts, steps, n - 1);
      ClientSeesOnceNext(ts, steps, n - 1);
    }
  }
}
