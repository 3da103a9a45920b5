/** All servers and all transactions together. Seen from any one transaction, a run
    of the system is a run of that transaction alone, so everything proved of a single
    transaction holds of each transaction of the system. */
module System {
  import opened Messages
  import opened Transitions
  import opened Transaction
  import opened Bags
  import Bits
  import Ids

  datatype System = System(
    servers: seq<Server>,
    net: multiset<Packet>,
    sent: multiset<Packet>,            // history: all packets ever put on the network
    begun: map<XactId, seq<Byte>>)     // history: the requests, by the id they got

  function Start(n: nat): System {
    System(seq(n, _ => Server(0, map[])), multiset{}, multiset{}, map[])
  }

  datatype SysStep =
    | Request(node: NodeId, data: seq<Byte>, env: Env)
    | Arrive(packet: Packet, env: Env)
    | Drop(packet: Packet)
    | Cancel(node: NodeId, id: XactId)

  predicate Possible(s: System, step: SysStep) {
    match step
    case Request(k, _, e) =>
      k < |s.servers| && s.servers[k].counter + 1 < Bits.U32_LIMIT && ReachesServers(s, e)
    case Arrive(p, e) => p in s.net && p.to < |s.servers| && ReachesServers(s, e)
    case Drop(p) => p in s.net
    case Cancel(k, id) =>
      k < |s.servers| && id in s.servers[k].actors && s.servers[k].actors[id].outcome.Running?
  }

  predicate ReachesServers(s: System, e: Env) {
    forall k :: k in e.reached ==> k < |s.servers|
  }

  function Deliver(s: System, k: NodeId, input: Input, e: Env): System
    requires k < |s.servers|
  {
    var (server, sent) := Process(s.servers[k], k, input, e);
    s.(servers := s.servers[k := server], net := s.net + sent, sent := s.sent + sent)
  }

  function Take(s: System, step: SysStep): System
    requires Possible(s, step)
  {
    match step
    case Request(k, data, e) =>
      var id := TargetId(s.servers[k], k, LocalXact(data));
      Deliver(s.(begun := s.begun[id := data]), k, LocalXact(data), e)
    case Arrive(p, e) => Deliver(s.(net := s.net - multiset{p}), p.to, Remote(p.msg), e)
    case Drop(p) => s.(net := s.net - multiset{p})
    case Cancel(k, id) =>
      var server := s.servers[k];
      s.(servers := s.servers[k := server.(actors := server.actors[id := server.actors[id].(outcome := Cancelled)])])
  }

  // ----- One transaction of the system --------------------------------------------------

  function ForId(id: XactId): Packet -> bool {
    (p: Packet) => p.msg.id == id
  }

  function ActorsOf(s: System, id: XactId): map<NodeId, Actor> {
    map k: nat | k < |s.servers| && id in s.servers[k].actors :: s.servers[k].actors[id]
  }

  ghost function View(s: System, id: XactId): Txn {
    Txn(id, Ids.Node(id), if id in s.begun then Some(s.begun[id]) else None,
        ActorsOf(s, id), Only(s.net, ForId(id)), Only(s.sent, ForId(id)))
  }

  /** What a step means for transaction `id`, if anything. */
  function StepOf(s: System, step: SysStep, id: XactId): Option<Step>
    requires Possible(s, step)
  {
    match step
    case Request(k, data, e) => if id == TargetId(s.servers[k], k, LocalXact(data)) then Some(Begin(data, e)) else None
    case Arrive(p, e) => if id == p.msg.id then Some(Step.Deliver(p, e)) else None
    case Drop(p) => if id == p.msg.id then Some(Lose(p)) else None
    case Cancel(k, j) => if id == j then Some(Stop(k)) else None
  }

  /** Ids are numbered by the servers that issued them. */
  ghost predicate WellNumbered(s: System) {
    && |s.servers| <= Bits.U32_LIMIT
    && (forall k :: 0 <= k < |s.servers| ==> s.servers[k].counter < Bits.U32_LIMIT)
    && (forall id :: id in s.begun ==>
          && id < Bits.U64_LIMIT
          && Ids.Node(id) < |s.servers|
          && 0 < Ids.Counter(id) <= s.servers[Ids.Node(id)].counter)
  }

  ghost predicate SysInv(s: System) {
    WellNumbered(s) && forall id :: Inv(View(s, id))
  }

  // ----- Identity --------------------------------------------------------------------------

  /** A local transaction always gets a valid id that nothing in the system knows yet. */
  lemma FreshId(s: System, k: NodeId)
    requires SysInv(s) && k < |s.servers| && s.servers[k].counter + 1 < Bits.U32_LIMIT
    ensures var id := Ids.New(Ids.Next(s.servers[k].counter), k);
            && id != Ids.INVALID && id < Bits.U64_LIMIT && Ids.Node(id) == k
            && Ids.Counter(id) == s.servers[k].counter + 1
            && id !in s.begun
            && (forall j :: 0 <= j < |s.servers| ==> id !in s.servers[j].actors)
            && (forall p :: p in s.sent ==> p.msg.id != id)
  {
    NextId(s.servers[k].counter, k);
    UnknownId(s, Ids.New(Ids.Next(s.servers[k].counter), k));
  }

  lemma NextId(c: nat, k: NodeId)
    requires c + 1 < Bits.U32_LIMIT && k < Bits.U32_LIMIT
    ensures var id := Ids.New(Ids.Next(c), k);
            && Ids.Next(c) == c + 1
            && id != Ids.INVALID && id < Bits.U64_LIMIT && Ids.Node(id) == k && Ids.Counter(id) == c + 1
  {
    Ids.NewIsSum(c + 1, k);
    Ids.UnpackNew(c + 1, k);
    Ids.NextIsValid(c, k);
  }

  /** What has not begun has left no trace. */
  lemma UnknownId(s: System, id: XactId)
    requires SysInv(s) && id !in s.begun
    ensures forall j :: 0 <= j < |s.servers| ==> id !in s.servers[j].actors
    ensures forall p :: p in s.sent ==> p.msg.id != id
  {
    assert View(s, id) == Idle(id, Ids.Node(id));
    forall j | 0 <= j < |s.servers|
      ensures id !in s.servers[j].actors
    {
      assert j !in ActorsOf(s, id);
    }
    forall p | p in s.sent
      ensures p.msg.id != id
    {
      assert Only(s.sent, ForId(id))[p] == 0;
    }
  }

  // ----- Projection ------------------------------------------------------------------------

  lemma SentForTarget(a: Actor, k: NodeId, id: XactId, input: Input, e: Env)
    ensures forall p :: p in Receive(a, k, id, input, e).sent ==> p.msg.id == id
  {
  }

  /** The actor a message for `id` reaches at server `k`. */
  function Owner(s: System, k: NodeId, id: XactId): Actor
    requires k < |s.servers|
  {
    if id in s.servers[k].actors then s.servers[k].actors[id] else FRESH
  }

  lemma DeliverIs(s: System, k: NodeId, input: Input, e: Env)
    requires k < |s.servers|
    ensures var target := TargetId(s.servers[k], k, input);
            var h := Receive(Owner(s, k, target), k, target, input, e);
            var s' := Deliver(s, k, input, e);
            && s'.net == s.net + h.sent && s'.sent == s.sent + h.sent && s'.begun == s.begun
            && |s'.servers| == |s.servers|
            && s'.servers[k].actors == s.servers[k].actors[target := h.actor]
            && (forall j :: 0 <= j < |s.servers| && j != k ==> s'.servers[j] == s.servers[j])
            && s'.servers[k].counter == (if input.LocalXact? then Ids.Next(s.servers[k].counter) else s.servers[k].counter)
  {
  }

  lemma ActorsElsewhere(s: System, s': System, k: NodeId, target: XactId, a: Actor, id: XactId)
    requires k < |s.servers| == |s'.servers| && target != id
    requires s'.servers[k].actors == s.servers[k].actors[target := a]
    requires forall j :: 0 <= j < |s.servers| && j != k ==> s'.servers[j] == s.servers[j]
    ensures ActorsOf(s', id) == ActorsOf(s, id)
  {
  }

  lemma ActorsHere(s: System, s': System, k: NodeId, a: Actor, id: XactId)
    requires k < |s.servers| == |s'.servers|
    requires s'.servers[k].actors == s.servers[k].actors[id := a]
    requires forall j :: 0 <= j < |s.servers| && j != k ==> s'.servers[j] == s.servers[j]
    ensures ActorsOf(s', id) == ActorsOf(s, id)[k := a]
  {
  }

  /** Processing a message for one transaction leaves every other as it was. */
  lemma DeliverElsewhere(s: System, k: NodeId, input: Input, e: Env, id: XactId)
    requires k < |s.servers| && TargetId(s.servers[k], k, input) != id
    ensures View(Deliver(s, k, input, e), id) == View(s, id)
  {
    var target := TargetId(s.servers[k], k, input);
    var h := Receive(Owner(s, k, target), k, target, input, e);
    DeliverIs(s, k, input, e);
    SentForTarget(Owner(s, k, target), k, target, input, e);
    OnlyAdds(s.net, h.sent, ForId(id));
    OnlyAdds(s.sent, h.sent, ForId(id));
    ActorsElsewhere(s, Deliver(s, k, input, e), k, target, h.actor, id);
  }

  /** Processing a message for `id` is that transaction's own step. */
  lemma DeliverHere(s: System, k: NodeId, input: Input, e: Env, id: XactId)
    requires k < |s.servers| && TargetId(s.servers[k], k, input) == id
    ensures View(Deliver(s, k, input, e), id) ==
            Put(View(s, id), k, Receive(At(View(s, id), k), k, id, input, e))
  {
    var h := Receive(Owner(s, k, id), k, id, input, e);
    assert At(View(s, id), k) == Owner(s, k, id);
    DeliverIs(s, k, input, e);
    SentForTarget(Owner(s, k, id), k, id, input, e);
    OnlyAdds(s.net, h.sent, ForId(id));
    OnlyAdds(s.sent, h.sent, ForId(id));
    ActorsHere(s, Deliver(s, k, input, e), k, h.actor, id);
  }

  lemma RemoveHere(s: System, p: Packet)
    requires p in s.net
    ensures var t := View(s, p.msg.id);
            && p in t.net
            && View(s.(net := s.net - multiset{p}), p.msg.id) == t.(net := t.net - multiset{p})
  {
    OnlyDrops(s.net, p, ForId(p.msg.id));
  }

  lemma RemoveElsewhere(s: System, p: Packet, id: XactId)
    requires p in s.net && p.msg.id != id
    ensures View(s.(net := s.net - multiset{p}), id) == View(s, id)
  {
    OnlyDrops(s.net, p, ForId(id));
  }

  /** A step is a step of the transactions it concerns and changes no other. */
  lemma StepProjects(s: System, step: SysStep, id: XactId)
    requires SysInv(s) && Possible(s, step)
    ensures match StepOf(s, step, id)
            case None => View(Take(s, step), id) == View(s, id)
            case Some(v) => Enabled(View(s, id), v) && View(Take(s, step), id) == Apply(View(s, id), v)
  {
    match step
    case Request(k, data, e) => RequestProjects(s, k, data, e, id);
    case Arrive(p, e) => ArriveProjects(s, p, e, id);
    case Drop(p) =>
      if p.msg.id == id {
        RemoveHere(s, p);
      } else {
        RemoveElsewhere(s, p, id);
      }
    case Cancel(k, j) => CancelProjects(s, k, j, id);
  }

  lemma RequestProjects(s: System, k: NodeId, data: seq<Byte>, e: Env, id: XactId)
    requires SysInv(s) && Possible(s, Request(k, data, e))
    ensures var s' := Take(s, Request(k, data, e));
            if id == Ids.New(Ids.Next(s.servers[k].counter), k)
            then id !in s.begun && View(s', id) == Apply(View(s, id), Begin(data, e))
            else View(s', id) == View(s, id)
  {
    var input := LocalXact(data);
    var target := TargetId(s.servers[k], k, input);
    var s1 := s.(begun := s.begun[target := data]);
    FreshId(s, k);
    assert TargetId(s1.servers[k], k, input) == target;
    if id == target {
      DeliverHere(s1, k, input, e, id);
      assert View(s1, id) == View(s, id).(data := Some(data));
    } else {
      DeliverElsewhere(s1, k, input, e, id);
      assert View(s1, id) == View(s, id);
    }
  }

  lemma ArriveProjects(s: System, p: Packet, e: Env, id: XactId)
    requires Possible(s, Arrive(p, e))
    ensures var s' := Take(s, Arrive(p, e));
            if id == p.msg.id
            then p in View(s, id).net && View(s', id) == Apply(View(s, id), Step.Deliver(p, e))
            else View(s', id) == View(s, id)
  {
    var s1 := s.(net := s.net - multiset{p});
    if id == p.msg.id {
      RemoveHere(s, p);
      DeliverHere(s1, p.to, Remote(p.msg), e, id);
    } else {
      RemoveElsewhere(s, p, id);
      DeliverElsewhere(s1, p.to, Remote(p.msg), e, id);
    }
  }

  lemma CancelProjects(s: System, k: NodeId, j: XactId, id: XactId)
    requires Possible(s, Cancel(k, j))
    ensures var s' := Take(s, Cancel(k, j));
            if id == j
            then Enabled(View(s, id), Stop(k)) && View(s', id) == Apply(View(s, id), Stop(k))
            else View(s', id) == View(s, id)
  {
    var s' := Take(s, Cancel(k, j));
    if id == j {
      var a := s.servers[k].actors[id];
      assert ActorsOf(s', id) == ActorsOf(s, id)[k := a.(outcome := Cancelled)];
    } else {
      assert ActorsOf(s', id) == ActorsOf(s, id);
    }
  }
}
