/** The actor of one transaction and the manager that creates actors and routes
    messages to them, as objects (xactserver/src/manager.rs). */
module Manager {
  import opened Messages
  import opened Transitions
  import opened Controllers
  import opened XactStates
  import Decoder
  import Bits
  import Ids

  lemma BroadcastGrows(peers: set<NodeId>, p: NodeId, reached: set<NodeId>, msg: Message)
    requires p !in peers
    ensures Broadcast(peers + {p}, reached, msg) ==
            Broadcast(peers, reached, msg) + (if p in reached then multiset{Packet(p, msg)} else multiset{})
  {
  }

  /** Messages received by an actor one after another, and all the packets it sends. */
  ghost function ReceiveAll(a: Actor, me: NodeId, id: XactId, inbox: seq<(Input, Env)>): Handled
    decreases |inbox|
  {
    if inbox == [] then Handled(a, multiset{})
    else
      var h := ReceiveAll(a, me, id, inbox[..|inbox| - 1]);
      var (input, e) := inbox[|inbox| - 1];
      var h' := Receive(h.actor, me, id, input, e);
      Handled(h'.actor, h.sent + h'.sent)
  }

  class XactStateManager {
    const xactId: XactId
    const nodeId: NodeId
    const pg: Postgres
    const xact: XactType
    var coordinatorId: Option<NodeId>
    var outcome: Outcome
    ghost var log: Log
    ghost var Repr: set<object>

    ghost predicate Valid()
      reads this, Repr, pg
    {
      && this in Repr && xact in Repr && xact.Footprint() - {pg} <= Repr && pg !in Repr
      && xact.Owns(xactId, pg)
      && (outcome.Running? && !xact.variant.SurrogateVariant? ==> pg.Under(Gid()) == NO_XACT)
    }

    function Gid(): string {
      Ids.Display(xactId)
    }

    ghost function Value(): Actor
      requires Valid()
      reads this, Repr, pg
    {
      Actor(coordinatorId, xact.Value(), outcome, log)
    }

    constructor (xactId: XactId, nodeId: NodeId, pg: Postgres)
      requires pg.Under(Ids.Display(xactId)) == NO_XACT
      ensures Valid() && Value() == FRESH && fresh(Repr)
      ensures this.xactId == xactId && this.nodeId == nodeId && this.pg == pg
    {
      this.xactId, this.nodeId, this.pg := xactId, nodeId, pg;
      coordinatorId, outcome, log := None, Running, NO_LOG;
      xact := new XactType();
      new;
      Repr := {this, xact};
    }

    /** What happens under other gids and to other objects leaves an actor alone. */
    twostate lemma Undisturbed(gid: string)
      requires old(Valid()) && unchanged(old(Repr)) && pg.OnlyChanges(gid) && gid != Gid()
      ensures Valid() && Value() == old(Value()) && Repr == old(Repr)
    {
    }

    /** `send_to_all_but_me`. */
    method SendToAllButMe(participants: set<NodeId>, msg: Message, e: Env) returns (ok: bool, sent: multiset<Packet>)
      ensures sent == Broadcast(Peers(participants, nodeId), e.reached, msg)
      ensures ok == BroadcastOk(Peers(participants, nodeId), e)
    {
      ok, sent := e.acked, multiset{};
      var rest := participants;
      assert Peers({}, nodeId) == {};
      while rest != {}
        invariant rest <= participants
        invariant sent == Broadcast(Peers(participants - rest, nodeId), e.reached, msg)
        invariant ok == BroadcastOk(Peers(participants - rest, nodeId), e)
        decreases rest
      {
        var p :| p in rest;
        ghost var done := Peers(participants - rest, nodeId);
        rest := rest - {p};
        if p != nodeId {
          assert Peers(participants - rest, nodeId) == done + {p};
          BroadcastGrows(done, p, e.reached, msg);
          if p in e.reached {
            sent := sent + multiset{Packet(p, msg)};
          } else {
            ok := false;
          }
        } else {
          assert Peers(participants - rest, nodeId) == done;
        }
      }
      assert participants - rest == participants;
    }

    /** The end of two handlers: try to finish, and see how the loop stands. */
    method FinishIfDecided(e: FinishEnv)
      requires Valid() && outcome.Running?
      modifies Repr, pg
      ensures Valid() && Value() == Finish(old(Value()), e)
      ensures Repr == old(Repr) && pg.OnlyChanges(Gid())
    {
      var ok := xact.TryFinish(e);
      match xact.variant
      case UnknownVariant(_) =>
      case LocalVariant(s) => outcome := if !ok then Failed else if s.status.Terminal() then Finished else Running;
      case SurrogateVariant(s) => outcome := if !ok then Failed else if s.status.Terminal() then Finished else Running;
    }

    /** An error while sending ends the actor. */
    method SendOrFail(participants: set<NodeId>, msg: Message, e: Env) returns (sent: multiset<Packet>)
      requires Valid()
      modifies this`outcome
      ensures Valid() && Handled(Value(), sent) == SendAll(old(Value()), nodeId, participants, msg, e)
    {
      var ok;
      ok, sent := SendToAllButMe(participants, msg, e);
      if !ok {
        outcome := Failed;
      }
    }

    method InitAsCoordinator(participants: set<NodeId>, e: ExecEnv)
      requires Valid() && outcome.Running?
      modifies Repr
      ensures Valid() && fresh(Repr - old(Repr))
      ensures Value() == InitLocal(old(Value()), nodeId, participants, e)
    {
      var ok, unreachable := xact.InitAsLocal(nodeId, nodeId, participants, e);
      Repr := Repr + xact.Footprint();
      if unreachable {
        outcome := Unreachable;
      } else if !ok {
        outcome := Failed;
      } else if xact.variant.local.status != Waiting {
        outcome := AssertFailed;
      }
    }

    method HandleLocalXactMsg(data: seq<Byte>, e: Env) returns (sent: multiset<Packet>)
      requires Valid() && outcome.Running?
      modifies Repr
      ensures Valid() && fresh(Repr - old(Repr))
      ensures Handled(Value(), sent) == HandleLocal(old(Value()), nodeId, xactId, data, e)
    {
      coordinatorId := Some(nodeId);
      sent := multiset{};
      var participants := Decoder.DecodeParticipants(data);
      if participants == None {
        outcome := Failed;
        return;
      }
      InitAsCoordinator(participants.value, e.exec);
      if outcome == Running {
        sent := SendOrFail(participants.value, PrepareMessage(nodeId, xactId, data), e);
      }
    }

    method InitAsParticipant(from: NodeId, participants: set<NodeId>, data: seq<Byte>, e: ExecEnv)
      requires Valid() && outcome.Running?
      modifies Repr, pg
      ensures Valid() && fresh(Repr - old(Repr)) && pg.OnlyChanges(Gid()) && xact.variant.SurrogateVariant?
      ensures Value() == InitSurrogate(old(Value()), nodeId, from, participants, e)
    {
      ghost var held := SurrogateController(pg.Under(Gid()));
      var ok, unreachable := xact.InitAsSurrogate(xactId, nodeId, from, participants, data, pg, e);
      Repr := Repr + (xact.Footprint() - {pg});
      if unreachable {
        outcome := Unreachable;
        return;
      }
      log := Log(Some(Transitions.Execute(held, e).1), None);
      var status := xact.variant.surrogate.status;
      if !ok || status.Uninitialized? {
        outcome := Failed;
      } else {
        log := log.(verdict := Some(VerdictOf(status)));
      }
    }

    method BroadcastVerdict(participants: set<NodeId>, verdict: Option<RollbackReason>, e: Env)
      returns (sent: multiset<Packet>)
      requires Valid() && outcome.Running?
      modifies Repr, pg
      ensures Valid() && Repr == old(Repr) && pg.OnlyChanges(Gid())
      ensures Handled(Value(), sent) == CastVote(old(Value()), nodeId, xactId, participants, verdict, e)
    {
      sent := SendOrFail(participants, VoteMessage(nodeId, xactId, verdict), e);
      if outcome == Running {
        FinishIfDecided(e.finish);
      }
    }

    method Participate(from: NodeId, participants: set<NodeId>, data: seq<Byte>, e: Env)
      returns (sent: multiset<Packet>)
      requires Valid() && outcome.Running?
      modifies Repr, pg
      ensures Valid() && fresh(Repr - old(Repr)) && pg.OnlyChanges(Gid())
      ensures Handled(Value(), sent) == TakePart(old(Value()), nodeId, xactId, from, participants, e)
    {
      sent := multiset{};
      InitAsParticipant(from, participants, data, e.exec);
      if outcome == Running {
        var rollbackReason := VerdictOf(xact.variant.surrogate.status);
        sent := BroadcastVerdict(participants, rollbackReason, e);
      }
    }

    method HandlePrepareMsg(from: NodeId, data: seq<Byte>, e: Env) returns (sent: multiset<Packet>)
      requires Valid() && outcome.Running?
      modifies Repr, pg
      ensures Valid() && fresh(Repr - old(Repr)) && pg.OnlyChanges(Gid())
      ensures Handled(Value(), sent) == HandlePrepare(old(Value()), nodeId, xactId, from, data, e)
    {
      coordinatorId := Some(from);
      sent := multiset{};
      var participants := Decoder.DecodeParticipants(data);
      if participants == None {
        outcome := Failed;
        return;
      }
      if nodeId !in participants.value {
        outcome := Finished;
        return;
      }
      sent := Participate(from, participants.value, data, e);
    }

    method HandleVoteMsg(vote: Vote, e: FinishEnv)
      requires Valid() && outcome.Running?
      modifies Repr, pg
      ensures Valid() && Repr == old(Repr) && pg.OnlyChanges(Gid())
      ensures Value() == HandleVote(old(Value()), vote, e)
    {
      var ok := xact.AddVote(vote);
      if ok {
        FinishIfDecided(e);
      } else {
        outcome := Failed;
      }
    }

    /** One turn of the actor's loop; after the last turn, nothing happens any more. */
    method OnMessage(input: Input, e: Env) returns (sent: multiset<Packet>)
      requires Valid()
      modifies Repr, pg
      ensures Valid() && fresh(Repr - old(Repr)) && pg.OnlyChanges(Gid())
      ensures Handled(Value(), sent) == Receive(old(Value()), nodeId, xactId, input, e)
    {
      sent := multiset{};
      if outcome != Running {
        return;
      }
      match input
      case LocalXact(data) => sent := HandleLocalXactMsg(data, e);
      case Remote(PrepareMessage(from, _, data)) => sent := HandlePrepareMsg(from, data, e);
      case Remote(VoteMessage(from, _, reason)) => HandleVoteMsg(Vote(from, reason), e.finish);
    }

    /** `run`: the loop over the actor's messages. It ends at the first turn that does
        not leave the actor listening, and the rest of the messages is never read. */
    method Run(inbox: seq<(Input, Env)>) returns (sent: multiset<Packet>)
      requires Valid()
      modifies Repr, pg
      ensures Valid() && fresh(Repr - old(Repr)) && pg.OnlyChanges(Gid())
      ensures Handled(Value(), sent) == ReceiveAll(old(Value()), nodeId, xactId, inbox)
    {
      sent := multiset{};
      var i := 0;
      ghost var a0 := Value();
      assert inbox[..0] == [];
      while i < |inbox| && outcome == Running
        invariant 0 <= i <= |inbox|
        invariant Valid() && fresh(Repr - old(Repr)) && pg.OnlyChanges(Gid())
        invariant ReceiveAll(a0, nodeId, xactId, inbox[..i]) == Handled(Value(), sent)
        decreases |inbox| - i
      {
        ghost var a := Value();
        var more := OnMessage(inbox[i].0, inbox[i].1);
        NextTurn(a0, nodeId, xactId, inbox, i, Handled(a, sent), Handled(Value(), more));
        sent := sent + more;
        i := i + 1;
      }
      StoppedReceives(a0, nodeId, xactId, inbox, i);
      assert inbox[..|inbox|] == inbox;
    }
  }

  lemma NextTurn(a: Actor, me: NodeId, id: XactId, inbox: seq<(Input, Env)>, i: nat, h: Handled, h': Handled)
    requires i < |inbox| && ReceiveAll(a, me, id, inbox[..i]) == h
    requires h' == Receive(h.actor, me, id, inbox[i].0, inbox[i].1)
    ensures ReceiveAll(a, me, id, inbox[..i + 1]) == Handled(h'.actor, h.sent + h'.sent)
  {
    assert inbox[..i + 1][..i] == inbox[..i];
  }

  /** Messages after the end of an actor's loop have no effect. */
  lemma {:induction false} StoppedReceives(a: Actor, me: NodeId, id: XactId, inbox: seq<(Input, Env)>, i: nat)
    requires i <= |inbox|
    requires i == |inbox| || !ReceiveAll(a, me, id, inbox[..i]).actor.outcome.Running?
    ensures ReceiveAll(a, me, id, inbox[..|inbox|]) == ReceiveAll(a, me, id, inbox[..i])
    decreases |inbox| - i
  {
    if i < |inbox| {
      assert inbox[..i + 1][..i] == inbox[..i];
      var h := ReceiveAll(a, me, id, inbox[..i]);
      assert h.sent + multiset{} == h.sent;
      StoppedReceives(a, me, id, inbox, i + 1);
    }
  }

  class Manager {
    const nodeId: NodeId
    const pg: Postgres
    var xactIdCounter: nat
    var actors: map<XactId, XactStateManager>
    ghost var model: map<XactId, Actor>       // the values of the actors
    ghost var Repr: set<object>

    /** The actor filed under `id`. */
    ghost predicate Filed(id: XactId)
      requires id in actors
      reads this, Repr, pg
    {
      var actor := actors[id];
      && id < Bits.U64_LIMIT
      && actor in Repr && actor.Repr <= Repr && this !in actor.Repr
      && actor.xactId == id && actor.nodeId == nodeId && actor.pg == pg
      && actor.Valid() && id in model && actor.Value() == model[id]
    }

    ghost predicate Disjoint()
      reads this, Repr
    {
      && (forall x :: x in actors ==> actors[x] in Repr)
      && (forall x, y :: x in actors && y in actors && x != y ==> actors[x].Repr !! actors[y].Repr)
    }

    /** An id that has no actor has nothing in Postgres. */
    ghost predicate Unused()
      reads this, pg
    {
      forall id: XactId :: id !in actors && id < Bits.U64_LIMIT ==> pg.Under(Ids.Display(id)) == NO_XACT
    }

    /** Actors are filed under their own ids and share nothing but Postgres. */
    ghost predicate Valid()
      reads this, Repr, pg
    {
      && this in Repr && pg !in Repr
      && nodeId < Bits.U32_LIMIT
      && model.Keys == actors.Keys
      && (forall id :: id in actors ==> Filed(id))
      && Disjoint()
      && Unused()
    }

    ghost function Value(): Server
      reads this
    {
      Server(xactIdCounter, model)
    }

    constructor (nodeId: NodeId, pg: Postgres)
      requires nodeId < Bits.U32_LIMIT && pg.xacts == map[]
      ensures Valid() && Value() == Server(0, map[]) && fresh(Repr)
      ensures this.nodeId == nodeId && this.pg == pg
    {
      this.nodeId, this.pg := nodeId, pg;
      xactIdCounter, actors, model := 0, map[], map[];
      new;
      Repr := {this};
    }

    /** A new actor for an id that has none. */
    method CreateActor(id: XactId)
      requires Valid() && id !in actors && id < Bits.U64_LIMIT
      modifies this
      ensures Valid() && fresh(Repr - old(Repr)) && xactIdCounter == old(xactIdCounter)
      ensures id in actors && model == old(model)[id := FRESH]
    {
      var actor := new XactStateManager(id, nodeId, pg);
      actors := actors[id := actor];
      model := model[id := FRESH];
      Repr := Repr + actor.Repr;
      CreatedIsFiled(id);
    }

    /** Adding a new actor keeps the others filed and apart. */
    twostate lemma CreatedIsFiled(id: XactId)
      requires old(Valid()) && id !in old(actors) && id < Bits.U64_LIMIT && id in actors
      requires actors == old(actors)[id := actors[id]] && model == old(model)[id := FRESH]
      requires unchanged(old(Repr) - {this}) && unchanged(pg)
      requires actors[id].Valid() && fresh(actors[id].Repr) && Repr == old(Repr) + actors[id].Repr
      requires actors[id].Value() == FRESH
      requires actors[id].xactId == id && actors[id].nodeId == nodeId && actors[id].pg == pg
      ensures Valid()
    {
      forall x | x in actors && x != id
        ensures Filed(x) && actors[x].Repr == old(actors[x].Repr)
      {
        assert old(Filed(x));
      }
    }

    /** A turn of the actor of `id` leaves the other actors alone, */
    twostate lemma OthersFiled(id: XactId)
      requires old(Valid()) && id in old(actors) && actors == old(actors)
      requires unchanged(old(Repr) - {this} - old(actors[id].Repr)) && pg.OnlyChanges(Ids.Display(id))
      requires old(Repr) <= Repr && id in model && model == old(model)[id := model[id]]
      ensures forall x :: x in actors && x != id ==> Filed(x) && actors[x].Repr == old(actors[x].Repr)
    {
      assert old(Filed(id));
      forall x | x in actors && x != id
        ensures Filed(x) && actors[x].Repr == old(actors[x].Repr)
      {
        assert old(Filed(x));
        DifferentGids(x, id);
        actors[x].Undisturbed(Ids.Display(id));
      }
    }

    /** and what has no actor unused, */
    twostate lemma StillUnused(id: XactId)
      requires old(Valid()) && id in old(actors) && actors == old(actors) && pg.OnlyChanges(Ids.Display(id))
      ensures Unused()
    {
      assert old(Filed(id));
      forall x: XactId | x !in actors && x < Bits.U64_LIMIT
        ensures pg.Under(Ids.Display(x)) == NO_XACT
      {
        DifferentGids(x, id);
      }
    }

    /** so everything is in order again. */
    twostate lemma BackInOrder(id: XactId)
      requires old(Valid()) && id in old(actors) && actors == old(actors)
      requires unchanged(old(Repr) - {this} - old(actors[id].Repr)) && pg.OnlyChanges(Ids.Display(id))
      requires Repr == old(Repr) + actors[id].Repr && fresh(actors[id].Repr - old(actors[id].Repr))
      requires actors[id].Valid() && model == old(model)[id := actors[id].Value()]
      ensures Valid()
    {
      OthersFiled(id);
      OwnFiled(id);
      DisjointAgain(id);
      StillUnused(id);
    }

    twostate lemma OwnFiled(id: XactId)
      requires old(Valid()) && id in old(actors) && actors == old(actors)
      requires Repr == old(Repr) + actors[id].Repr && fresh(actors[id].Repr - old(actors[id].Repr))
      requires actors[id].Valid() && id in model && model[id] == actors[id].Value()
      ensures Filed(id)
    {
      assert old(Filed(id));
    }

    twostate lemma DisjointAgain(id: XactId)
      requires old(Valid()) && id in old(actors) && actors == old(actors)
      requires Repr == old(Repr) + actors[id].Repr && fresh(actors[id].Repr - old(actors[id].Repr))
      requires forall x :: x in actors && x != id ==> actors[x].Repr == old(actors[x].Repr)
      ensures Disjoint()
    {
      forall x, y | x in actors && y in actors && x != y
        ensures actors[x].Repr !! actors[y].Repr
      {
        assert old(Filed(x)) && old(Filed(y));
        assert old(actors[x].Repr) !! old(actors[y].Repr);
      }
      forall x | x in actors
        ensures actors[x] in Repr
      {
        assert old(Filed(x));
      }
    }

    /** The turn of the actor of `id`. */
    method Turn(id: XactId, input: Input, e: Env) returns (sent: multiset<Packet>)
      requires Valid() && id in actors
      modifies actors[id].Repr, pg
      ensures actors[id].Valid() && fresh(actors[id].Repr - old(actors[id].Repr)) && this !in actors[id].Repr
      ensures pg.OnlyChanges(Ids.Display(id))
      ensures Handled(actors[id].Value(), sent) == Receive(model[id], nodeId, id, input, e)
    {
      assert Filed(id);
      sent := actors[id].OnMessage(input, e);
    }

    /** Records what an actor has become. */
    ghost method Refile(id: XactId)
      requires id in actors && actors[id].Valid() && this !in actors[id].Repr && this as object != pg
      modifies this`Repr, this`model
      ensures Repr == old(Repr) + actors[id].Repr && model == old(model)[id := old(actors[id].Value())]
      ensures actors[id].Valid() && actors[id].Value() == old(actors[id].Value())
    {
      Repr := Repr + actors[id].Repr;
      model := model[id := actors[id].Value()];
    }

    /** The actor's turn, as its manager sees it. */
    method Forward(id: XactId, input: Input, e: Env) returns (sent: multiset<Packet>)
      requires Valid() && id in actors
      modifies Repr, pg
      ensures Valid() && fresh(Repr - old(Repr)) && xactIdCounter == old(xactIdCounter)
      ensures var h := Receive(old(model[id]), nodeId, id, input, e);
              model == old(model)[id := h.actor] && sent == h.sent
    {
      assert Filed(id);
      sent := Turn(id, input, e);
      assert unchanged(old(Repr) - old(actors[id].Repr));
      Refile(id);
      BackInOrder(id);
    }

    /** Hands the message to the actor of `id`, which is created if there is none. */
    method Dispatch(id: XactId, input: Input, e: Env) returns (sent: multiset<Packet>)
      requires Valid() && id < Bits.U64_LIMIT
      modifies Repr, pg
      ensures Valid() && fresh(Repr - old(Repr)) && xactIdCounter == old(xactIdCounter)
      ensures var h := Receive(if id in old(model) then old(model[id]) else FRESH, nodeId, id, input, e);
              model == old(model)[id := h.actor] && sent == h.sent
    {
      if id !in actors {
        CreateActor(id);
      }
      sent := Forward(id, input, e);
      UpdateTwice(old(model), id, FRESH, model[id]);
    }

    /** The id of the transaction a message is for; a local transaction gets the next
        one. The counter is a 32-bit word. */
    method IdFor(input: Input) returns (id: XactId)
      requires Valid() && (input.Remote? ==> input.msg.id < Bits.U64_LIMIT)
      modifies this`xactIdCounter
      ensures Valid() && id < Bits.U64_LIMIT
      ensures id == TargetId(old(Value()), nodeId, input)
      ensures xactIdCounter == (if input.LocalXact? then Ids.Next(old(xactIdCounter)) else old(xactIdCounter))
    {
      assert forall x :: x in actors ==> Filed(x);
      if input.LocalXact? {
        xactIdCounter := Ids.Next(xactIdCounter);
        id := Ids.New(xactIdCounter, nodeId);
        Ids.NewIsSum(xactIdCounter, nodeId);
      } else {
        id := input.msg.id;
      }
    }

    /** `process_message`. */
    method ProcessMessage(input: Input, e: Env) returns (sent: multiset<Packet>)
      requires Valid() && (input.Remote? ==> input.msg.id < Bits.U64_LIMIT)
      modifies Repr, pg
      ensures Valid() && fresh(Repr - old(Repr))
      ensures (Value(), sent) == Process(old(Value()), nodeId, input, e)
    {
      var id := IdFor(input);
      sent := Dispatch(id, input, e);
    }
  }

  lemma UpdateTwice(m: map<XactId, Actor>, id: XactId, a: Actor, b: Actor)
    ensures m[id := a][id := b] == m[id := b]
  {
  }

  lemma DifferentGids(x: XactId, y: XactId)
    requires x < Bits.U64_LIMIT && y < Bits.U64_LIMIT && x != y
    ensures Ids.Display(x) != Ids.Display(y)
  {
    if Ids.Display(x) == Ids.Display(y) {
      Ids.DisplayInjective(x, y);
    }
  }
}
