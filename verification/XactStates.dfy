/** Vote counting as an object (xactserver/src/xact/state.rs), over either kind of
    controller, and the switch from early votes to a live state
    (xactserver/src/xact.rs). */
module XactStates {
  import opened Messages
  import opened Transitions
  import opened Controllers
  import Ids

  datatype AnyController = OfLocal(local: LocalXactController) | OfSurrogate(surrogate: SurrogateXactController)
  {
    /** The objects a controller works on. */
    ghost function Footprint(): set<object> {
      match this
      case OfLocal(l) => {l}
      case OfSurrogate(s) => {s.pg}
    }

    ghost function Value(): Controller
      reads Footprint()
    {
      match this
      case OfLocal(l) => l.Value()
      case OfSurrogate(s) => s.Value()
    }

    /** Of what others may see, only what is under the controller's gid has changed. */
    twostate predicate Contained()
      reads Footprint()
    {
      OfSurrogate? ==> surrogate.pg.OnlyChanges(surrogate.Gid())
    }
  }

  class XactState {
    const nodeId: NodeId
    const coordinator: NodeId
    const participants: set<NodeId>
    const controller: AnyController
    var status: Status
    var voted: set<NodeId>

    constructor (nodeId: NodeId, coordinator: NodeId, participants: set<NodeId>, controller: AnyController)
      ensures this.controller == controller
      ensures Value() == NewState(nodeId, coordinator, participants, controller.Value())
    {
      this.nodeId, this.coordinator, this.participants, this.controller := nodeId, coordinator, participants, controller;
      status, voted := Uninitialized, {};
    }

    ghost function Footprint(): set<object> {
      {this} + controller.Footprint()
    }

    ghost function Value(): State
      reads this, controller.Footprint()
    {
      State(nodeId, coordinator, participants, status, voted, controller.Value())
    }

    method AddVote(vote: Vote) returns (ok: bool)
      modifies this
      ensures ok == AcceptsVote(old(Value()))
      ensures Value() == if ok then Transitions.AddVote(old(Value()), vote) else old(Value())
    {
      if status.Commits() {
        return false;
      }
      if vote.from !in participants || !status.Waiting? {
        return true;
      }
      if vote.reason.Some? {
        status := Rollbacking(RollbackInfo(vote.from, vote.reason.value));
      } else if vote.from !in voted {
        voted := voted + {vote.from};
        if voted == participants {
          status := Committing;
        }
      } else {
        assert voted + {vote.from} == voted;
      }
      return true;
    }

    method Execute(e: ExecEnv) returns (failure: Option<RollbackReason>)
      modifies controller.Footprint()
      ensures controller.Contained()
      ensures var (c, f) := Transitions.Execute(old(controller.Value()), e); controller.Value() == c && failure == f
      ensures status == old(status) && voted == old(voted)
    {
      match controller
      case OfLocal(l) => failure := l.Execute();
      case OfSurrogate(s) => failure := s.Execute(e);
    }

    /** Up to the first refused vote. */
    method AddVotes(votes: seq<Vote>) returns (ok: bool)
      modifies this
      ensures (Value(), ok) == Transitions.AddVotes(old(Value()), votes)
    {
      var i := 0;
      while i < |votes|
        invariant 0 <= i <= |votes|
        invariant Transitions.AddVotes(Value(), votes[i..]) == Transitions.AddVotes(old(Value()), votes)
      {
        assert votes[i..][1..] == votes[i + 1..];
        var accepted := AddVote(votes[i]);
        if !accepted {
          return false;
        }
        i := i + 1;
      }
      return true;
    }

    method Initialize(existingVotes: seq<Vote>, e: ExecEnv) returns (ok: bool)
      modifies Footprint()
      ensures controller.Contained()
      ensures (Value(), ok) == Transitions.Initialize(old(Value()), existingVotes, e)
    {
      if status != Uninitialized {
        return false;
      }
      status := Waiting;
      ghost var waiting := Value();
      var rollbackReason := None;
      if nodeId != coordinator {
        var accepted := AddVote(Vote(coordinator, None));
        assert accepted;
        rollbackReason := Execute(e);
      }
      assert (Value(), rollbackReason) == Prologue(waiting, e);
      assert ([Vote(nodeId, rollbackReason)] + existingVotes)[1..] == existingVotes;
      ok := AddVote(Vote(nodeId, rollbackReason));
      if ok {
        ok := AddVotes(existingVotes);
      }
    }

    method TryFinish(e: FinishEnv) returns (ok: bool)
      modifies Footprint()
      ensures controller.Contained()
      ensures (Value(), ok) == Transitions.TryFinish(old(Value()), e)
    {
      match status {
        case Committing =>
          ok := Commit(e);
          if ok {
            status := Committed;
          }
        case Rollbacking(info) =>
          ok := Rollback(info, e);
          if ok {
            status := Rollbacked(info);
          }
        case _ =>
          ok := true;
      }
    }

    method Commit(e: FinishEnv) returns (ok: bool)
      modifies controller.Footprint()
      ensures controller.Contained()
      ensures (controller.Value(), ok) == Transitions.Commit(old(controller.Value()), e)
      ensures status == old(status) && voted == old(voted)
    {
      match controller
      case OfLocal(l) => ok := l.Commit(e);
      case OfSurrogate(s) => ok := s.Commit(e);
    }

    method Rollback(info: RollbackInfo, e: FinishEnv) returns (ok: bool)
      modifies controller.Footprint()
      ensures controller.Contained()
      ensures (controller.Value(), ok) == Transitions.Rollback(old(controller.Value()), info, e)
      ensures status == old(status) && voted == old(voted)
    {
      match controller
      case OfLocal(l) => ok := l.Rollback(info, e);
      case OfSurrogate(s) => ok := s.Rollback(info, e);
    }
  }

  datatype Variant = UnknownVariant(votes: seq<Vote>) | LocalVariant(local: XactState) | SurrogateVariant(surrogate: XactState)

  /** `XactType`: early votes, until the transaction turns out to be local or a
      surrogate. */
  class XactType {
    var variant: Variant

    constructor ()
      ensures variant == UnknownVariant([])
    {
      variant := UnknownVariant([]);
    }

    /** The objects behind the current variant. */
    ghost function Footprint(): set<object>
      reads this
    {
      match variant
      case UnknownVariant(_) => {}
      case LocalVariant(s) => s.Footprint()
      case SurrogateVariant(s) => s.Footprint()
    }

    ghost function Value(): Xact
      reads this, Footprint()
    {
      match variant
      case UnknownVariant(votes) => Unknown(votes)
      case LocalVariant(s) => Local(s.Value())
      case SurrogateVariant(s) => Surrogate(s.Value())
    }

    /** Of the given Postgres, at most what is under the gid of `id` is shared. */
    ghost predicate Owns(id: XactId, pg: Postgres)
      reads this
    {
      match variant
      case UnknownVariant(_) => true
      case LocalVariant(s) => s.controller.OfLocal?
      case SurrogateVariant(s) =>
        s.controller.OfSurrogate? && s.controller.surrogate.pg == pg && s.controller.surrogate.xactId == id
    }

    /** The `unreachable!()` arm: the variant has been replaced all the same. */
    method InitAsLocal(nodeId: NodeId, coordinator: NodeId, participants: set<NodeId>, e: ExecEnv)
      returns (ok: bool, unreachable: bool)
      modifies this
      ensures unreachable <==> !old(Value()).Unknown?
      ensures variant.LocalVariant? && variant.local.controller.OfLocal? && fresh(Footprint())
      ensures var s := NewState(nodeId, coordinator, participants, LocalController(Pending));
              if unreachable then Value() == Local(s)
              else (Value(), ok) == (Local(Transitions.Initialize(s, old(variant).votes, e).0),
                                     Transitions.Initialize(s, old(variant).votes, e).1)
    {
      var controller := new LocalXactController();
      var state := new XactState(nodeId, coordinator, participants, OfLocal(controller));
      var replaced := variant;
      variant := LocalVariant(state);
      if replaced.UnknownVariant? {
        ok := state.Initialize(replaced.votes, e);
        unreachable := false;
      } else {
        ok, unreachable := false, true;
      }
    }

    method InitAsSurrogate(xactId: XactId, nodeId: NodeId, coordinator: NodeId, participants: set<NodeId>,
                           data: seq<Byte>, pg: Postgres, e: ExecEnv)
      returns (ok: bool, unreachable: bool)
      modifies this, pg
      ensures unreachable <==> !old(Value()).Unknown?
      ensures pg.OnlyChanges(Ids.Display(xactId))
      ensures Owns(xactId, pg) && variant.SurrogateVariant? && fresh(Footprint() - {pg})
      ensures var s := NewState(nodeId, coordinator, participants,
                                SurrogateController(old(pg.Under(Ids.Display(xactId)))));
              if unreachable then Value() == Surrogate(s)
              else (Value(), ok) == (Surrogate(Transitions.Initialize(s, old(variant).votes, e).0),
                                     Transitions.Initialize(s, old(variant).votes, e).1)
    {
      var controller := new SurrogateXactController(xactId, data, pg);
      var state := new XactState(nodeId, coordinator, participants, OfSurrogate(controller));
      var replaced := variant;
      variant := SurrogateVariant(state);
      if replaced.UnknownVariant? {
        ok := state.Initialize(replaced.votes, e);
        unreachable := false;
      } else {
        ok, unreachable := false, true;
      }
    }

    /** The live state, if there is one. */
    ghost function States(): set<object>
      reads this
    {
      match variant
      case UnknownVariant(_) => {}
      case LocalVariant(s) => {s}
      case SurrogateVariant(s) => {s}
    }

    /** False if the vote was refused. */
    method AddVote(vote: Vote) returns (ok: bool)
      modifies this, States()
      ensures if old(variant).UnknownVariant? then variant.UnknownVariant? else variant == old(variant)
      ensures match old(Value())
              case Unknown(votes) => ok && Value() == Unknown(votes + [vote])
              case Local(s) => ok == AcceptsVote(s) && Value() == Local(if ok then Transitions.AddVote(s, vote) else s)
              case Surrogate(s) => ok == AcceptsVote(s) && Value() == Surrogate(if ok then Transitions.AddVote(s, vote) else s)
    {
      match variant
      case UnknownVariant(votes) =>
        variant := UnknownVariant(votes + [vote]);
        ok := true;
      case LocalVariant(s) => ok := s.AddVote(vote);
      case SurrogateVariant(s) => ok := s.AddVote(vote);
    }

    method TryFinish(e: FinishEnv) returns (ok: bool)
      modifies Footprint()
      ensures variant == old(variant)
      ensures variant.SurrogateVariant? ==> variant.surrogate.controller.Contained()
      ensures match old(Value())
              case Unknown(votes) => ok && Value() == old(Value())
              case Local(s) => (Value(), ok) == (Local(Transitions.TryFinish(s, e).0), Transitions.TryFinish(s, e).1)
              case Surrogate(s) => (Value(), ok) == (Surrogate(Transitions.TryFinish(s, e).0), Transitions.TryFinish(s, e).1)
    {
      match variant
      case UnknownVariant(_) => ok := true;
      case LocalVariant(s) => ok := s.TryFinish(e);
      case SurrogateVariant(s) => ok := s.TryFinish(e);
    }
  }
}
