/** Properties of the vote-counting state machine by itself: what every sequence of
    calls keeps, why participation matters, and why buffering and reordering votes
    makes no difference. */
module StateMachine {
  import opened Messages
  import opened Transitions
  import opened VoteCounting
  import opened PgCalls
  import opened Transaction
  import opened ActorProofs
  import RwSetFormat

  // ----- Every sequence of calls ---------------------------------------------------

  datatype StateCall =
    | CallInitialize(votes: seq<Vote>, exec: ExecEnv)
    | CallAddVote(vote: Vote)
    | CallTryFinish(finish: FinishEnv)

  /** The state after a call, whether or not the call returned an error. */
  function Call(s: State, call: StateCall): State {
    match call
    case CallInitialize(votes, e) => Initialize(s, votes, e).0
    case CallAddVote(v) => if AcceptsVote(s) then AddVote(s, v) else s
    case CallTryFinish(e) => TryFinish(s, e).0
  }

  function Calls(s: State, calls: seq<StateCall>): State
    decreases |calls|
  {
    if calls == [] then s else Call(Calls(s, calls[..|calls| - 1]), calls[|calls| - 1])
  }

  ghost predicate MachineInv(s: State) {
    if s.status.Uninitialized? then s.voted == {} else StateInv(s)
  }

  /** The only ways a status can change. */
  predicate Moves(a: Status, b: Status) {
    || a == b
    || (a.Uninitialized? && (b.Waiting? || b.Committing? || b.Rollbacking?))
    || (a.Waiting? && (b.Committing? || b.Rollbacking?))
    || (a.Committing? && b.Committed?)
    || (a.Rollbacking? && b == Rollbacked(a.info))
  }

  lemma AddVoteKeeps(s: State, v: Vote)
    requires StateInv(s) && s.participants != {}
    ensures StateInv(AddVote(s, v)) && Moves(s.status, AddVote(s, v).status)
    ensures AddVote(s, v).participants == s.participants
  {
  }

  lemma {:induction false} AddVotesKeeps(s: State, votes: seq<Vote>)
    requires StateInv(s) && s.participants != {} && !s.status.Terminal()
    ensures var s' := AddVotes(s, votes).0;
            StateInv(s') && s'.participants == s.participants && !s'.status.Terminal()
    decreases |votes|
  {
    if votes != [] && AcceptsVote(s) {
      AddVoteKeeps(s, votes[0]);
      AddVotesKeeps(AddVote(s, votes[0]), votes[1..]);
    }
  }

  lemma InitializeKeeps(s: State, votes: seq<Vote>, e: ExecEnv)
    requires MachineInv(s) && s.participants != {}
    ensures var s' := Initialize(s, votes, e).0;
            MachineInv(s') && Moves(s.status, s'.status) && s'.participants == s.participants
  {
    if s.status.Uninitialized? {
      var w := s.(status := Waiting);
      AddVoteKeeps(w, Vote(s.coordinator, None));
      var (s1, failure) := Prologue(w, e);
      AddVotesKeeps(s1, [Vote(s.node, failure)] + votes);
    }
  }

  lemma CallKeeps(s: State, call: StateCall)
    requires MachineInv(s) && s.participants != {}
    ensures MachineInv(Call(s, call)) && Moves(s.status, Call(s, call).status)
    ensures Call(s, call).participants == s.participants
  {
    match call
    case CallInitialize(votes, e) => InitializeKeeps(s, votes, e);
    case CallAddVote(v) =>
      if !s.status.Uninitialized? && AcceptsVote(s) {
        AddVoteKeeps(s, v);
      }
    case CallTryFinish(e) =>
  }

  /** Whatever is called in whatever order, errors included: the counted votes are
      participants' votes, waiting means some are missing, committing means none is,
      a rollback names a participant, and the status moves only forwards. */
  lemma {:induction false} CallsKeep(s: State, calls: seq<StateCall>)
    requires s.status.Uninitialized? && s.voted == {} && s.participants != {}
    ensures MachineInv(Calls(s, calls)) && Calls(s, calls).participants == s.participants
    ensures calls != [] ==> Moves(Calls(s, calls[..|calls| - 1]).status, Calls(s, calls).status)
    decreases |calls|
  {
    if calls != [] {
      CallsKeep(s, calls[..|calls| - 1]);
      CallKeeps(Calls(s, calls[..|calls| - 1]), calls[|calls| - 1]);
    }
  }

  // ----- Why only participants may be initialized --------------------------------------

  /** The coordinator's implicit "yes" decides by itself exactly if nobody else takes
      part, so never at a participating surrogate. */
  lemma ImplicitYesDecides(s: State)
    requires s.status.Uninitialized? && s.voted == {}
    ensures AddVote(s.(status := Waiting), Vote(s.coordinator, None)).status.Committing?
            <==> s.participants == {s.coordinator}
  {
  }

  /** A surrogate one of whose calls to Postgres does not work when it executes rolls back
      for the reason of the first that does not, whatever votes came early, exactly if the
      surrogate is a participant. */
  lemma OwnFailureCounts(s: State, votes: seq<Vote>, e: ExecEnv)
    requires s.status.Uninitialized? && s.voted == {} && s.node != s.coordinator
    requires s.controller.SurrogateController? && !Works(e)
    ensures Initialize(s, votes, e).0.status == Rollbacking(RollbackInfo(s.node, FailureOf(e).value))
            <==> s.node in s.participants
  {
    ExecuteByCalls(s.controller.pg, e);
    if s.node in s.participants {
      var (s1, failure) := Prologue(s.(status := Waiting), e);
      assert ([Vote(s.node, failure)] + votes)[1..] == votes;
      AddVotesIgnored(AddVote(s1, Vote(s.node, failure)), votes);
    } else if s.participants != {} {
      InitializeKeeps(s, votes, e);
    } else {
      NoParticipants(Prologue(s.(status := Waiting), e).0, [Vote(s.node, FailureOf(e))] + votes);
    }
  }

  lemma {:induction false} NoParticipants(s: State, votes: seq<Vote>)
    requires s.participants == {} && s.status.Waiting?
    ensures AddVotes(s, votes).0 == s
    decreases |votes|
  {
    if votes != [] {
      NoParticipants(s, votes[1..]);
    }
  }

  // ----- Early votes ---------------------------------------------------------------------

  /** Votes handled one by one by an actor, as long as it listens; vote `i` meets the
      environment `es[i]`. */
  function HandleVotes(a: Actor, votes: seq<Vote>, es: seq<FinishEnv>): Actor
    requires |es| == |votes|
    decreases |votes|
  {
    if votes == [] || !a.outcome.Running? then a
    else HandleVotes(HandleVote(a, votes[0], es[0]), votes[1..], es[1..])
  }

  lemma {:induction false} EarlyVotesAreBuffered(a: Actor, votes: seq<Vote>, es: seq<FinishEnv>)
    requires a.xact.Unknown? && a.outcome.Running? && |es| == |votes|
    ensures HandleVotes(a, votes, es) == a.(xact := Unknown(a.xact.votes + votes))
    decreases |votes|
  {
    if votes == [] {
      assert a.xact.votes + votes == a.xact.votes;
    } else {
      EarlyVotesAreBuffered(HandleVote(a, votes[0], es[0]), votes[1..], es[1..]);
      assert a.xact.votes + [votes[0]] + votes[1..] == a.xact.votes + votes;
    }
  }

  /** Counting in two parts: the second part matters only if the first left things open. */
  lemma {:induction false} CountedAppend(s: State, a: seq<Vote>, b: seq<Vote>)
    ensures Counted(s, a + b) == if FirstNo(a) < |a| then Counted(s, a)
                                 else Counted(s.(voted := s.voted + Voters(a)), b)
    decreases |a|
  {
    if a == [] {
      assert a + b == b;
      assert s.voted + Voters(a) == s.voted;
    } else if a[0].reason.Some? {
      assert (a + b)[0] == a[0];
      CountedNo(s, a);
      CountedNo(s, a + b);
    } else {
      assert (a + b)[0] == a[0] && (a + b)[1..] == a[1..] + b;
      CountedYes(s, a);
      CountedYes(s, a + b);
      CountedAppend(s.(voted := s.voted + {a[0].from}), a[1..], b);
      assert a == [a[0]] + a[1..];
      assert Voters(a) == {a[0].from} + Voters(a[1..]);
      assert s.voted + {a[0].from} + Voters(a[1..]) == s.voted + Voters(a);
    }
  }

  /** The actor with another state. */
  function WithState(a: Actor, s: State): Actor {
    a.(xact := if a.xact.Local? then Local(s) else Surrogate(s))
  }

  /** The actor, of a coordinator or a surrogate, with a given state, after an attempt to
      finish. */
  function Tried(a: Actor, s: State, e: FinishEnv): Actor {
    Finish(WithState(a, s), e)
  }

  /** An attempt to finish while votes are missing does nothing. */
  lemma TriedWaiting(a: Actor, s: State, e: FinishEnv)
    requires s.status.Waiting?
    ensures Tried(a, s, e) == WithState(a, s)
  {
  }

  /** Live votes, each followed by an attempt to finish, count like votes taken together
      with one attempt, which meets the environment of one of the attempts; so at a
      surrogate and at the coordinator. */
  lemma {:induction false} LiveVotesCount(a: Actor, s: State, votes: seq<Vote>, e: FinishEnv, es: seq<FinishEnv>)
    returns (used: FinishEnv)
    requires a.outcome.Running? && s.status.Waiting? && s.voted < s.participants && NewVotes(s, votes) && |es| == |votes|
    ensures used in [e] + es
    ensures HandleVotes(Tried(a, s, e), votes, es) == Tried(a, Counted(s, votes), used)
    decreases |votes|
  {
    used := e;
    TriedWaiting(a, s, e);
    if votes == [] {
      CountedNothing(s);
    } else {
      var v, rest, later := votes[0], votes[1..], es[1..];
      var s1 := AddVote(s, v);
      assert HandleVote(Tried(a, s, e), v, es[0]) == Tried(a, s1, es[0]);
      used := es[0];
      if v.reason.Some? {
        CountedNo(s, votes);
        DecidedIgnores(a, s1, rest, es[0], later);
      } else {
        CountedYes(s, votes);
        NewVotesTail(s, votes);
        if s1.status.Waiting? {
          used := LiveVotesCount(a, s1, rest, es[0], later);
          assert es == [es[0]] + later;
        } else {
          NothingLeft(s1, rest);
        }
      }
    }
  }

  /** Once everybody's "yes" is in, no new votes remain. */
  lemma NothingLeft(s: State, votes: seq<Vote>)
    requires s.voted == s.participants && NewVotes(s, votes)
    ensures votes == [] && Counted(s, votes) == s.(status := Committing)
  {
    if votes == [] {
      CountedNothing(s);
    } else {
      NewVotesRemain(s, votes);
    }
  }

  /** The actor of a surrogate that got the first `cut` votes before `Prepare`, and the
      others after it. */
  function WithCut(c: NodeId, me: NodeId, id: XactId, data: seq<Byte>, votes: seq<Vote>, cut: nat,
                   e: Env, es: seq<FinishEnv>): Actor
    requires cut <= |votes| == |es|
  {
    var early := HandleVotes(FRESH, votes[..cut], es[..cut]);
    HandleVotes(HandlePrepare(early, me, id, c, data, e).actor, votes[cut..], es[cut..])
  }

  lemma NewVotesSplit(s: State, a: seq<Vote>, b: seq<Vote>)
    requires NewVotes(s, a + b)
    ensures NewVotes(s, a) && NewVotes(s.(voted := s.voted + Voters(a)), b)
  {
    var votes := a + b;
    assert forall i :: 0 <= i < |a| ==> votes[i] == a[i];
    assert forall i :: 0 <= i < |b| ==> votes[|a| + i] == b[i];
  }

  /** An actor that has decided does not listen to the remaining votes. */
  lemma DecidedIgnores(a: Actor, s: State, votes: seq<Vote>, e: FinishEnv, es: seq<FinishEnv>)
    requires (s.status.Committing? || s.status.Rollbacking?) && |es| == |votes|
    ensures HandleVotes(Tried(a, s, e), votes, es) == Tried(a, s, e)
  {
  }

  /** Votes counted at once, or some at once and the rest one by one. */
  lemma CountThenLive(a: Actor, w: State, early: seq<Vote>, late: seq<Vote>, e: FinishEnv, es: seq<FinishEnv>)
    returns (used: FinishEnv)
    requires a.outcome.Running? && w.status.Waiting? && w.voted <= w.participants
    requires NewVotes(w, early + late) && |es| == |late|
    ensures used in [e] + es
    ensures HandleVotes(Tried(a, Counted(w, early), e), late, es) == Tried(a, Counted(w, early + late), used)
  {
    used := e;
    CountedAppend(w, early, late);
    if FirstNo(early) < |early| {
      DecidedIgnores(a, Counted(w, early), late, e, es);
    } else {
      NewVotesSplit(w, early, late);
      assert early[..|early|] == early;
      var s1 := Counted(w, early);
      if s1.voted == s1.participants {
        NothingLeft(s1, late);
      } else {
        VotersTakePart(w, early);
        used := LiveVotesCount(a, s1, late, e, es);
      }
    }
  }

  lemma VotersTakePart(s: State, votes: seq<Vote>)
    requires NewVotes(s, votes)
    ensures Voters(votes) <= s.participants
  {
  }

  lemma StartTakesVotes(s: State, votes: seq<Vote>, e: ExecEnv)
    requires SurrogateStart(s, votes)
    ensures NewVotes(Executed(s, e), votes) && Executed(s, e).voted <= s.participants
  {
  }

  lemma StartTakesPrefix(s: State, votes: seq<Vote>, cut: nat)
    requires SurrogateStart(s, votes) && cut <= |votes|
    ensures SurrogateStart(s, votes[..cut])
  {
  }

  /** `Prepare` after some early votes. */
  lemma PreparedWith(c: NodeId, participants: set<NodeId>, me: NodeId, id: XactId, data: seq<Byte>,
                     votes: seq<Vote>, e: Env, es: seq<FinishEnv>)
    requires |es| == |votes| && RwSetFormat.ParticipantsOf(data) == Some(participants)
    requires SurrogateStart(Start(c, participants, me), votes)
    ensures var d := Decided(c, participants, me, votes, e.exec);
            HandlePrepare(HandleVotes(FRESH, votes, es), me, id, c, data, e).actor ==
            if BroadcastOk(Peers(participants, me), e) then Tried(d, d.xact.state, e.finish) else d.(outcome := Failed)
  {
    EarlyVotesAreBuffered(FRESH, votes, es);
    assert [] + votes == votes;
    PrepareHandled(FRESH.(xact := Unknown(votes)), c, participants, me, id, data, e);
  }

  /** Buffering is transparent: however many of the votes come before `Prepare`, a
      surrogate that gets its own verdict out ends in the state it would reach by counting
      all votes in order and trying to finish once, under the circumstances of one of its
      attempts: with the same decision and the same cause. Only the verdict it broadcast
      on the way can differ. */
  lemma BufferingTransparent(c: NodeId, participants: set<NodeId>, me: NodeId, id: XactId, data: seq<Byte>,
                             votes: seq<Vote>, cut: nat, e: Env, es: seq<FinishEnv>)
    returns (used: FinishEnv)
    requires cut <= |votes| == |es| && RwSetFormat.ParticipantsOf(data) == Some(participants)
    requires SurrogateStart(Start(c, participants, me), votes)
    requires BroadcastOk(Peers(participants, me), e)
    ensures used == e.finish || used in es
    ensures WithCut(c, me, id, data, votes, cut, e, es) ==
            Tried(Decided(c, participants, me, votes[..cut], e.exec),
                  Initialized(Start(c, participants, me), votes, e.exec), used)
  {
    var s := Start(c, participants, me);
    StartTakesPrefix(s, votes, cut);
    PreparedWith(c, participants, me, id, data, votes[..cut], e, es[..cut]);
    used := LiveAfter(Decided(c, participants, me, votes[..cut], e.exec), s, votes, cut, e, es[cut..]);
  }

  /** If its verdict does not get out, the surrogate stops with what the early votes made
      of it, and the other votes come too late. */
  lemma UnheardStops(c: NodeId, participants: set<NodeId>, me: NodeId, id: XactId, data: seq<Byte>,
                     votes: seq<Vote>, cut: nat, e: Env, es: seq<FinishEnv>)
    requires cut <= |votes| == |es| && RwSetFormat.ParticipantsOf(data) == Some(participants)
    requires SurrogateStart(Start(c, participants, me), votes)
    requires !BroadcastOk(Peers(participants, me), e)
    ensures WithCut(c, me, id, data, votes, cut, e, es) ==
            Decided(c, participants, me, votes[..cut], e.exec).(outcome := Failed)
  {
    StartTakesPrefix(Start(c, participants, me), votes, cut);
    PreparedWith(c, participants, me, id, data, votes[..cut], e, es[..cut]);
  }

  lemma LiveAfter(a: Actor, s: State, votes: seq<Vote>, cut: nat, e: Env, es: seq<FinishEnv>) returns (used: FinishEnv)
    requires a.outcome.Running? && SurrogateStart(s, votes) && cut <= |votes| && |es| == |votes| - cut
    ensures used in [e.finish] + es
    ensures HandleVotes(Tried(a, Initialized(s, votes[..cut], e.exec), e.finish), votes[cut..], es) ==
            Tried(a, Initialized(s, votes, e.exec), used)
  {
    used := e.finish;
    if FailureOf(e.exec).Some? {
      DecidedIgnores(a, Initialized(s, votes, e.exec), votes[cut..], e.finish, es);
    } else {
      StartTakesVotes(s, votes, e.exec);
      assert votes[..cut] + votes[cut..] == votes;
      used := CountThenLive(a, Executed(s, e.exec), votes[..cut], votes[cut..], e.finish, es);
    }
  }

  // ----- Votes at the coordinator ----------------------------------------------------------

  /** Votes of distinct surrogates. */
  ghost predicate SurrogateVotes(c: NodeId, participants: set<NodeId>, votes: seq<Vote>) {
    && (forall i :: 0 <= i < |votes| ==> votes[i].from in participants && votes[i].from != c)
    && (forall i, j :: 0 <= i < j < |votes| ==> votes[i].from != votes[j].from)
  }

  /** After a request that got out, the votes of the surrogates at the coordinator count
      like votes taken together with one attempt to answer the client. */
  lemma CoordinatorCounts(c: NodeId, participants: set<NodeId>, id: XactId, data: seq<Byte>,
                          votes: seq<Vote>, e: Env, es: seq<FinishEnv>)
    returns (used: FinishEnv)
    requires |es| == |votes| && RwSetFormat.ParticipantsOf(data) == Some(participants)
    requires c in participants && participants != {c} && SurrogateVotes(c, participants, votes)
    requires BroadcastOk(Peers(participants, c), e)
    ensures used == e.finish || used in es
    ensures var a := HandleLocal(FRESH, c, id, data, e).actor;
            HandleVotes(a, votes, es) == Tried(a, Counted(Started(c, participants), votes), used)
  {
    LocalHandled(c, id, data, e);
    var s := Started(c, participants);
    var a := HandleLocal(FRESH, c, id, data, e).actor;
    TriedWaiting(a, s, e.finish);
    used := LiveVotesCount(a, s, votes, e.finish, es);
  }

  // ----- The order of votes ------------------------------------------------------------------

  predicate SameDecisionAs(x: Status, y: Status) {
    x.Commits() == y.Commits() && x.RollsBack() == y.RollsBack() && x.Waiting? == y.Waiting?
  }

  /** What counting votes decides does not depend on their order, */
  lemma CountedOrderIrrelevant(s: State, a: seq<Vote>, b: seq<Vote>)
    requires multiset(a) == multiset(b)
    ensures SameDecisionAs(Counted(s, a).status, Counted(s, b).status)
  {
    SameElements(a, b);
    NoDecides(a);
    NoDecides(b);
    if FirstNo(a) == |a| && FirstNo(b) == |b| {
      assert a[..|a|] == a && b[..|b|] == b;
      assert Voters(a) == Voters(b);
    }
  }

  /** neither at a surrogate with its early votes */
  lemma OrderIrrelevant(s: State, a: seq<Vote>, b: seq<Vote>, e: ExecEnv)
    requires multiset(a) == multiset(b)
    ensures SameDecisionAs(Initialized(s, a, e).status, Initialized(s, b, e).status)
  {
    if FailureOf(e).None? {
      CountedOrderIrrelevant(Executed(s, e), a, b);
    }
  }

  /** nor at the coordinator, which handles them one by one. */
  lemma CoordinatorOrderIrrelevant(c: NodeId, participants: set<NodeId>, id: XactId, data: seq<Byte>,
                                   a: seq<Vote>, b: seq<Vote>, e: Env, es: seq<FinishEnv>, fs: seq<FinishEnv>)
    requires multiset(a) == multiset(b) && |es| == |a| && |fs| == |b|
    requires RwSetFormat.ParticipantsOf(data) == Some(participants) && c in participants && participants != {c}
    requires SurrogateVotes(c, participants, a) && SurrogateVotes(c, participants, b)
    requires BroadcastOk(Peers(participants, c), e)
    ensures var actor := HandleLocal(FRESH, c, id, data, e).actor;
            var x, y := HandleVotes(actor, a, es), HandleVotes(actor, b, fs);
            Live(x) && Live(y) && SameDecisionAs(x.xact.state.status, y.xact.state.status)
  {
    var actor, s := HandleLocal(FRESH, c, id, data, e).actor, Started(c, participants);
    LocalHandled(c, id, data, e);
    var used := CoordinatorCounts(c, participants, id, data, a, e, es);
    var used' := CoordinatorCounts(c, participants, id, data, b, e, fs);
    CountedOrderIrrelevant(s, a, b);
    TriedDecides(actor, Counted(s, a), used);
    TriedDecides(actor, Counted(s, b), used');
  }

  lemma TriedDecides(a: Actor, s: State, e: FinishEnv)
    ensures Live(Tried(a, s, e)) && SameDecisionAs(Tried(a, s, e).xact.state.status, s.status)
  {
  }

  lemma SameElements(a: seq<Vote>, b: seq<Vote>)
    requires multiset(a) == multiset(b)
    ensures forall v :: v in a <==> v in b
  {
    forall v
      ensures v in a <==> v in b
    {
      assert v in a <==> v in multiset(a);
      assert v in b <==> v in multiset(b);
    }
  }

  lemma NoDecides(votes: seq<Vote>)
    ensures FirstNo(votes) < |votes| <==> exists v :: v in votes && v.reason.Some?
  {
    if FirstNo(votes) < |votes| {
      assert votes[FirstNo(votes)] in votes;
    }
  }
}
