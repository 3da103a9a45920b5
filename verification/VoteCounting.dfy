/** What counting votes computes, in closed form: the first "no" decides, and otherwise
    the last missing "yes"; and what initializing a surrogate comes to. */
module VoteCounting {
  import opened Messages
  import opened Transitions
  import opened PgCalls

  /** The position of the first "no", or the length if there is none. */
  function FirstNo(votes: seq<Vote>): (i: nat)
    ensures i <= |votes|
    ensures i < |votes| ==> votes[i].reason.Some?
    ensures forall j :: 0 <= j < i ==> votes[j].reason.None?
  {
    if votes == [] || votes[0].reason.Some? then 0 else 1 + FirstNo(votes[1..])
  }

  function Voters(votes: seq<Vote>): set<NodeId> {
    set v | v in votes :: v.from
  }

  /** Votes of distinct participants that have not been counted yet. */
  ghost predicate NewVotes(s: State, votes: seq<Vote>) {
    && (forall i :: 0 <= i < |votes| ==> votes[i].from in s.participants && votes[i].from !in s.voted)
    && (forall i, j :: 0 <= i < j < |votes| ==> votes[i].from != votes[j].from)
  }

  /** What a waiting state becomes when new votes are counted. */
  function Counted(s: State, votes: seq<Vote>): State {
    var i := FirstNo(votes);
    var voted := s.voted + Voters(votes[..i]);
    s.(voted := voted,
       status := if i < |votes| then Rollbacking(RollbackInfo(votes[i].from, votes[i].reason.value))
                 else if voted == s.participants then Committing else Waiting)
  }

  lemma NewVotesRemain(s: State, votes: seq<Vote>)
    requires NewVotes(s, votes) && votes != []
    ensures s.voted != s.participants
  {
    assert votes[0].from in s.participants && votes[0].from !in s.voted;
  }

  lemma CountedNothing(s: State)
    ensures Counted(s, []) == s.(status := if s.voted == s.participants then Committing else Waiting)
  {
    assert s.voted + Voters([][..0]) == s.voted;
  }

  lemma CountedNo(s: State, votes: seq<Vote>)
    requires votes != [] && votes[0].reason.Some?
    ensures Counted(s, votes) == s.(status := Rollbacking(RollbackInfo(votes[0].from, votes[0].reason.value)))
  {
    assert s.voted + Voters(votes[..0]) == s.voted;
  }

  lemma CountedYes(s: State, votes: seq<Vote>)
    requires votes != [] && votes[0].reason.None?
    ensures Counted(s, votes) == Counted(s.(voted := s.voted + {votes[0].from}), votes[1..])
  {
    var v, rest, i := votes[0], votes[1..], FirstNo(votes[1..]);
    assert votes[..i + 1] == [v] + rest[..i];
    assert Voters(votes[..i + 1]) == {v.from} + Voters(rest[..i]);
    assert s.voted + Voters(votes[..i + 1]) == (s.voted + {v.from}) + Voters(rest[..i]);
  }

  lemma {:induction false} AddVotesCounts(s: State, votes: seq<Vote>)
    requires s.status.Waiting? && s.voted < s.participants
    requires NewVotes(s, votes)
    ensures AddVotes(s, votes) == (Counted(s, votes), true)
    decreases |votes|
  {
    if votes == [] {
      CountedNothing(s);
    } else {
      var v, rest := votes[0], votes[1..];
      var s1 := AddVote(s, v);
      if v.reason.Some? {
        CountedNo(s, votes);
        AddVotesIgnored(s1, rest);
      } else {
        CountedYes(s, votes);
        NewVotesTail(s, votes);
        if !s1.status.Committing? {
          AddVotesCounts(s1, rest);
        } else if rest == [] {
          CountedNothing(s1);
        } else {
          NewVotesRemain(s1, rest);
        }
      }
    }
  }

  lemma NewVotesTail(s: State, votes: seq<Vote>)
    requires votes != [] && NewVotes(s, votes)
    ensures NewVotes(s.(voted := s.voted + {votes[0].from}), votes[1..])
  {
    var rest := votes[1..];
    assert forall i :: 0 <= i < |rest| ==> rest[i] == votes[i + 1];
  }

  /** Once rolling back, votes are accepted and change nothing. */
  lemma {:induction false} AddVotesIgnored(s: State, votes: seq<Vote>)
    requires s.status.RollsBack()
    ensures AddVotes(s, votes) == (s, true)
    decreases |votes|
  {
    if votes != [] {
      AddVotesIgnored(s, votes[1..]);
    }
  }

  // ----- Any votes at all ------------------------------------------------------------------

  /** The participants that have said "yes", once or more often. */
  function Said(participants: set<NodeId>, votes: seq<Vote>): set<NodeId> {
    set v | v in votes && v.from in participants && v.reason.None? :: v.from
  }

  predicate Refuses(s: State, v: Vote) {
    v.from in s.participants && v.reason.Some?
  }

  /** Nothing is decided by the first `n` votes: no participant has said "no", and some
      "yes" is missing. */
  predicate Open(s: State, votes: seq<Vote>, n: nat) {
    n <= |votes| && (forall i :: 0 <= i < n ==> !Refuses(s, votes[i])) && s.voted + Said(s.participants, votes[..n]) != s.participants
  }

  function StillWaiting(s: State, votes: seq<Vote>): State {
    s.(voted := s.voted + Said(s.participants, votes))
  }

  lemma SaidNext(s: State, votes: seq<Vote>, n: nat)
    requires n < |votes|
    ensures Said(s.participants, votes[..n + 1])
            == Said(s.participants, votes[..n])
               + (if votes[n].from in s.participants && votes[n].reason.None? then {votes[n].from} else {})
  {
    assert votes[..n + 1] == votes[..n] + [votes[n]];
  }

  lemma OpenBefore(s: State, votes: seq<Vote>, n: nat)
    requires s.voted <= s.participants && n < |votes| && Open(s, votes, n + 1)
    ensures Open(s, votes, n)
  {
    SaidNext(s, votes, n);
  }

  lemma {:induction false} CountedWhileOpen(s: State, votes: seq<Vote>, n: nat)
    requires s.status.Waiting? && s.voted <= s.participants && Open(s, votes, n)
    ensures AddVotes(s, votes) == AddVotes(StillWaiting(s, votes[..n]), votes[n..])
  {
    if n == 0 {
      assert votes[n..] == votes && s.voted + Said(s.participants, votes[..0]) == s.voted;
    } else {
      OpenBefore(s, votes, n - 1);
      CountedWhileOpen(s, votes, n - 1);
      SaidNext(s, votes, n - 1);
      assert votes[n - 1..][1..] == votes[n..];
      assert AddVote(StillWaiting(s, votes[..n - 1]), votes[n - 1]) == StillWaiting(s, votes[..n]);
    }
  }

  /** Votes of any kind, repeated ones and those of strangers included: strangers do not
      count, nor does a second "yes"; the first "no" of a participant decides, whether or
      not it has said "yes" before, unless the last missing "yes" was earlier; and any vote
      behind that "yes" is refused. */
  lemma AnyVotesCount(s: State, votes: seq<Vote>, n: nat)
    requires s.status.Waiting? && s.voted < s.participants && Open(s, votes, n)
    ensures n == |votes| ==> AddVotes(s, votes) == (StillWaiting(s, votes), true)
    ensures n < |votes| && Refuses(s, votes[n]) ==>
              AddVotes(s, votes)
              == (StillWaiting(s, votes[..n]).(status := Rollbacking(RollbackInfo(votes[n].from, votes[n].reason.value))), true)
    ensures n < |votes| && !Refuses(s, votes[n]) && !Open(s, votes, n + 1) ==>
              AddVotes(s, votes) == (s.(voted := s.participants, status := Committing), n + 1 == |votes|)
  {
    CountedWhileOpen(s, votes, n);
    assert votes[..|votes|] == votes;
    if n < |votes| {
      var s1 := AddVote(StillWaiting(s, votes[..n]), votes[n]);
      assert votes[n..][1..] == votes[n + 1..];
      SaidNext(s, votes, n);
      if Refuses(s, votes[n]) {
        AddVotesIgnored(s1, votes[n + 1..]);
      }
    }
  }

  /** One of these cases is there. */
  lemma LastOpen(s: State, votes: seq<Vote>) returns (n: nat)
    requires s.voted < s.participants
    ensures Open(s, votes, n) && (n < |votes| ==> !Open(s, votes, n + 1))
  {
    n := 0;
    assert s.voted + Said(s.participants, votes[..0]) == s.voted;
    while n < |votes| && Open(s, votes, n + 1)
      invariant Open(s, votes, n)
    {
      n := n + 1;
    }
  }

  /** A surrogate about to be initialized, with early votes from other surrogates. */
  ghost predicate SurrogateStart(s: State, votes: seq<Vote>) {
    && s.status.Uninitialized? && s.voted == {} && s.controller.SurrogateController?
    && s.node in s.participants && s.node != s.coordinator
    && (forall i :: 0 <= i < |votes| ==>
          votes[i].from in s.participants && votes[i].from != s.node && votes[i].from != s.coordinator)
    && (forall i, j :: 0 <= i < j < |votes| ==> votes[i].from != votes[j].from)
  }

  /** The state in which a surrogate starts to count early votes: the coordinator's
      implicit "yes" and its own are in, and its transaction is prepared. */
  function Executed(s: State, e: ExecEnv): State {
    s.(status := Waiting,
       voted := {s.coordinator} * s.participants + {s.node},
       controller := AfterExecute(s.controller, e))
  }

  /** What initializing a surrogate comes to. */
  function Initialized(s: State, votes: seq<Vote>, e: ExecEnv): State {
    match FailureOf(e)
    case Some(why) =>
      s.(status := Rollbacking(RollbackInfo(s.node, why)),
         voted := {s.coordinator} * s.participants,
         controller := AfterExecute(s.controller, e))
    case None => Counted(Executed(s, e), votes)
  }

  lemma InitializeSurrogate(s: State, votes: seq<Vote>, e: ExecEnv)
    requires SurrogateStart(s, votes)
    ensures Initialize(s, votes, e) == (Initialized(s, votes, e), true)
  {
    ExecuteByCalls(s.controller.pg, e);
    var (s1, failure) := Prologue(s.(status := Waiting), e);
    var own := Vote(s.node, failure);
    assert s1.voted == {s.coordinator} * s.participants;
    assert s1.status.Waiting?;
    var s2 := AddVote(s1, own);
    assert ([own] + votes)[1..] == votes;
    assert AddVotes(s1, [own] + votes) == AddVotes(s2, votes);
    if failure.Some? {
      AddVotesIgnored(s2, votes);
    } else {
      CountEarlyVotes(s, s2, votes, e);
    }
  }

  lemma CountEarlyVotes(s: State, s2: State, votes: seq<Vote>, e: ExecEnv)
    requires SurrogateStart(s, votes)
    requires s2 == AddVote(Executed(s, e).(voted := {s.coordinator} * s.participants), Vote(s.node, None))
    ensures AddVotes(s2, votes) == (Counted(Executed(s, e), votes), true)
  {
    var w := Executed(s, e);
    assert NewVotes(w, votes);
    if w.voted == s.participants {
      if votes == [] {
        CountedNothing(w);
      } else {
        NewVotesRemain(w, votes);
      }
    } else {
      assert s2 == w;
      AddVotesCounts(w, votes);
    }
  }
}
