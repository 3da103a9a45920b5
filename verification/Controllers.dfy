/** The two transaction controllers as objects (xactserver/src/pg/controller.rs) and
    the part of Postgres the surrogate's controller drives. */
module Controllers {
  import opened Messages
  import opened Transitions
  import PgCalls
  import Ids

  /** What Postgres holds under each gid. */
  class Postgres {
    var xacts: map<string, PgXact>

    constructor ()
      ensures xacts == map[]
    {
      xacts := map[];
    }

    ghost function Under(gid: string): PgXact
      reads this
    {
      if gid in xacts then xacts[gid] else NO_XACT
    }

    /** Everything under other gids is as it was. */
    twostate predicate OnlyChanges(gid: string)
      reads this
    {
      forall g :: g != gid ==> Under(g) == old(Under(g))
    }

    method Lookup(gid: string) returns (x: PgXact)
      ensures x == Under(gid)
    {
      if gid in xacts {
        x := xacts[gid];
      } else {
        x := NO_XACT;
      }
    }

    method Store(gid: string, x: PgXact)
      modifies this
      ensures Under(gid) == x && OnlyChanges(gid)
    {
      xacts := xacts[gid := x];
    }

    /** `PREPARE TRANSACTION`, in a session whose transaction is open or has failed. */
    method PrepareTransaction(gid: string, open: bool, call: Call)
      modifies this
      ensures Under(gid) == (if open && !call.Refused? then old(Under(gid)).(phase := Prepared) else old(Under(gid)))
      ensures OnlyChanges(gid)
    {
      if open && !call.Refused? {
        var x := Lookup(gid);
        Store(gid, x.(phase := Prepared));
      }
    }

    /** A finishing command, which fails if nothing is prepared under the gid. */
    method FinishPrepared(gid: string, target: Phase, call: Call) returns (ok: bool)
      modifies this
      ensures (Under(gid), ok) == FinishCommand(old(Under(gid)), target, call)
      ensures OnlyChanges(gid)
    {
      var x := Lookup(gid);
      if !x.phase.Prepared? {
        Store(gid, x.(invalid := x.invalid + 1));
        return false;
      }
      if call.Refused? {
        return false;
      }
      Store(gid, x.(phase := target));
      return call.Ok?;
    }

    /** `COMMIT PREPARED`. */
    method CommitPrepared(gid: string, call: Call) returns (ok: bool)
      modifies this
      ensures (Under(gid), ok) ==
              FinishCommand(old(Under(gid)).(commits := old(Under(gid)).commits + 1), CommittedInPg, call)
      ensures OnlyChanges(gid)
    {
      var x := Lookup(gid);
      Store(gid, x.(commits := x.commits + 1));
      ok := FinishPrepared(gid, CommittedInPg, call);
    }
  }

  class LocalXactController {
    var commitTx: bool                              // the sender has not been taken yet
    var answer: Option<Option<RollbackInfo>>        // what reached the receiver

    constructor ()
      ensures Value() == LocalController(Pending)
    {
      commitTx, answer := true, None;
    }

    ghost function Value(): Controller
      reads this
    {
      LocalController(if commitTx then Pending else if answer.Some? then Answered(answer.value) else Dropped)
    }

    method Execute() returns (failure: Option<RollbackReason>)
      ensures forall e :: (Value(), failure) == Transitions.Execute(Value(), e)
    {
      failure := None;
    }

    method Answer(info: Option<RollbackInfo>, receiverAlive: bool) returns (ok: bool)
      modifies this
      ensures Value().reply == Send(old(Value()).reply, info, receiverAlive).0
      ensures ok == Send(old(Value()).reply, info, receiverAlive).1
    {
      if !commitTx {
        return false;
      }
      commitTx := false;
      answer := if receiverAlive then Some(info) else None;
      return receiverAlive;
    }

    method Commit(e: FinishEnv) returns (ok: bool)
      modifies this
      ensures (Value(), ok) == Transitions.Commit(old(Value()), e)
    {
      ok := Answer(None, e.receiverAlive);
    }

    method Rollback(info: RollbackInfo, e: FinishEnv) returns (ok: bool)
      modifies this
      ensures (Value(), ok) == Transitions.Rollback(old(Value()), info, e)
    {
      ok := Answer(Some(info), e.receiverAlive);
    }
  }

  class SurrogateXactController {
    const xactId: XactId
    const data: seq<Byte>
    const pg: Postgres

    constructor (xactId: XactId, data: seq<Byte>, pg: Postgres)
      ensures this.xactId == xactId && this.data == data && this.pg == pg
    {
      this.xactId, this.data, this.pg := xactId, data, pg;
    }

    function Gid(): string {
      Ids.Display(xactId)
    }

    ghost function Value(): Controller
      reads pg
    {
      SurrogateController(pg.Under(Gid()))
    }

    /** A failed validation is reported only after `PREPARE TRANSACTION` has had its
        chance to end the failed transaction. */
    method Execute(e: ExecEnv) returns (failure: Option<RollbackReason>)
      modifies pg
      ensures (Value(), failure) == Transitions.Execute(old(Value()), e)
      ensures failure == PgCalls.FailureOf(e) && (failure.None? <==> PgCalls.Works(e))
      ensures pg.Under(Gid()) ==
              if PgCalls.LeavesPrepared(e) then old(pg.Under(Gid())).(phase := Prepared) else old(pg.Under(Gid()))
      ensures pg.OnlyChanges(Gid())
    {
      if !e.connect.Ok? {
        return Some(e.connect.why);
      }
      if !e.start.Ok? {
        return Some(e.start.why);
      }
      var open := !e.validate.Refused?;
      pg.PrepareTransaction(Gid(), open, e.prepare);
      if !e.prepare.Ok? {
        return Some(e.prepare.why);
      }
      if !e.validate.Ok? {
        return Some(e.validate.why);
      }
      return None;
    }

    method Commit(e: FinishEnv) returns (ok: bool)
      modifies pg
      ensures (Value(), ok) == Transitions.Commit(old(Value()), e)
      ensures pg.OnlyChanges(Gid())
    {
      if !e.connect.Ok? {
        return false;
      }
      ok := pg.CommitPrepared(Gid(), e.command);
    }

    /** Rolls back only what is prepared. */
    method Rollback(info: RollbackInfo, e: FinishEnv) returns (ok: bool)
      modifies pg
      ensures (Value(), ok) == Transitions.Rollback(old(Value()), info, e)
      ensures pg.OnlyChanges(Gid())
    {
      if !e.connect.Ok? || !e.query.Ok? {
        return false;
      }
      var x := pg.Lookup(Gid());
      if !x.phase.Prepared? {
        return true;
      }
      ok := pg.FinishPrepared(Gid(), RolledBackInPg, e.command);
    }
  }
}
