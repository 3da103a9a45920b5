/** What becomes of executing, committing and rolling back, told from how the calls to
    Postgres end: for every combination of their outcomes. */
module PgCalls {
  import opened Messages
  import opened Transitions

  // ----- Executing ---------------------------------------------------------------------

  /** All four calls of an execution work. */
  predicate Works(e: ExecEnv) {
    e.connect.Ok? && e.start.Ok? && e.validate.Ok? && e.prepare.Ok?
  }

  /** The error that is reported: that of the first call that does not work, where the
      validation is looked at last. */
  function FailureOf(e: ExecEnv): Option<RollbackReason> {
    if !e.connect.Ok? then Some(e.connect.why)
    else if !e.start.Ok? then Some(e.start.why)
    else if !e.prepare.Ok? then Some(e.prepare.why)
    else if !e.validate.Ok? then Some(e.validate.why)
    else None
  }

  /** The transaction gets prepared: there is a session with a transaction that the
      validation has not made fail, and the command takes effect. */
  predicate LeavesPrepared(e: ExecEnv) {
    e.connect.Ok? && e.start.Ok? && !e.validate.Refused? && !e.prepare.Refused?
  }

  function AfterExecute(c: Controller, e: ExecEnv): Controller {
    match c
    case LocalController(_) => c
    case SurrogateController(pg) => SurrogateController(if LeavesPrepared(e) then pg.(phase := Prepared) else pg)
  }

  /** `execute` at a surrogate. It succeeds exactly if all four calls work, and then the
      transaction is prepared. Otherwise the error is that of connecting, starting,
      preparing or validating, whichever fails first in this order; the transaction may be
      prepared all the same. */
  lemma ExecuteByCalls(pg: PgXact, e: ExecEnv)
    ensures var (c, failure) := Execute(SurrogateController(pg), e);
            && (failure.None? <==> e.connect.Ok? && e.start.Ok? && e.validate.Ok? && e.prepare.Ok?)
            && (!e.connect.Ok? ==> failure == Some(e.connect.why))
            && (e.connect.Ok? && !e.start.Ok? ==> failure == Some(e.start.why))
            && (e.connect.Ok? && e.start.Ok? && !e.prepare.Ok? ==> failure == Some(e.prepare.why))
            && (e.connect.Ok? && e.start.Ok? && e.prepare.Ok? && !e.validate.Ok? ==> failure == Some(e.validate.why))
            && failure == FailureOf(e)
            && c == SurrogateController(if e.connect.Ok? && e.start.Ok? && !e.validate.Refused? && !e.prepare.Refused?
                                        then pg.(phase := Prepared) else pg)
    ensures FailureOf(e).None? <==> Works(e)
    ensures Works(e) ==> LeavesPrepared(e)
  {
  }

  // ----- Finishing -----------------------------------------------------------------------

  /** `commit` at a surrogate. `COMMIT PREPARED` is sent exactly if there is a connection;
      it takes effect exactly if something is prepared and it is not refused; and the call
      succeeds exactly if it has taken effect and that was acknowledged. */
  lemma CommitByCalls(pg: PgXact, e: FinishEnv)
    ensures var (c, ok) := Commit(SurrogateController(pg), e);
            && c.SurrogateController?
            && (ok <==> e.connect.Ok? && pg.phase.Prepared? && e.command.Ok?)
            && c.pg.phase == (if e.connect.Ok? && pg.phase.Prepared? && !e.command.Refused? then CommittedInPg else pg.phase)
            && c.pg.commits == pg.commits + (if e.connect.Ok? then 1 else 0)
            && c.pg.invalid == pg.invalid + (if e.connect.Ok? && !pg.phase.Prepared? then 1 else 0)
  {
  }

  /** `rollback` at a surrogate. It looks first; `ROLLBACK PREPARED` is sent exactly if
      something is found prepared, and then must be acknowledged. */
  lemma RollbackByCalls(pg: PgXact, info: RollbackInfo, e: FinishEnv)
    ensures var (c, ok) := Rollback(SurrogateController(pg), info, e);
            && c.SurrogateController?
            && (ok <==> e.connect.Ok? && e.query.Ok? && (pg.phase.Prepared? ==> e.command.Ok?))
            && c.pg.phase == (if e.connect.Ok? && e.query.Ok? && pg.phase.Prepared? && !e.command.Refused?
                              then RolledBackInPg else pg.phase)
            && c.pg.commits == pg.commits && c.pg.invalid == pg.invalid
  {
  }

  /** Both at the coordinator: they succeed exactly if the one-shot sender is still there
      and the client still waits; the sender is gone afterwards in any case. */
  lemma AnswerByCalls(r: Reply, info: RollbackInfo, e: FinishEnv)
    ensures var (c, ok) := Commit(LocalController(r), e);
            && (ok <==> r.Pending? && e.receiverAlive)
            && c == LocalController(if !r.Pending? then r else if e.receiverAlive then Answered(None) else Dropped)
    ensures var (c, ok) := Rollback(LocalController(r), info, e);
            && (ok <==> r.Pending? && e.receiverAlive)
            && c == LocalController(if !r.Pending? then r else if e.receiverAlive then Answered(Some(info)) else Dropped)
  {
  }

  /** A surrogate with a prepared transaction reaches its terminal status exactly if the
      finishing command is acknowledged, and stays where it is otherwise. */
  lemma FinishByCalls(s: State, e: FinishEnv)
    requires s.controller.SurrogateController? && s.controller.pg.phase.Prepared?
    requires s.status.Committing? || s.status.Rollbacking?
    ensures var (s', ok) := TryFinish(s, e);
            var acknowledged := e.connect.Ok? && e.command.Ok? && (s.status.Rollbacking? ==> e.query.Ok?);
            && (ok <==> acknowledged)
            && s'.status == (if !acknowledged then s.status else if s.status.Committing? then Committed else Rollbacked(s.status.info))
  {
  }
}
