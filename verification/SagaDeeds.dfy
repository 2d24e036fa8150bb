/** The journal never claims more than was done: what it records as succeeded or compensated was executed. */
module SagaDeeds {
  import opened Text
  import opened SagaJournal
  import opened Attempts
  import opened AttemptInvariants
  import opened Protocol
  import opened ProtocolEvents
  import SagaTheorems
  import Brain

  predicate Did(log: seq<Deed>, act: Act) {
    exists p :: 0 <= p < |log| && log[p].act == act
  }

  /** What a row claims was executed. An action that failed after its effect boundary was executed too. */
  predicate RowDone(row: StepRow, i: int, log: seq<Deed>) {
    && (row.action == Succeeded || (row.action == Failed && row.effectStarted) ==> Did(log, Act(Action, i)))
    && (row.comp == CDone ==> Did(log, Act(Compensation, i)))
  }

  predicate RowsDone(rows: seq<StepRow>, log: seq<Deed>) {
    forall i :: 0 <= i < |rows| ==> RowDone(rows[i], i, log)
  }

  /** What an attempt is about to claim. */
  predicate ClaimDone(pc: Pc, log: seq<Deed>) {
    match pc
    case SendSucceeded(i) => Did(log, Act(Action, i))
    case SendFailed(i, _, last) => last == i ==> Did(log, Act(Action, i))
    case SendCompDone(j, _, _) => Did(log, Act(Compensation, j))
    case _ => true
  }

  predicate Honest(s: Sys) {
    && RowsDone(s.sv.saga.rows, s.log)
    && AllClaims(s.attempts, s.log)
  }

  predicate AllClaims(attempts: seq<Attempt>, log: seq<Deed>) {
    forall a :: 0 <= a < |attempts| ==> ClaimDone(attempts[a].pc, log)
  }

  lemma DidGrows(log: seq<Deed>, deed: Deed, act: Act)
    ensures Did(log, act) ==> Did(log + [deed], act)
    ensures Did(log + [deed], deed.act)
  {
    assert (log + [deed])[|log|] == deed;
    if Did(log, act) {
      var p :| 0 <= p < |log| && log[p].act == act;
      assert (log + [deed])[p].act == act;
    }
  }

  /** The row after a receipt the sender stands ready to send claims no more than the sender knows was done. */
  lemma AdvanceIsHonest(pc: Pc, row: StepRow, i: int, g: Guard, guard: Option<Guard>, log: seq<Deed>)
    requires Outgoing(pc).Wire? && Outgoing(pc).i == i && RowInv(row) && Ready(pc, row, g)
    requires RowDone(row, i, log) && ClaimDone(pc, log)
    ensures RowDone(Advance(row, Outgoing(pc).phase, guard), i, log)
  {
  }

  lemma RecordedIsHonest(pc: Pc, saga: Saga, r: Receipt, g: Guard, log: seq<Deed>)
    requires RowsDone(saga.rows, log) && ClaimDone(pc, log)
    requires Outgoing(pc).Wire? && 0 <= Outgoing(pc).i < |saga.rows|
    requires r.sequence == Outgoing(pc).i + 1 && r.phase == Outgoing(pc).phase
    requires RowInv(saga.rows[Outgoing(pc).i]) && Ready(pc, saga.rows[Outgoing(pc).i], g)
    ensures Record(saga, r).Ok? ==> RowsDone(Record(saga, r).saga.rows, log)
  {
    var i := Outgoing(pc).i;
    assert RowDone(saga.rows[i], i, log);
    AdvanceIsHonest(pc, saga.rows[i], i, g, r.guard, log);
  }

  /** A receipt the journal accepts from a sender that knows the journal claims no more than was done. */
  lemma RecordIsHonest(at: Attempt, saga: Saga, log: seq<Deed>)
    requires RowsDone(saga.rows, log) && ClaimDone(at.pc, log)
    requires AttemptInv(at) && Outgoing(at.pc).Wire? && at.snap.rows == saga.rows
    requires NextCall(at).Some? && NextCall(at).value.RecordReq?
    ensures var reply := Record(saga, NextCall(at).value.receipt);
            reply.Ok? ==> RowsDone(reply.saga.rows, log)
  {
    InFocus(at);
    RecordedIsHonest(at.pc, saga, NextCall(at).value.receipt, GuardAt(at.program, Outgoing(at.pc).i), log);
  }

  lemma BindIsHonest(saga: Saga, plan: Plan, log: seq<Deed>)
    requires RowsDone(saga.rows, log)
    ensures Bind(saga, plan).Ok? ==> RowsDone(Bind(saga, plan).saga.rows, log)
  {
  }

  /** After an answer an attempt claims nothing new; neither does it at a loop head. */
  lemma NoNewClaim(at: Attempt, snap: Saga, contextDone: bool, log: seq<Deed>)
    requires ClaimDone(at.pc, log)
    ensures ClaimDone(AfterReply(at, snap).pc, log) && ClaimDone(Think(at, contextDone).pc, log)
  {
  }

  /** The server's own transactions leave the step rows alone. */
  lemma RowsUntouched(sv: Brain.Server, e: Brain.Event)
    requires !e.Report?
    ensures Brain.Step(sv, e).saga.rows == sv.saga.rows
  {
  }

  lemma ReportIsHonest(s: Sys, a: nat)
    requires Honest(s) && Known(s, a) && NextCall(s.attempts[a]).Some?
    ensures ReplyTo(s, a).Ok? ==> RowsDone(ReplyTo(s, a).saga.rows, s.log)
  {
    var at := s.attempts[a];
    assert ClaimDone(at.pc, s.log);
    if ReplyTo(s, a).Ok? {
      if at.pc.Init? {
        BindIsHonest(s.sv.saga, NextCall(at).value.plan, s.log);
      } else {
        RecordIsHonest(at, s.sv.saga, s.log);
      }
    }
  }

  lemma CallIsHonest(s: Sys, a: nat)
    requires Honest(s) && a < |s.attempts| && NextCall(s.attempts[a]).Some?
    requires ReplyTo(s, a).Ok? ==> RowsDone(ReplyTo(s, a).saga.rows, s.log)
    ensures Honest(Called(s, a)) && Honest(CalledLate(s, a))
  {
    var at := s.attempts[a];
    assert ClaimDone(at.pc, s.log);
    NoNewClaim(at, at.snap, false, s.log);
    if ReplyTo(s, a).Ok? {
      NoNewClaim(at, ReplyTo(s, a).saga, false, s.log);
    }
  }

  lemma DeedIsHonest(s: Sys, a: nat, error: Option<string>)
    requires Honest(s) && a < |s.attempts| && s.attempts[a].alive && Due(s.attempts[a].pc).Some?
    ensures Honest(Next(s, Perform(a, error)))
  {
    var s' := Next(s, Perform(a, error));
    var deed := Deed(s.attempts[a].lease.epoch, Due(s.attempts[a].pc).value);
    forall act: Act
      ensures Did(s.log, act) ==> Did(s'.log, act)
      ensures Did(s'.log, deed.act)
    {
      DidGrows(s.log, deed, act);
    }
    forall i | 0 <= i < |s'.sv.saga.rows|
      ensures RowDone(s'.sv.saga.rows[i], i, s'.log)
    {
      assert RowDone(s.sv.saga.rows[i], i, s.log);
    }
    forall b | 0 <= b < |s'.attempts|
      ensures ClaimDone(s'.attempts[b].pc, s'.log)
    {
      assert ClaimDone(s.attempts[b].pc, s.log);
    }
  }

  lemma ServerIsHonest(s: Sys, e: Event)
    requires Honest(s) && !OfAttempt(e)
    ensures Honest(Next(s, e))
  {
    match e
    case Tick(elapsed) => RowsUntouched(s.sv, Brain.Tick(elapsed));
    case CancelRun(m) => RowsUntouched(s.sv, Brain.Cancel(m));
    case ExpireDeadline => RowsUntouched(s.sv, Brain.ExpireDeadline);
    case Grant(worker, id, _) => RowsUntouched(s.sv, Brain.Grant(worker, id));
    case ExtendLease(a) => if a < |s.attempts| { RowsUntouched(s.sv, Brain.Extend(s.attempts[a].lease)); }
    case CompleteWork(a) => if a < |s.attempts| { RowsUntouched(s.sv, Brain.Complete(s.attempts[a].lease)); }
    case FailWork(a) => if a < |s.attempts| { RowsUntouched(s.sv, Brain.FailWork(s.attempts[a].lease)); }
  }

  lemma AttemptIsHonest(s: Sys, e: Event)
    requires Honest(s) && OfAttempt(e) && (e.a < |s.attempts| ==> Known(s, e.a))
    ensures Honest(Next(s, e))
  {
    if e.a < |s.attempts| {
      var at := s.attempts[e.a];
      assert ClaimDone(at.pc, s.log);
      if e.Turn? {
        NoNewClaim(at, at.snap, e.contextDone, s.log);
      } else if (e.Call? || e.Late?) && NextCall(at).Some? {
        ReportIsHonest(s, e.a);
        CallIsHonest(s, e.a);
      } else if e.Perform? && at.alive && Due(at.pc).Some? {
        DeedIsHonest(s, e.a, e.error);
      }
    }
  }

  lemma NextIsHonest(s: Sys, e: Event)
    requires Honest(s) && Inv(s)
    ensures Honest(Next(s, e))
  {
    if !OfAttempt(e) {
      ServerIsHonest(s, e);
    } else {
      if e.a < |s.attempts| {
        Know(s, e.a);
      }
      AttemptIsHonest(s, e);
    }
  }

  /** In every run the journal and the attempts claim only what was done. */
  lemma {:induction false} ReachedHonest(runDeadline: Option<int>, now: int, es: seq<Event>)
    ensures Honest(SagaTheorems.Reached(runDeadline, now, es))
  {
    if es != [] {
      var before := es[..|es| - 1];
      ReachedHonest(runDeadline, now, before);
      SagaTheorems.ReachedInv(runDeadline, now, before);
      NextIsHonest(SagaTheorems.Reached(runDeadline, now, before), es[|es| - 1]);
    }
  }

  /** In every run, a step recorded as succeeded was executed, and one recorded as compensated was compensated. */
  lemma RecordedWasDone(runDeadline: Option<int>, now: int, es: seq<Event>, i: nat)
    requires i < |SagaTheorems.Reached(runDeadline, now, es).sv.saga.rows|
    ensures var s := SagaTheorems.Reached(runDeadline, now, es);
            && (s.sv.saga.rows[i].action == Succeeded ==> Did(s.log, Act(Action, i)))
            && (s.sv.saga.rows[i].comp == CDone ==> Did(s.log, Act(Compensation, i)))
  {
    ReachedHonest(runDeadline, now, es);
    assert RowDone(SagaTheorems.Reached(runDeadline, now, es).sv.saga.rows[i], i,
                   SagaTheorems.Reached(runDeadline, now, es).log);
  }

  // ---- the compensator comes last ------------------------------------------------------------------

  /** The action of step i was executed after its compensator. */
  predicate Redone(log: seq<Deed>, i: int) {
    exists p, q :: 0 <= p < q < |log| && log[p].act == Act(Compensation, i) && log[q].act == Act(Action, i)
  }

  /** A compensator that was executed, for a step not to be replayed, means its action was executed before. */
  lemma UndoneWasDone(saga: Saga, i: int, log: seq<Deed>)
    requires SagaInv(saga) && ExecRows(saga.rows) && RowsDone(saga.rows, log)
    requires Committed(saga.rows, Act(Compensation, i))
    ensures NeverAction(saga.rows[i]) ==> Did(log, Act(Action, i))
  {
    assert RowInv(saga.rows[i]) && ExecRow(saga.rows[i]) && RowDone(saga.rows[i], i, log);
  }

  /** No step that is not to be replayed was done again after it was undone. */
  ghost predicate UndoneStays(s: Sys) {
    forall i :: Redone(s.log, i) ==> 0 <= i < |s.sv.saga.rows| && !NeverAction(s.sv.saga.rows[i])
  }

  lemma InvParts(s: Sys)
    requires Inv(s)
    ensures SagaInv(s.sv.saga) && ExecRows(s.sv.saga.rows) && OnceInv(s)
  {
  }

  /** An attempt about to act on a step whose compensator was executed: the step may be replayed. */
  lemma RedoesReplayable(s: Sys, a: nat, i: int)
    requires OnceInv(s) && SagaInv(s.sv.saga) && ExecRows(s.sv.saga.rows) && RowsDone(s.sv.saga.rows, s.log)
    requires a < |s.attempts| && Due(s.attempts[a].pc) == Some(Act(Action, i)) && Did(s.log, Act(Compensation, i))
    ensures 0 <= i < |s.sv.saga.rows| && !NeverAction(s.sv.saga.rows[i])
  {
    UndoneWasDone(s.sv.saga, i, s.log);
    if Did(s.log, Act(Action, i)) {
      var q :| 0 <= q < |s.log| && s.log[q].act == Act(Action, i);
      assert Due(s.attempts[a].pc) == Some(s.log[q].act);
    }
  }

  lemma RedoneBy(log: seq<Deed>, deed: Deed, i: int)
    requires Redone(log + [deed], i)
    ensures Redone(log, i) || (deed.act == Act(Action, i) && Did(log, Act(Compensation, i)))
  {
    var all := log + [deed];
    var p, q :| 0 <= p < q < |all| && all[p].act == Act(Compensation, i) && all[q].act == Act(Action, i);
    assert log[p].act == Act(Compensation, i);
    assert q < |log| ==> log[q].act == Act(Action, i);
  }

  lemma DeedStaysUndone(s: Sys, a: nat, error: Option<string>)
    requires UndoneStays(s) && OnceInv(s) && SagaInv(s.sv.saga) && ExecRows(s.sv.saga.rows) && RowsDone(s.sv.saga.rows, s.log)
    requires a < |s.attempts| && s.attempts[a].alive && Due(s.attempts[a].pc).Some?
    ensures UndoneStays(Next(s, Perform(a, error)))
  {
    var deed := Deed(s.attempts[a].lease.epoch, Due(s.attempts[a].pc).value);
    forall i | Redone(s.log + [deed], i)
      ensures 0 <= i < |s.sv.saga.rows| && !NeverAction(s.sv.saga.rows[i])
    {
      RedoneBy(s.log, deed, i);
      if !Redone(s.log, i) {
        RedoesReplayable(s, a, i);
      }
    }
  }

  /** The rows only advance, and nothing new is executed. */
  lemma QuietStaysUndone(s: Sys, t: Sys)
    requires UndoneStays(s) && t.log == s.log && SagaLeq(s.sv.saga, t.sv.saga)
    ensures UndoneStays(t)
  {
    forall i | Redone(t.log, i)
      ensures 0 <= i < |t.sv.saga.rows| && !NeverAction(t.sv.saga.rows[i])
    {
      assert RowLeq(s.sv.saga.rows[i], t.sv.saga.rows[i]);
    }
  }

  lemma OnlyDeedsAreLogged(s: Sys, e: Event)
    ensures || (e.Perform? && e.a < |s.attempts| && s.attempts[e.a].alive && Due(s.attempts[e.a].pc).Some?)
            || Next(s, e).log == s.log
  {
  }

  lemma NextStaysUndone(s: Sys, e: Event)
    requires Inv(s) && Honest(s) && UndoneStays(s)
    ensures UndoneStays(Next(s, e))
  {
    OnlyDeedsAreLogged(s, e);
    if e.Perform? && e.a < |s.attempts| && s.attempts[e.a].alive && Due(s.attempts[e.a].pc).Some? {
      InvParts(s);
      DeedStaysUndone(s, e.a, e.error);
    } else {
      SagaTheorems.NextGrows(s, e);
      QuietStaysUndone(s, Next(s, e));
    }
  }

  /**
   * The compensator comes last: in every run, only a step declared `safe` or `idempotent` can have its action executed
   * after its compensator.
   */
  lemma {:induction false} UndoneForGood(runDeadline: Option<int>, now: int, es: seq<Event>)
    ensures UndoneStays(SagaTheorems.Reached(runDeadline, now, es))
  {
    if es != [] {
      var before := es[..|es| - 1];
      UndoneForGood(runDeadline, now, before);
      SagaTheorems.ReachedInv(runDeadline, now, before);
      ReachedHonest(runDeadline, now, before);
      NextStaysUndone(SagaTheorems.Reached(runDeadline, now, before), es[|es| - 1]);
    }
  }

  // ---- why anything is undone ------------------------------------------------------------------------

  /** Why the attempt is undoing steps, if it is, or has. */
  function WhyOf(pc: Pc): Option<Why> {
    match pc
    case CompHead(_, _, why) => Some(why)
    case SendCompIntent(_, _, why) => Some(why)
    case SendCompEffect(_, _, why) => Some(why)
    case Undo(_, _, why) => Some(why)
    case SendCompDone(_, _, why) => Some(why)
    case _ => None
  }

  /** No executor saw its context end. */
  predicate ContextStaysOpen(es: seq<Event>) {
    forall k :: 0 <= k < |es| && es[k].Turn? ==> !es[k].contextDone
  }

  predicate NoneForContext(attempts: seq<Attempt>) {
    forall a :: 0 <= a < |attempts| ==> WhyOf(attempts[a].pc) != Some(ContextDone)
  }

  /** A failed step or a cancel is on record. */
  predicate HasCause(saga: Saga) {
    AnyFailed(saga.rows) || saga.cancelRequested
  }

  predicate Undid(log: seq<Deed>) {
    exists p :: 0 <= p < |log| && log[p].act.kind == Compensation
  }

  predicate Caused(s: Sys) {
    NoneForContext(s.attempts) && (Undid(s.log) ==> HasCause(s.sv.saga))
  }

  lemma CauseStays(s: Saga, t: Saga)
    requires SagaLeq(s, t) && HasCause(s)
    ensures HasCause(t)
  {
    if AnyFailed(s.rows) {
      var k :| 0 <= k < |s.rows| && s.rows[k].action == Failed;
      assert RowLeq(s.rows[k], t.rows[k]);
    }
  }

  lemma OneMoves(at: Attempt, snap: Saga, error: Option<string>)
    requires WhyOf(at.pc) != Some(ContextDone)
    ensures WhyOf(AfterReply(at, snap).pc) != Some(ContextDone)
    ensures WhyOf(Think(at, false).pc) != Some(ContextDone)
    ensures WhyOf(AfterAction(at, error).pc) != Some(ContextDone)
  {
  }

  lemma AllMove(s: Sys, e: Event)
    requires NoneForContext(s.attempts) && !(e.Turn? && e.contextDone)
    ensures NoneForContext(Next(s, e).attempts)
  {
    if OfAttempt(e) && e.a < |s.attempts| {
      var at := s.attempts[e.a];
      OneMoves(at, at.snap, None);
      if e.Perform? {
        OneMoves(at, at.snap, ActionError(at, e.error));
      } else if e.Call? && NextCall(at).Some? && ReplyTo(s, e.a).Ok? {
        OneMoves(at, ReplyTo(s, e.a).saga, None);
      }
    }
  }

  /** Whoever undoes a step, other than for its context, has a cause on record. */
  lemma UndoHasCause(at: Attempt, saga: Saga)
    requires AttemptInv(at) && SagaLeq(at.snap, saga) && at.pc.Undo? && WhyOf(at.pc) != Some(ContextDone)
    ensures HasCause(saga)
  {
    CauseStays(at.snap, saga);
  }

  lemma OnlyUndoing(s: Sys, e: Event)
    ensures Undid(Next(s, e).log) ==> Undid(s.log) || (e.Perform? && e.a < |s.attempts| && s.attempts[e.a].pc.Undo?)
  {
    OnlyDeedsAreLogged(s, e);
    if Undid(Next(s, e).log) {
      var log := Next(s, e).log;
      var p :| 0 <= p < |log| && log[p].act.kind == Compensation;
      assert p < |s.log| ==> s.log[p] == log[p];
    }
  }

  lemma UndoingIsCaused(s: Sys, e: Event)
    requires Caused(s) && Undid(Next(s, e).log)
    requires OfAttempt(e) && e.a < |s.attempts| ==> Known(s, e.a)
    ensures HasCause(s.sv.saga)
  {
    OnlyUndoing(s, e);
    if e.Perform? && e.a < |s.attempts| && s.attempts[e.a].pc.Undo? {
      UndoHasCause(s.attempts[e.a], s.sv.saga);
    }
  }

  lemma NextIsCaused(s: Sys, e: Event)
    requires Inv(s) && Caused(s) && !(e.Turn? && e.contextDone)
    ensures Caused(Next(s, e))
  {
    AllMove(s, e);
    if OfAttempt(e) && e.a < |s.attempts| {
      Know(s, e.a);
    }
    if Undid(Next(s, e).log) {
      UndoingIsCaused(s, e);
      SagaTheorems.NextGrows(s, e);
      CauseStays(s.sv.saga, Next(s, e).sv.saga);
    }
  }

  lemma {:induction false} ReachedCaused(runDeadline: Option<int>, now: int, es: seq<Event>)
    requires ContextStaysOpen(es)
    ensures Caused(SagaTheorems.Reached(runDeadline, now, es))
  {
    if es != [] {
      var before := es[..|es| - 1];
      ReachedCaused(runDeadline, now, before);
      SagaTheorems.ReachedInv(runDeadline, now, before);
      NextIsCaused(SagaTheorems.Reached(runDeadline, now, before), es[|es| - 1]);
    }
  }

  // ---- end to end ------------------------------------------------------------------------------------

  /**
   * End to end, whatever crashed in between: a work item that succeeded had every step executed, never-replay steps
   * exactly once.
   */
  lemma SuccessMeansDone(runDeadline: Option<int>, now: int, es: seq<Event>, i: nat)
    requires var sv := SagaTheorems.Reached(runDeadline, now, es).sv;
             sv.item.status == Brain.WSucceeded && i < |sv.saga.rows|
    ensures var s := SagaTheorems.Reached(runDeadline, now, es);
            && Did(s.log, Act(Action, i))
            && (NeverAction(s.sv.saga.rows[i]) ==>
                  forall p, q :: 0 <= p < q < |s.log| && s.log[p].act == s.log[q].act ==> s.log[p].act != Act(Action, i))
  {
    SagaTheorems.ReachedInv(runDeadline, now, es);
    SagaTheorems.AtMostOnce(runDeadline, now, es);
    RecordedWasDone(runDeadline, now, es, i);
  }

  /** A work item that succeeded, and whose executors never saw their context end, had nothing undone. */
  lemma SuccessMeansKept(runDeadline: Option<int>, now: int, es: seq<Event>)
    requires SagaTheorems.Reached(runDeadline, now, es).sv.item.status == Brain.WSucceeded && ContextStaysOpen(es)
    ensures !Undid(SagaTheorems.Reached(runDeadline, now, es).log)
  {
    SagaTheorems.ReachedInv(runDeadline, now, es);
    ReachedCaused(runDeadline, now, es);
  }

  /**
   * A work item that failed or was cancelled, other than by its deadline, with no outcome declared unknown, leaves
   * nothing standing: every action executed for a compensatable step has had its compensator executed, and for a step
   * that is not to be replayed the compensator came after it.
   */
  lemma FailureMeansUndone(runDeadline: Option<int>, now: int, es: seq<Event>, p: nat)
    requires var s := SagaTheorems.Reached(runDeadline, now, es);
             && (s.sv.item.status == Brain.WFailed || s.sv.item.status == Brain.WCancelled)
             && s.sv.closing != Brain.ByDeadline && !AnyUnknown(s.sv.saga.rows)
             && p < |s.log| && s.log[p].act.kind == Action
    ensures var s := SagaTheorems.Reached(runDeadline, now, es);
            var i := s.log[p].act.i;
            && 0 <= i < |s.sv.saga.rows|
            && (s.sv.saga.rows[i].plan.hasCompensation ==> Did(s.log, Act(Compensation, i)))
            && (s.sv.saga.rows[i].plan.hasCompensation && NeverAction(s.sv.saga.rows[i]) ==>
                  exists q :: p < q < |s.log| && s.log[q].act == Act(Compensation, i))
  {
    SagaTheorems.ReachedInv(runDeadline, now, es);
    SagaTheorems.AtMostOnce(runDeadline, now, es);
    var s := SagaTheorems.Reached(runDeadline, now, es);
    var i := s.log[p].act.i;
    assert Committed(s.sv.saga.rows, s.log[p].act);
    RecordedWasDone(runDeadline, now, es, i);
    assert Eligible(s.sv.saga.rows[i]) ==> s.sv.saga.rows[i].comp == CDone;
    UndoneForGood(runDeadline, now, es);
    if s.sv.saga.rows[i].plan.hasCompensation && NeverAction(s.sv.saga.rows[i]) {
      ComesLast(s, p, i);
    }
  }

  lemma ComesLast(s: Sys, p: nat, i: int)
    requires p < |s.log| && s.log[p].act == Act(Action, i) && Did(s.log, Act(Compensation, i))
    requires UndoneStays(s) && 0 <= i < |s.sv.saga.rows| && NeverAction(s.sv.saga.rows[i])
    ensures exists q :: p < q < |s.log| && s.log[q].act == Act(Compensation, i)
  {
    var q :| 0 <= q < |s.log| && s.log[q].act == Act(Compensation, i);
    assert q < p ==> Redone(s.log, i);
  }
}
