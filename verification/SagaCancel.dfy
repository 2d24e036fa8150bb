/** What becomes of a saga once its run was cancelled: what its state column says, and when nothing closes it any more. */
module SagaCancel {
  import opened Text
  import opened SagaJournal
  import opened Attempts
  import opened AttemptInvariants
  import opened Protocol
  import opened ProtocolEvents
  import SagaTheorems
  import Brain

  // ---- the state column after a cancel -----------------------------------------------------------

  /** The column as a receipt leaves it. */
  predicate Column(saga: Saga) {
    saga.state == SUnknown || saga.state == StateOf(saga.rows, true)
  }

  predicate NoCancel(es: seq<Event>) {
    forall k :: 0 <= k < |es| ==> !es[k].CancelRun?
  }

  /** The journal took something in the course of `es`. */
  predicate Heard(s: Sys, es: seq<Event>) {
    es != [] &&
      var before := es[..|es| - 1];
      Heard(s, before) || Exec(s, before).sv.saga != Exec(s, es).sv.saga
  }

  lemma TransactionColumn(sv: Brain.Server, e: Brain.Event)
    requires sv.saga.plan.Some? && sv.saga.cancelRequested && !e.Cancel?
    ensures var t := Brain.Step(sv, e).saga;
            t == sv.saga || (t.plan.Some? && t.cancelRequested && Column(t))
  {
  }

  lemma ServerEventColumn(s: Sys, e: Event)
    requires s.sv.saga.plan.Some? && s.sv.saga.cancelRequested && !e.CancelRun? && !OfAttempt(e)
    ensures Next(s, e).sv.saga == s.sv.saga
  {
  }

  lemma NextColumn(s: Sys, e: Event)
    requires s.sv.saga.plan.Some? && s.sv.saga.cancelRequested && !e.CancelRun?
    ensures var t := Next(s, e).sv.saga;
            t == s.sv.saga || (t.plan.Some? && t.cancelRequested && Column(t))
  {
    if !OfAttempt(e) {
      ServerEventColumn(s, e);
    } else if e.a < |s.attempts| && NextCall(s.attempts[e.a]).Some? {
      var at := s.attempts[e.a];
      TransactionColumn(s.sv, Brain.Report(at.lease, NextCall(at).value));
    }
  }

  /** Over any run after a cancel the column is as the cancel left it until the journal takes a receipt, and right from then on. */
  lemma {:induction false} CancelledColumn(s: Sys, es: seq<Event>)
    requires s.sv.saga.plan.Some? && s.sv.saga.cancelRequested && NoCancel(es)
    ensures var t := Exec(s, es).sv.saga;
            && t.plan.Some? && t.cancelRequested
            && if Heard(s, es) then Column(t) else t == s.sv.saga
  {
    if es != [] {
      var before := es[..|es| - 1];
      CancelledColumn(s, before);
      NextColumn(Exec(s, before), es[|es| - 1]);
    }
  }

  lemma {:induction false} ExecSplit(s: Sys, es: seq<Event>, k: nat)
    requires k <= |es|
    ensures Exec(Exec(s, es[..k]), es[k..]) == Exec(s, es)
  {
    if k == |es| {
      assert es[..k] == es;
    } else {
      var before := es[..|es| - 1];
      assert before[..k] == es[..k] && es[k..][..|es| - k - 1] == before[k..];
      ExecSplit(s, before, k);
    }
  }

  lemma {:induction false} ExecJoins(s: Sys, es: seq<Event>, more: seq<Event>)
    ensures Exec(Exec(s, es), more) == Exec(s, es + more)
  {
    assert (es + more)[..|es|] == es && (es + more)[|es|..] == more;
    ExecSplit(s, es + more, |es|);
  }

  /**
   * In every run, whatever else happens: a lease holder that finished its pass over a cancelled saga leaves `compensated`
   * if and only if the journal took a receipt since the cancel, and `cancelling` otherwise.
   */
  lemma PassSettlesExactly(runDeadline: Option<int>, now: int, es: seq<Event>, k: nat, a: nat)
    requires k <= |es| && NoCancel(es[k..])
    requires var saga := SagaTheorems.Reached(runDeadline, now, es[..k]).sv.saga;
             saga.cancelRequested && saga.plan.Some? && saga.state == SCancelling
    requires var s := SagaTheorems.Reached(runDeadline, now, es);
             && a == |s.attempts| - 1 && s.attempts[a].pc.Done? && s.attempts[a].pc.result.Cause?
             && s.attempts[a].pc.result.why != ContextDone
    ensures var state := SagaTheorems.Reached(runDeadline, now, es).sv.saga.state;
            if Heard(SagaTheorems.Reached(runDeadline, now, es[..k]), es[k..]) then state == SCompensated else state == SCancelling
  {
    var s := SagaTheorems.Reached(runDeadline, now, es[..k]);
    ExecSplit(Start(runDeadline, now), es, k);
    CancelledColumn(s, es[k..]);
    SagaTheorems.CancelledPass(runDeadline, now, es, a);
  }

  // ---- a cancel nothing answers any more ---------------------------------------------------------

  /** Nothing this attempt will still send can change the journal of a cancelled saga with everything undone. */
  predicate Idle(at: Attempt) {
    match at.pc
    case Init => at.snap.cancelRequested
    case CompHead(_, _, _) => true
    case Done(_) => true
    case _ => false
  }

  /** Cancelled, everything undone, and the column does not say so. */
  predicate Overlooked(saga: Saga) {
    && saga.plan.Some? && saga.cancelRequested && AllCompensated(saga.rows)
    && (saga.state == SCancelling || saga.state == SRunning)
  }

  predicate Stranded(s: Sys) {
    && Overlooked(s.sv.saga) && s.sv.closing == Brain.Open
    && (s.attempts != [] ==> Idle(s.attempts[|s.attempts| - 1]))
  }

  lemma BackwardIsIdle(at: Attempt, contextDone: bool)
    requires AttemptInv(at) && Idle(at) && AllCompensated(at.snap.rows)
    ensures Idle(Think(at, contextDone))
  {
    if at.pc.CompHead? && at.pc.j >= 0 {
      BackwardShape(at.program, at.snap, at.pc.j, at.pc.last, at.pc.why);
      var row := at.snap.rows[at.pc.j];
      assert RowInv(row) && ExecRow(row) && row.plan == StepPlanFor(at.program.steps[at.pc.j], at.pc.j);
    }
  }

  /** The only call an idle attempt makes binds its plan, and changes nothing. */
  lemma IdleCall(s: Sys, a: nat)
    requires Known(s, a) && a == |s.attempts| - 1 && Idle(s.attempts[a]) && s.sv.saga.plan.Some?
    requires NextCall(s.attempts[a]).Some?
    ensures ReplyTo(s, a).Ok? ==> ReplyTo(s, a).saga == s.sv.saga
    ensures Called(s, a).sv == s.sv && Idle(Called(s, a).attempts[a]) && |Called(s, a).attempts| == |s.attempts|
    ensures CalledLate(s, a).sv == s.sv && Idle(CalledLate(s, a).attempts[a]) && |CalledLate(s, a).attempts| == |s.attempts|
  {
  }

  lemma StaleIsRefused(sv: Brain.Server, lease: Brain.Lease, request: Brain.Request)
    requires lease.epoch != sv.item.lease.epoch
    ensures !Brain.ReportReply(sv, lease, request).Ok? && Brain.Step(sv, Brain.Report(lease, request)) == sv
  {
  }

  /** A call of an earlier attempt is refused. */
  lemma StaleCall(s: Sys, a: nat)
    requires a < |s.attempts| - 1 && NextCall(s.attempts[a]).Some?
    requires s.attempts[a].lease.epoch != s.sv.item.lease.epoch
    ensures Called(s, a).sv == s.sv && CalledLate(s, a).sv == s.sv
    ensures |Called(s, a).attempts| == |CalledLate(s, a).attempts| == |s.attempts|
    ensures Called(s, a).attempts[|s.attempts| - 1] == s.attempts[|s.attempts| - 1]
    ensures CalledLate(s, a).attempts[|s.attempts| - 1] == s.attempts[|s.attempts| - 1]
  {
    StaleIsRefused(s.sv, s.attempts[a].lease, NextCall(s.attempts[a]).value);
  }

  lemma HolderStaysStranded(s: Sys, e: Event)
    requires Stranded(s) && OfAttempt(e) && e.a == |s.attempts| - 1 && Known(s, e.a)
    requires !s.attempts[e.a].pc.Done? ==> AllCompensated(s.attempts[e.a].snap.rows)
    ensures Stranded(Next(s, e)) && Next(s, e).sv == s.sv
  {
    var at := s.attempts[e.a];
    if e.Turn? && !at.pc.Done? {
      BackwardIsIdle(at, e.contextDone);
      MovedStaysStranded(s, e, Think(at, e.contextDone));
    } else if (e.Call? || e.Late?) && NextCall(at).Some? {
      IdleCall(s, e.a);
      CalledStaysStranded(s, e);
    } else {
      RestStaysStranded(s, e);
    }
  }

  /** A holder that moves on its own and stays idle. */
  lemma MovedStaysStranded(s: Sys, e: Event, at: Attempt)
    requires Stranded(s) && e.Turn? && e.a == |s.attempts| - 1 >= 0 && at == Think(s.attempts[e.a], e.contextDone) && Idle(at)
    ensures Stranded(Next(s, e)) && Next(s, e).sv == s.sv
  {
  }

  lemma CalledStaysStranded(s: Sys, e: Event)
    requires Stranded(s) && (e.Call? || e.Late?) && e.a == |s.attempts| - 1 >= 0 && NextCall(s.attempts[e.a]).Some?
    requires Called(s, e.a).sv == s.sv && Idle(Called(s, e.a).attempts[e.a]) && |Called(s, e.a).attempts| == |s.attempts|
    requires CalledLate(s, e.a).sv == s.sv && |CalledLate(s, e.a).attempts| == |s.attempts|
    requires Idle(CalledLate(s, e.a).attempts[e.a])
    ensures Stranded(Next(s, e)) && Next(s, e).sv == s.sv
  {
  }

  /** A dead holder, one with no call to make, and one that has nothing to do. */
  lemma RestStaysStranded(s: Sys, e: Event)
    requires Stranded(s) && OfAttempt(e) && e.a == |s.attempts| - 1 >= 0
    requires e.Turn? ==> s.attempts[e.a].pc.Done?
    requires e.Call? || e.Late? ==> NextCall(s.attempts[e.a]).None?
    ensures Stranded(Next(s, e)) && Next(s, e).sv == s.sv
  {
  }

  lemma OthersStayStranded(s: Sys, e: Event)
    requires Stranded(s) && OfAttempt(e) && e.a < |s.attempts| - 1
    requires s.attempts[e.a].lease.epoch != s.sv.item.lease.epoch
    ensures Stranded(Next(s, e)) && Next(s, e).sv == s.sv
  {
    if (e.Call? || e.Late?) && NextCall(s.attempts[e.a]).Some? {
      StaleCall(s, e.a);
    }
  }

  /** The ways out: the deadline, or another cancel that finds nothing ever started. */
  predicate WayOut(s: Sys, e: Event) {
    || (e.ExpireDeadline? && Brain.DeadlinePassed(s.sv))
    || (e.CancelRun? && !e.modelEffects && !Brain.HasSagaEffects(s.sv.saga.rows))
  }

  lemma ServerStaysStranded(s: Sys, e: Event)
    requires Stranded(s) && !OfAttempt(e) && !WayOut(s, e)
    ensures Stranded(Next(s, e)) && Next(s, e).sv.saga.rows == s.sv.saga.rows
  {
  }

  lemma NextStaysStranded(s: Sys, e: Event)
    requires Inv(s) && Stranded(s) && !WayOut(s, e)
    ensures Stranded(Next(s, e)) && Next(s, e).sv.saga.rows == s.sv.saga.rows
  {
    if !OfAttempt(e) {
      ServerStaysStranded(s, e);
    } else if e.a < |s.attempts| {
      Know(s, e.a);
      if e.a < |s.attempts| - 1 {
        OthersStayStranded(s, e);
      } else {
        HolderStaysStranded(s, e);
      }
    }
  }

  lemma WayOutCloses(s: Sys, e: Event)
    requires Stranded(s) && Brain.Inv(s.sv) && WayOut(s, e)
    ensures Next(s, e).sv.closing == if e.CancelRun? then Brain.ByCancel else Brain.ByDeadline
  {
  }

  lemma ClosedStays(s: Sys, e: Event)
    requires Brain.Inv(s.sv) && s.sv.closing != Brain.Open
    ensures Next(s, e).sv.closing == s.sv.closing
  {
  }

  /** Stranded along the whole of `es`, or closed by one of the two ways out. */
  predicate EndsStranded(s: Sys, rows: seq<StepRow>) {
    || (Stranded(s) && s.sv.saga.rows == rows)
    || s.sv.closing == Brain.ByDeadline
    || (s.sv.closing == Brain.ByCancel && !Brain.HasSagaEffects(rows))
  }

  lemma StrandedNext(s: Sys, e: Event, rows: seq<StepRow>)
    requires Inv(s) && EndsStranded(s, rows)
    ensures EndsStranded(Next(s, e), rows)
  {
    if s.sv.closing != Brain.Open {
      ClosedStays(s, e);
    } else if WayOut(s, e) {
      WayOutCloses(s, e);
    } else {
      NextStaysStranded(s, e);
    }
  }

  lemma {:induction false} StrandedRun(s: Sys, es: seq<Event>, rows: seq<StepRow>)
    requires Inv(s) && EndsStranded(s, rows)
    ensures EndsStranded(Exec(s, es), rows)
  {
    if es != [] {
      var before := es[..|es| - 1];
      StrandedRun(s, before, rows);
      ExecKeepsInv(s, before);
      StrandedNext(Exec(s, before), es[|es| - 1], rows);
    }
  }

  lemma {:induction false} StrandedOn(runDeadline: Option<int>, now: int, es: seq<Event>, more: seq<Event>)
    requires Stranded(SagaTheorems.Reached(runDeadline, now, es))
    ensures var s := SagaTheorems.Reached(runDeadline, now, es); EndsStranded(Exec(s, more), s.sv.saga.rows)
  {
    SagaTheorems.ReachedInv(runDeadline, now, es);
    var s := SagaTheorems.Reached(runDeadline, now, es);
    StrandedRun(s, more, s.sv.saga.rows);
  }

  /**
   * A cancelled saga with every started effect undone, a column that does not say so and a lease holder that has finished
   * stays that way through every continuation, whoever takes the item next: no failure and no completion is accepted, and
   * the item closes by its deadline only, or by another cancel if nothing was ever started.
   */
  lemma {:induction false} StrandedForGood(runDeadline: Option<int>, now: int, es: seq<Event>, more: seq<Event>)
    requires var s := SagaTheorems.Reached(runDeadline, now, es);
             && Overlooked(s.sv.saga) && s.sv.closing == Brain.Open
             && s.attempts != [] && s.attempts[|s.attempts| - 1].pc.Done?
    ensures EndsStranded(SagaTheorems.Reached(runDeadline, now, es + more), SagaTheorems.Reached(runDeadline, now, es).sv.saga.rows)
  {
    StrandedOn(runDeadline, now, es, more);
    ExecJoins(Start(runDeadline, now), es, more);
  }
}
