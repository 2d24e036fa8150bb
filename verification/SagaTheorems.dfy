/** What every run of the saga protocol guarantees, whatever crashes, stalls, expires or arrives late. */
module SagaTheorems {
  import opened Text
  import opened SagaJournal
  import opened Attempts
  import opened AttemptInvariants
  import opened Protocol
  import opened ProtocolSteps
  import opened ProtocolEvents
  import Brain

  /** The state a run ends in. */
  function Reached(runDeadline: Option<int>, now: int, es: seq<Event>): Sys {
    Exec(Start(runDeadline, now), es)
  }

  lemma ReachedInv(runDeadline: Option<int>, now: int, es: seq<Event>)
    ensures Inv(Reached(runDeadline, now, es))
  {
    StartInv(runDeadline, now);
    ExecKeepsInv(Start(runDeadline, now), es);
  }

  /**
   * At most once: over all attempts together, a never-replay action and a never-replay compensator are each
   * executed at most once, and nothing is executed before its effect boundary is in the journal.
   */
  lemma AtMostOnce(runDeadline: Option<int>, now: int, es: seq<Event>)
    ensures var s := Reached(runDeadline, now, es);
            && (forall p, q :: 0 <= p < q < |s.log| && s.log[p].act == s.log[q].act ==>
                  !Once(s.sv.saga.rows, s.log[p].act))
            && (forall p :: 0 <= p < |s.log| ==> Committed(s.sv.saga.rows, s.log[p].act))
  {
    ReachedInv(runDeadline, now, es);
  }

  /**
   * In the executor's own terms: of the steps the plan was built from, only those declared `safe` or `idempotent`
   * can ever have their action, or their compensator, executed a second time; every other declaration means never.
   */
  lemma OnlyDeclaredReplays(runDeadline: Option<int>, now: int, es: seq<Event>, steps: seq<StepDef>, i: nat)
    requires PlanFor(steps).Some? && i < |steps|
    requires Reached(runDeadline, now, es).sv.saga.plan == PlanFor(steps)
    ensures var log := Reached(runDeadline, now, es).log;
            && (steps[i].replay !in {"safe", "idempotent"} ==>
                  forall p, q :: 0 <= p < q < |log| && log[p].act == log[q].act ==> log[p].act != Act(Action, i))
            && (steps[i].compensationReplay !in {"safe", "idempotent"} ==>
                  forall p, q :: 0 <= p < q < |log| && log[p].act == log[q].act ==> log[p].act != Act(Compensation, i))
  {
    ReachedInv(runDeadline, now, es);
    AtMostOnce(runDeadline, now, es);
    var saga := Reached(runDeadline, now, es).sv.saga;
    assert saga.rows[i].plan == StepPlanFor(steps[i], i);
  }

  /** The rows always read: succeeded steps, at most one other, untouched steps. The server checks no such order. */
  lemma PrefixAlways(runDeadline: Option<int>, now: int, es: seq<Event>)
    ensures Prefix(Reached(runDeadline, now, es).sv.saga.rows)
  {
    ReachedInv(runDeadline, now, es);
  }

  lemma NextGrows(s: Sys, e: Event)
    requires Inv(s)
    ensures SagaLeq(s.sv.saga, Next(s, e).sv.saga)
  {
    SagaLeqReflexive(s.sv.saga);
    if Next(s, e) != s {
      var m := EventLegal(s, e);
    }
  }

  /** Phases never move backward, an unknown outcome stays unknown, and an effect flag never clears. */
  lemma {:induction false} PhasesOnlyAdvance(runDeadline: Option<int>, now: int, es: seq<Event>, k: nat)
    requires k <= |es|
    ensures SagaLeq(Reached(runDeadline, now, es[..k]).sv.saga, Reached(runDeadline, now, es).sv.saga)
  {
    if k == |es| {
      assert es[..k] == es;
      SagaLeqReflexive(Reached(runDeadline, now, es).sv.saga);
    } else {
      var before := es[..|es| - 1];
      assert before[..k] == es[..k];
      PhasesOnlyAdvance(runDeadline, now, before, k);
      ReachedInv(runDeadline, now, before);
      NextGrows(Reached(runDeadline, now, before), es[|es| - 1]);
      SagaLeqTransitive(Reached(runDeadline, now, es[..k]).sv.saga, Reached(runDeadline, now, before).sv.saga,
                        Reached(runDeadline, now, es).sv.saga);
    }
  }

  // ---- a cancel the executor has seen ----------------------------------------------------------------

  /** On the way to the next effect boundary. */
  predicate Walking(pc: Pc) {
    pc.Head? || pc.SendIntent? || pc.SendEffect?
  }

  predicate NoneWalksOn(attempts: seq<Attempt>) {
    forall a :: 0 <= a < |attempts| && Walking(attempts[a].pc) ==> !attempts[a].snap.cancelRequested
  }

  lemma OneStops(at: Attempt, snap: Saga, contextDone: bool, error: Option<string>)
    requires Walking(at.pc) ==> !at.snap.cancelRequested
    ensures var next := AfterReply(at, snap); Outgoing(at.pc).Wire? || at.pc.Init? ==> (Walking(next.pc) ==> !next.snap.cancelRequested)
    ensures var next := Think(at, contextDone); Walking(next.pc) ==> !next.snap.cancelRequested
    ensures var next := AfterAction(at, error); Walking(next.pc) ==> !next.snap.cancelRequested
  {
  }

  lemma NextStops(s: Sys, e: Event)
    requires NoneWalksOn(s.attempts)
    ensures NoneWalksOn(Next(s, e).attempts)
  {
    if OfAttempt(e) && e.a < |s.attempts| {
      var at := s.attempts[e.a];
      OneStops(at, at.snap, e.Turn? && e.contextDone, if e.Perform? then ActionError(at, e.error) else None);
      if e.Call? && NextCall(at).Some? && ReplyTo(s, e.a).Ok? {
        OneStops(at, ReplyTo(s, e.a).saga, false, None);
      }
    }
  }

  /** In every run an executor that has seen the cancel is not on its way to another effect. */
  lemma {:induction false} SeenCancelStops(runDeadline: Option<int>, now: int, es: seq<Event>)
    ensures NoneWalksOn(Reached(runDeadline, now, es).attempts)
  {
    if es != [] {
      SeenCancelStops(runDeadline, now, es[..|es| - 1]);
      NextStops(Reached(runDeadline, now, es[..|es| - 1]), es[|es| - 1]);
    }
  }

  /** What the plan says of each step, in the executor's own terms. */
  lemma PlanSays(steps: seq<StepDef>, i: nat)
    requires PlanFor(steps).Some? && i < |steps|
    ensures var plan := PlanFor(steps).value;
            && |plan| == |steps| && plan[i].sequence == i + 1 && plan[i].key == steps[i].name
            && plan[i].hasCompensation == steps[i].hasCompensate
            && (plan[i].actionReplay == Safe <==> steps[i].replay == "safe")
            && (plan[i].actionReplay == Idempotent <==> steps[i].replay == "idempotent")
            && (plan[i].compensationReplay == Safe <==> steps[i].compensationReplay == "safe")
            && (plan[i].compensationReplay == Idempotent <==> steps[i].compensationReplay == "idempotent")
  {
    assert PlanFor(steps).value[i] == StepPlanFor(steps[i], i);
  }

  // ---- what the guard keeps out --------------------------------------------------------------------

  /** The step is safe outside a sandbox or there is one, and its memory is within the limit, if there is a limit. */
  predicate MayRun(g: Guard) {
    && (g.dangerous ==> g.sandbox)
    && (g.limit.memoryBytes == 0 || g.memBytes <= g.limit.memoryBytes)
  }

  /** The same, of a step of a program. */
  predicate StepMayRun(pg: Program, i: int) {
    && 0 <= i < |pg.steps|
    && (pg.steps[i].dangerous ==> pg.sandbox)
    && (pg.limit.memoryBytes == 0 || pg.steps[i].memBytes <= pg.limit.memoryBytes)
  }

  /** Every executed action was allowed by the program of the attempt that executed it. */
  predicate OnlyAllowedRan(s: Sys) {
    forall p :: 0 <= p < |s.log| && s.log[p].act.kind == Action ==>
      1 <= s.log[p].epoch <= |s.attempts| && StepMayRun(s.attempts[s.log[p].epoch - 1].program, s.log[p].act.i)
  }

  lemma DueMayRun(at: Attempt)
    requires AttemptInv(at) && at.pc.Run?
    ensures StepMayRun(at.program, at.pc.i)
  {
    assert Focus(at.pc) == Some(at.pc.i);
    assert RowInv(at.snap.rows[at.pc.i]) && ExecRow(at.snap.rows[at.pc.i]);
  }

  /** Whatever happens, an attempt keeps its program. */
  lemma ProgramsStay(s: Sys, e: Event)
    ensures |s.attempts| <= |Next(s, e).attempts|
    ensures forall a :: 0 <= a < |s.attempts| ==> Next(s, e).attempts[a].program == s.attempts[a].program
  {
  }

  /** What a log of allowed actions becomes: the same, or longer by an action its attempt may run. */
  lemma LogGrows(s: Sys, e: Event)
    ensures var log := Next(s, e).log;
            || log == s.log
            || (&& e.Perform? && e.a < |s.attempts|
                && log == s.log + [Deed(s.attempts[e.a].lease.epoch, log[|log| - 1].act)]
                && (log[|log| - 1].act.kind == Action ==>
                      s.attempts[e.a].pc.Run? && log[|log| - 1].act.i == s.attempts[e.a].pc.i))
  {
  }

  lemma RanAllowedGrows(s: Sys, t: Sys, a: nat, act: Act)
    requires OnlyAllowedRan(s) && t.log == s.log + [Deed(a + 1, act)] && a < |s.attempts| <= |t.attempts|
    requires forall b :: 0 <= b < |s.attempts| ==> t.attempts[b].program == s.attempts[b].program
    requires act.kind == Action ==> StepMayRun(s.attempts[a].program, act.i)
    ensures OnlyAllowedRan(t)
  {
    forall p | 0 <= p < |t.log| && t.log[p].act.kind == Action
      ensures 1 <= t.log[p].epoch <= |t.attempts| && StepMayRun(t.attempts[t.log[p].epoch - 1].program, t.log[p].act.i)
    {
      assert p < |s.log| ==> t.log[p] == s.log[p];
    }
  }

  lemma NextRanAllowed(s: Sys, e: Event)
    requires OnlyAllowedRan(s)
    requires e.Perform? && e.a < |s.attempts| ==>
               && s.attempts[e.a].lease.epoch == e.a + 1
               && (s.attempts[e.a].pc.Run? ==> StepMayRun(s.attempts[e.a].program, s.attempts[e.a].pc.i))
    ensures OnlyAllowedRan(Next(s, e))
  {
    ProgramsStay(s, e);
    LogGrows(s, e);
    var t := Next(s, e);
    if t.log != s.log {
      RanAllowedGrows(s, t, e.a, t.log[|t.log| - 1].act);
    }
  }

  /**
   * In every run, whoever executed an action: its step is not dangerous unless sandboxed, and its memory is within the
   * limit of the program it was executed under.
   */
  lemma {:induction false} GuardKeepsOut(runDeadline: Option<int>, now: int, es: seq<Event>)
    ensures OnlyAllowedRan(Reached(runDeadline, now, es))
  {
    if es != [] {
      var before := es[..|es| - 1];
      GuardKeepsOut(runDeadline, now, before);
      ReachedInv(runDeadline, now, before);
      var s, e := Reached(runDeadline, now, before), es[|es| - 1];
      if e.Perform? && e.a < |s.attempts| {
        Know(s, e.a);
        if s.attempts[e.a].pc.Run? {
          DueMayRun(s.attempts[e.a]);
        }
      }
      NextRanAllowed(s, e);
    }
  }

  /**
   * In every run the guard on record decides: a step with an effect on record may run under its guard, and a step that
   * failed without one may not.
   */
  lemma GuardDecides(runDeadline: Option<int>, now: int, es: seq<Event>, i: nat)
    requires i < |Reached(runDeadline, now, es).sv.saga.rows|
    ensures var row := Reached(runDeadline, now, es).sv.saga.rows[i];
            && (row.effectStarted ==> row.guard.Some? && MayRun(row.guard.value))
            && (row.action == Failed && !row.effectStarted ==> row.guard.Some? && !MayRun(row.guard.value))
  {
    ReachedInv(runDeadline, now, es);
    assert ExecRow(Reached(runDeadline, now, es).sv.saga.rows[i]);
  }

  /** Two attempts see the same guard for a step exactly if nothing the guard covers differs. */
  lemma GuardTellsApart(pg: Program, other: Program, i: nat)
    requires i < |pg.steps| && i < |other.steps|
    ensures GuardAt(pg, i) == GuardAt(other, i) <==>
            && pg.sandbox == other.sandbox && pg.limit == other.limit
            && pg.steps[i].dangerous == other.steps[i].dangerous && pg.steps[i].fail == other.steps[i].fail
            && pg.steps[i].memBytes == other.steps[i].memBytes
  {
  }

  // ---- the executor stays inside the journal's state machine -------------------------------------

  /** Exactly the plans the journal accepts. */
  lemma PlanAccepted(steps: seq<StepDef>)
    ensures (PlanFor(steps).Some? && ValidPlan(PlanFor(steps).value)) <==>
            && 1 <= |steps| <= MAX_STEPS
            && (forall k :: 0 <= k < |steps| ==> !Blank(steps[k].name) && Size(steps[k].name) <= MAX_KEY)
            && (forall k, l :: 0 <= k < l < |steps| ==> steps[k].name != steps[l].name)
  {
    if 1 <= |steps| <= MAX_STEPS
       && (forall k :: 0 <= k < |steps| ==> !Blank(steps[k].name) && Size(steps[k].name) <= MAX_KEY)
       && (forall k, l :: 0 <= k < l < |steps| ==> steps[k].name != steps[l].name) {
      forall k | 0 <= k < |steps|
        ensures steps[k].name != ""
      {
        assert !Blank(steps[k].name);
      }
    }
    if PlanFor(steps).Some? {
      var plan := PlanFor(steps).value;
      assert |plan| == |steps|;
      assert forall k :: 0 <= k < |steps| ==> plan[k].key == steps[k].name;
    }
  }

  /**
   * In every reachable state a receipt of the live lease holder is refused for two reasons only: its error
   * text is over the size limit, or it would undo a step whose own outcome was declared unknown; and the
   * second can only happen after a cancel.
   */
  lemma ReceiptsAreAccepted(runDeadline: Option<int>, now: int, es: seq<Event>, a: nat)
    requires var s := Reached(runDeadline, now, es);
             a < |s.attempts| && Outgoing(s.attempts[a].pc).Wire? && Brain.Live(s.sv, s.attempts[a].lease)
    ensures var s := Reached(runDeadline, now, es);
            var at := s.attempts[a];
            && NextCall(at).Some?
            && AnswerIs(at, ReplyTo(s, a))
            && (UndoesUnknown(at) ==> s.sv.saga.cancelRequested && AnyUnknown(s.sv.saga.rows))
  {
    ReachedInv(runDeadline, now, es);
    Know(Reached(runDeadline, now, es), a);
    ReceiptAt(Reached(runDeadline, now, es), a);
  }

  lemma ReceiptAt(s: Sys, a: nat)
    requires Known(s, a) && Outgoing(s.attempts[a].pc).Wire? && Brain.Live(s.sv, s.attempts[a].lease)
    ensures NextCall(s.attempts[a]).Some?
    ensures AnswerIs(s.attempts[a], ReplyTo(s, a))
    ensures UndoesUnknown(s.attempts[a]) ==> s.sv.saga.cancelRequested && AnyUnknown(s.sv.saga.rows)
  {
    var at := s.attempts[a];
    HolderCall(at, s.sv.saga);
    assert UndoesUnknown(at) ==> UnknownRow(s.sv.saga.rows[at.pc.j]);
  }

  /** Refused exactly when too large or undoing an unknown step. */
  predicate AnswerIs(at: Attempt, reply: Reply)
    requires Outgoing(at.pc).Wire?
  {
    match reply
    case Refused(why) =>
      && why == (if Size(Outgoing(at.pc).error) > MAX_TEXT then TooLarge else InvalidTransition)
      && (Size(Outgoing(at.pc).error) > MAX_TEXT || UndoesUnknown(at))
    case Ok(_) => Size(Outgoing(at.pc).error) <= MAX_TEXT && !UndoesUnknown(at)
  }

  // ---- compensation ------------------------------------------------------------------------------

  /**
   * Within one attempt compensators run in strictly decreasing step order, after all its actions, and a
   * compensator is entered only for a started, not yet compensated effect on record.
   */
  lemma CompensationDiscipline(runDeadline: Option<int>, now: int, es: seq<Event>)
    ensures var s := Reached(runDeadline, now, es);
            && (forall p, q :: 0 <= p < q < |s.log| && s.log[p].epoch == s.log[q].epoch ==>
                  Before(s.log[p].act, s.log[q].act))
            && (forall a :: 0 <= a < |s.attempts| ==> UndoesStartedEffect(s.attempts[a]))
  {
    ReachedInv(runDeadline, now, es);
    var s := Reached(runDeadline, now, es);
    forall a | 0 <= a < |s.attempts|
      ensures UndoesStartedEffect(s.attempts[a])
    {
      Know(s, a);
      UndoIsOnRecord(s.attempts[a]);
    }
  }

  predicate UndoesStartedEffect(at: Attempt) {
    at.pc.Undo? ==>
      && 0 <= at.pc.j < |at.snap.rows|
      && Eligible(at.snap.rows[at.pc.j])
      && at.snap.rows[at.pc.j].comp == CEffect
  }

  lemma UndoIsOnRecord(at: Attempt)
    requires FocusReady(at.program, at.snap, at.pc)
    ensures UndoesStartedEffect(at)
  {
    assert at.pc.Undo? ==> Focus(at.pc) == Some(at.pc.j);
  }

  /**
   * An attempt that returns its cause unwrapped leaves every eligible step it passed compensated in the
   * journal, for good; unless it stopped because its context ended, no started effect lies above `last`.
   */
  lemma CompletePass(runDeadline: Option<int>, now: int, es: seq<Event>, a: nat)
    requires var s := Reached(runDeadline, now, es);
             a < |s.attempts| && s.attempts[a].pc.Done? && s.attempts[a].pc.result.Cause?
    ensures var s := Reached(runDeadline, now, es);
            var at := s.attempts[a];
            var last := at.pc.result.last;
            && |at.snap.rows| == |s.sv.saga.rows|
            && (forall k :: 0 <= k <= last && k < |at.snap.rows| && Eligible(at.snap.rows[k]) ==>
                  s.sv.saga.rows[k].comp == CDone)
            && (at.pc.result.why != ContextDone ==> NothingStartedAbove(at.snap.rows, last))
  {
    ReachedInv(runDeadline, now, es);
    var s := Reached(runDeadline, now, es);
    Know(s, a);
    PassAt(s.attempts[a], s.sv.saga);
  }

  lemma PassAt(at: Attempt, saga: Saga)
    requires at.pc.Done? && at.pc.result.Cause? && Place(at.program, at.snap, at.pc) && SagaLeq(at.snap, saga)
    ensures |at.snap.rows| == |saga.rows|
    ensures forall k :: 0 <= k <= at.pc.result.last && k < |at.snap.rows| && Eligible(at.snap.rows[k]) ==>
              saga.rows[k].comp == CDone
    ensures at.pc.result.why != ContextDone ==> NothingStartedAbove(at.snap.rows, at.pc.result.last)
  {
    forall k | 0 <= k <= at.pc.result.last && k < |at.snap.rows| && Eligible(at.snap.rows[k])
      ensures saga.rows[k].comp == CDone
    {
      assert RowLeq(at.snap.rows[k], saga.rows[k]);
    }
  }

  /**
   * Where a finished lease holder leaves an uncancelled saga: its result decides the state column. Success is
   * `ready`; a failure it compensated is `compensated`; an unknown outcome is `outcome_unknown`; an ended context, or
   * a guard that changed, is `running`.
   */
  lemma ResultDecidesState(runDeadline: Option<int>, now: int, es: seq<Event>, a: nat)
    requires var s := Reached(runDeadline, now, es);
             a == |s.attempts| - 1 && s.attempts[a].pc.Done? && !s.sv.saga.cancelRequested
    ensures var s := Reached(runDeadline, now, es);
            ResultIs(s.attempts[a].pc.result, s.sv.saga.state)
  {
    ReachedInv(runDeadline, now, es);
    var s := Reached(runDeadline, now, es);
    Know(s, a);
    ResultAt(s.attempts[a], s.sv.saga);
  }

  /**
   * A lease holder that returns the error of a compensator leaves it on record as failed, in a step whose compensator may be
   * tried again; a failure of any other compensator it declared unknown.
   */
  lemma {:induction false} FailedCompensatorStands(runDeadline: Option<int>, now: int, es: seq<Event>, a: nat)
    requires var s := Reached(runDeadline, now, es); a == |s.attempts| - 1 && s.attempts[a].pc == Done(CompensatorFailed)
    ensures var rows := Reached(runDeadline, now, es).sv.saga.rows;
            exists k :: 0 <= k < |rows| && Eligible(rows[k]) && rows[k].comp == CFailed
                        && rows[k].plan.compensationReplay != NeverReplay
  {
    ReachedInv(runDeadline, now, es);
    var s := Reached(runDeadline, now, es);
    Know(s, a);
    RetryStands(s.attempts[a], s.sv.saga);
  }

  lemma RetryStands(at: Attempt, saga: Saga)
    requires PcInv(at.program, at.snap, at.pc) && Fresh(at, saga) && at.pc == Done(CompensatorFailed)
    ensures exists k :: 0 <= k < |saga.rows| && Eligible(saga.rows[k]) && saga.rows[k].comp == CFailed
                        && saga.rows[k].plan.compensationReplay != NeverReplay
  {
    var k :| 0 <= k < |saga.rows| && RetryLater(saga.rows[k]);
  }

  predicate ResultIs(result: Result, state: SagaState) {
    match result
    case Nil => state == SReady
    case Cause(StepFailed, _) => state == SCompensated
    case Cause(ContextDone, _) => state == SRunning
    case Cause(CancelSeen, _) => false
    case ErrUnknown => state == SUnknown
    case GuardClash => state == SRunning
    case _ => true
  }

  lemma OpenIsRunning(rows: seq<StepRow>, i: int)
    requires Prefix(rows) && OpenAt(rows, i)
    ensures StateOf(rows, false) == SRunning
  {
    forall k | 0 <= k < |rows|
      ensures rows[k].action != Failed
    {
      assert k <= i || rows[k].action == Pending;
    }
  }

  lemma ResultAt(at: Attempt, saga: Saga)
    requires at.pc.Done? && SagaInv(saga) && ExecRows(saga.rows) && !saga.cancelRequested
    requires Place(at.program, at.snap, at.pc) && SagaLeq(at.snap, saga) && Fresh(at, saga)
    ensures ResultIs(at.pc.result, saga.state)
  {
    match at.pc.result
    case Nil => assert saga.rows[0].action == Succeeded;
    case Cause(StepFailed, last) => assert AllCompensated(saga.rows);
    case Cause(ContextDone, last) => OpenIsRunning(saga.rows, last + 1);
    case GuardClash =>
      var i :| 0 <= i < |at.snap.rows| && OpenAt(at.snap.rows, i);
      OpenIsRunning(saga.rows, i);
    case _ =>
  }

  /**
   * A finished lease holder that saw a cancel, or compensated a failure, leaves every started effect compensated; the
   * state column of a cancelled saga says so only if a receipt came after the cancel.
   */
  lemma CancelledPass(runDeadline: Option<int>, now: int, es: seq<Event>, a: nat)
    requires var s := Reached(runDeadline, now, es);
             && a == |s.attempts| - 1 && s.attempts[a].pc.Done? && s.attempts[a].pc.result.Cause?
             && s.attempts[a].pc.result.why != ContextDone
    ensures var saga := Reached(runDeadline, now, es).sv.saga;
            AllCompensated(saga.rows) && saga.state != SUnknown
  {
    ReachedInv(runDeadline, now, es);
    var s := Reached(runDeadline, now, es);
    Know(s, a);
    PassIsComplete(s.attempts[a], s.sv.saga);
  }

  lemma PassIsComplete(at: Attempt, saga: Saga)
    requires at.pc.Done? && at.pc.result.Cause? && at.pc.result.why != ContextDone
    requires Place(at.program, at.snap, at.pc) && Fresh(at, saga)
    ensures AllCompensated(saga.rows) && saga.state != SUnknown
  {
  }
}
