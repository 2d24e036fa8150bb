/**
 * Concrete runs of the whole protocol, event by event, that end where a reader would not expect. In all of them the
 * executors follow one another: each holds its lease until it lapses.
 */
module SagaWitnesses {
  import opened Text
  import opened SagaJournal
  import opened Attempts
  import opened AttemptInvariants
  import opened Protocol
  import opened ProtocolEvents
  import SagaCancel
  import SagaDeeds
  import SagaTheorems
  import Brain

  // ---- where such a run stands -------------------------------------------------------------------

  /** The attempt after `past` holds the lease, its snapshot up to date. */
  datatype Stage = Stage(
    past: seq<Attempt>, pg: Program, saga: Saga, pc: Pc, run: Brain.RunState, log: seq<Deed>)

  /** One second more than a lease lasts. */
  const LAPSE: nat := Brain.LEASE_TTL + 1

  function Held(epoch: nat): Brain.Lease {
    Brain.Lease("worker", "lease", epoch)
  }

  /** The server while lease `epoch`, granted one lapse after the other, is held. */
  function Leased(saga: Saga, epoch: nat, run: Brain.RunState): Brain.Server
    requires epoch > 0
  {
    var granted := (epoch - 1) * LAPSE;
    Brain.Server(saga, Brain.Item(Brain.WLeased, Held(epoch), Some(granted + Brain.LEASE_TTL)), run, None, granted,
                 Brain.Open)
  }

  function Holder(st: Stage): Attempt {
    Attempt(Held(|st.past| + 1), st.pg, st.saga, st.pc, true)
  }

  function Sit(st: Stage): Sys {
    Sys(Leased(st.saga, |st.past| + 1, st.run), st.past + [Holder(st)], st.log)
  }

  function Now(es: seq<Event>): Sys {
    SagaTheorems.Reached(None, 0, es)
  }

  predicate Here(es: seq<Event>, st: Stage) {
    Now(es) == Sit(st)
  }

  function Granted(pg: Program): Event {
    Grant("worker", "lease", pg)
  }

  // ---- the events it is made of --------------------------------------------------------------------

  /** One more event. */
  lemma Then(es: seq<Event>, e: Event)
    ensures Now(es + [e]) == Next(Now(es), e)
  {
    assert (es + [e])[..|es|] == es;
  }

  lemma Thinks(es: seq<Event>, st: Stage, contextDone: bool) returns (es': seq<Event>)
    requires Here(es, st)
    ensures Here(es', st.(pc := Think(Holder(st), contextDone).pc))
  {
    es' := es + [Turn(|st.past|, contextDone)];
    Then(es, Turn(|st.past|, contextDone));
  }

  /** What the protocol's invariant says about the lease holder. */
  lemma HolderKnown(es: seq<Event>, st: Stage)
    requires Here(es, st)
    ensures Known(Now(es), |st.past|) && AttemptInv(Holder(st)) && ExecSaga(st.saga)
    ensures Outgoing(st.pc).Wire? ==> st.saga.state != SUnknown
  {
    SagaTheorems.ReachedInv(None, 0, es);
    Know(Now(es), |st.past|);
  }

  /** Where a stage goes with the answer to a receipt of the lease holder. */
  function Answered(st: Stage): Stage
    requires Outgoing(st.pc).Wire? && 0 <= Outgoing(st.pc).i < |st.saga.rows| == |st.pg.steps|
  {
    match AnswerTo(Holder(st), st.saga)
    case Ok(next) => st.(saga := next, pc := AfterReply(Holder(st), next).pc)
    case Refused(_) => st.(pc := Done(JournalError))
  }

  lemma Answers(es: seq<Event>, st: Stage) returns (es': seq<Event>)
    requires Here(es, st) && Outgoing(st.pc).Wire?
    ensures 0 <= Outgoing(st.pc).i < |st.saga.rows| == |st.pg.steps|
    ensures Here(es', Answered(st)) && Now(es') == Next(Now(es), Call(|st.past|))
  {
    HolderKnown(es, st);
    HolderCall(Holder(st), st.saga);
    Then(es, Call(|st.past|));
    Exchanged(st);
    es' := es + [Call(|st.past|)];
  }

  lemma Exchanged(st: Stage)
    requires Outgoing(st.pc).Wire? && 0 <= Outgoing(st.pc).i < |st.saga.rows| == |st.pg.steps|
    requires NextCall(Holder(st)).Some? && NextCall(Holder(st)).value.RecordReq?
    requires Record(st.saga, NextCall(Holder(st)).value.receipt) == AnswerTo(Holder(st), st.saga)
    ensures Next(Sit(st), Call(|st.past|)) == Sit(Answered(st))
  {
  }

  lemma Acts(es: seq<Event>, st: Stage, error: Option<string>) returns (es': seq<Event>)
    requires Here(es, st) && Due(st.pc).Some?
    ensures Here(es', st.(pc := AfterAction(Holder(st), ActionError(Holder(st), error)).pc,
                          log := st.log + [Deed(|st.past| + 1, Due(st.pc).value)]))
  {
    es' := es + [Perform(|st.past|, error)];
    Then(es, Perform(|st.past|, error));
  }

  /** The lease runs out and the item is granted again, to a worker running `pg`. */
  lemma Lapses(es: seq<Event>, saga: Saga, run: Brain.RunState, pg: Program) returns (es': seq<Event>)
    requires Now(es).attempts != [] && Now(es).sv == Leased(saga, |Now(es).attempts|, run)
    requires run == Brain.RRunning || run == Brain.RCancelling
    ensures Here(es', Stage(Now(es).attempts, pg, saga, Init, run, Now(es).log))
  {
    Then(es, Tick(LAPSE));
    Then(es + [Tick(LAPSE)], Granted(pg));
    es' := es + [Tick(LAPSE)] + [Granted(pg)];
  }

  /** A later attempt finds its plan in the snapshot that came with the lease. */
  lemma Rebinds(es: seq<Event>, st: Stage) returns (es': seq<Event>)
    requires Here(es, st) && st.pc.Init? && st.saga.plan.Some? && PlanFor(st.pg.steps) == st.saga.plan
    ensures Here(es', st.(pc := AfterBind(st.pg, st.saga)))
  {
    es' := es + [Call(|st.past|)];
    Then(es, Call(|st.past|));
  }

  /** The lease lapses, and the next attempt binds the plan it finds. */
  lemma Returns(es: seq<Event>, saga: Saga, run: Brain.RunState, pg: Program) returns (es': seq<Event>)
    requires Now(es).attempts != [] && Now(es).sv == Leased(saga, |Now(es).attempts|, run)
    requires run == Brain.RRunning || run == Brain.RCancelling
    requires saga.plan.Some? && PlanFor(pg.steps) == saga.plan
    ensures Here(es', Stage(Now(es).attempts, pg, saga, AfterBind(pg, saga), run, Now(es).log))
  {
    es' := Lapses(es, saga, run, pg);
    es' := Rebinds(es', Stage(Now(es).attempts, pg, saga, Init, run, Now(es).log));
  }

  /** The stage of the next attempt, if nothing else happens. */
  function Handed(st: Stage, pg: Program): Stage {
    Stage(st.past + [Holder(st)], pg, st.saga, AfterBind(pg, st.saga), st.run, st.log)
  }

  lemma HandsOver(es: seq<Event>, st: Stage, pg: Program) returns (es': seq<Event>)
    requires Here(es, st) && (st.run == Brain.RRunning || st.run == Brain.RCancelling)
    requires st.saga.plan.Some? && PlanFor(pg.steps) == st.saga.plan
    ensures Here(es', Handed(st, pg))
  {
    es' := Returns(es, st.saga, st.run, pg);
  }

  /** The first attempt binds its plan. */
  lemma Binds(pg: Program) returns (es: seq<Event>)
    requires PlanFor(pg.steps).Some? && ValidPlan(PlanFor(pg.steps).value)
    ensures Here(es, Stage([], pg, Unstarted(pg), Head(0), Brain.RRunning, []))
  {
    assert Now([]) == Start(None, 0);
    assert [] + [Granted(pg)] == [Granted(pg)];
    Then([], Granted(pg));
    Then([Granted(pg)], Call(0));
    es := [Granted(pg)] + [Call(0)];
  }

  function Unstarted(pg: Program): Saga
    requires PlanFor(pg.steps).Some?
  {
    Saga(PlanFor(pg.steps), SRunning, false, FreshRows(PlanFor(pg.steps).value))
  }

  // ---- whole steps ---------------------------------------------------------------------------------

  /** The journal with row i rewritten and the state column refreshed. */
  function Written(saga: Saga, i: nat, row: StepRow): Saga
    requires i < |saga.rows|
  {
    var rows := saga.rows[i := row];
    saga.(rows := rows, state := StateOf(rows, saga.cancelRequested))
  }

  lemma WrittenTwice(saga: Saga, i: nat, row: StepRow, next: StepRow)
    requires i < |saga.rows|
    ensures Written(Written(saga, i, row), i, next) == Written(saga, i, next)
  {
    assert saga.rows[i := row][i := next] == saga.rows[i := next];
  }

  /** An untouched step is about to be started. */
  predicate Startable(st: Stage, i: nat) {
    && st.pc == Head(i) && i < |st.pg.steps| == |st.saga.rows| && !st.saga.cancelRequested
    && st.saga.rows[i].action == Pending && st.saga.rows[i].guard.None?
    && GuardPasses(GuardAt(st.pg, i)) && !st.pg.steps[i].fail
  }

  function Intended(st: Stage, i: nat): StepRow
    requires i < |st.saga.rows| && i < |st.pg.steps|
  {
    st.saga.rows[i].(action := Intent, guard := Some(GuardAt(st.pg, i)))
  }

  function Started(st: Stage, i: nat): StepRow
    requires i < |st.saga.rows| && i < |st.pg.steps|
  {
    st.saga.rows[i].(action := Effect, guard := Some(GuardAt(st.pg, i)), effectStarted := true)
  }

  lemma StartTurn(es: seq<Event>, st: Stage, i: nat) returns (es': seq<Event>)
    requires Here(es, st) && Startable(st, i)
    ensures Here(es', st.(pc := SendIntent(i)))
  {
    HolderKnown(es, st);
    es' := Thinks(es, st, false);
  }

  lemma Intends(es: seq<Event>, st: Stage, i: nat) returns (es': seq<Event>)
    requires Here(es, st) && Startable(st, i)
    ensures Here(es', st.(saga := Written(st.saga, i, Intended(st, i)), pc := SendEffect(i)))
  {
    assert Size("") == 0;
    es' := StartTurn(es, st, i);
    es' := Answers(es', st.(pc := SendIntent(i)));
  }

  /** Up to the action of step i. */
  lemma Begins(es: seq<Event>, st: Stage, i: nat) returns (es': seq<Event>)
    requires Here(es, st) && Startable(st, i)
    ensures Here(es', st.(saga := Written(st.saga, i, Started(st, i)), pc := Run(i)))
  {
    assert Size("") == 0;
    es' := Intends(es, st, i);
    es' := Answers(es', st.(saga := Written(st.saga, i, Intended(st, i)), pc := SendEffect(i)));
    WrittenTwice(st.saga, i, Intended(st, i), Started(st, i));
  }

  lemma Succeeds(es: seq<Event>, st: Stage, i: nat) returns (es': seq<Event>)
    requires Here(es, st) && st.pc == SendSucceeded(i) && i < |st.pg.steps| == |st.saga.rows| && !st.saga.cancelRequested
    requires st.saga.rows[i].guard.Some?
    ensures Here(es', st.(saga := Written(st.saga, i, st.saga.rows[i].(action := Succeeded)), pc := Head(i + 1)))
  {
    assert Size("") == 0;
    es' := Answers(es, st);
  }

  /** The stage after the action of step i. */
  function AfterRun(st: Stage, i: nat, error: Option<string>): Stage {
    st.(pc := if error.Some? then SendFailed(i, error.value, i) else SendSucceeded(i),
        log := st.log + [Deed(|st.past| + 1, Act(Action, i))])
  }

  lemma Runs(es: seq<Event>, st: Stage, i: nat, error: Option<string>) returns (es': seq<Event>)
    requires Here(es, st) && st.pc == Run(i) && i < |st.pg.steps| && !st.pg.steps[i].fail
    ensures Here(es', AfterRun(st, i, error))
  {
    es' := Acts(es, st, error);
  }

  /** The action of step i and its success receipt. */
  lemma Finishes(es: seq<Event>, st: Stage, i: nat) returns (es': seq<Event>)
    requires Here(es, st) && st.pc == Run(i) && i < |st.pg.steps| == |st.saga.rows| && st.saga.rows[i].guard.Some?
    requires !st.pg.steps[i].fail && !st.saga.cancelRequested
    ensures Here(es', st.(saga := Written(st.saga, i, st.saga.rows[i].(action := Succeeded)), pc := Head(i + 1),
                          log := st.log + [Deed(|st.past| + 1, Act(Action, i))]))
  {
    es' := Runs(es, st, i, None);
    es' := Succeeds(es', AfterRun(st, i, None), i);
  }

  /** The stage after the whole of step i. */
  function AfterStep(st: Stage, i: nat): Stage
    requires i < |st.saga.rows| && i < |st.pg.steps|
  {
    st.(saga := Written(st.saga, i, Started(st, i).(action := Succeeded)), pc := Head(i + 1),
        log := st.log + [Deed(|st.past| + 1, Act(Action, i))])
  }

  lemma Does(es: seq<Event>, st: Stage, i: nat) returns (es': seq<Event>)
    requires Here(es, st) && Startable(st, i)
    ensures Here(es', AfterStep(st, i))
  {
    es' := Begins(es, st, i);
    es' := Finishes(es', st.(saga := Written(st.saga, i, Started(st, i)), pc := Run(i)), i);
    WrittenTwice(st.saga, i, Started(st, i), Started(st, i).(action := Succeeded));
  }

  /** A settled action whose compensator is still to be entered. */
  predicate Undoable(st: Stage, j: nat) {
    && st.pc.CompHead? && st.pc.j == j && j < |st.saga.rows|
    && st.saga.rows[j].action in {Succeeded, Failed} && Eligible(st.saga.rows[j]) && st.saga.rows[j].comp == CPending
  }

  lemma UndoTurn(es: seq<Event>, st: Stage, j: nat) returns (es': seq<Event>)
    requires Here(es, st) && Undoable(st, j)
    ensures Here(es', st.(pc := SendCompIntent(j, st.pc.last, st.pc.why)))
  {
    HolderKnown(es, st);
    assert st.saga.rows[j].plan == StepPlanFor(st.pg.steps[j], j);
    es' := Thinks(es, st, false);
  }

  /** A receipt of the compensation pass, without error text and for a known action. */
  lemma Sends(es: seq<Event>, st: Stage, j: nat) returns (es': seq<Event>)
    requires Here(es, st) && j < |st.saga.rows| && st.saga.rows[j].action in {Succeeded, Failed}
    requires (st.pc.SendCompIntent? || st.pc.SendCompEffect? || st.pc.SendCompDone?) && st.pc.j == j
    ensures var row := st.saga.rows[j].(comp := match st.pc
                                                case SendCompIntent(_, _, _) => CIntent
                                                case SendCompEffect(_, _, _) => CEffect
                                                case _ => CDone);
            Here(es', st.(saga := Written(st.saga, j, row), pc := AfterReply(Holder(st), Written(st.saga, j, row)).pc))
  {
    assert Size("") == 0;
    es' := Answers(es, st);
  }

  lemma OpensUndo(es: seq<Event>, st: Stage, j: nat) returns (es': seq<Event>)
    requires Here(es, st) && Undoable(st, j)
    ensures Here(es', st.(saga := Written(st.saga, j, st.saga.rows[j].(comp := CEffect)), pc := Undo(j, st.pc.last, st.pc.why)))
  {
    var row := st.saga.rows[j];
    es' := UndoTurn(es, st, j);
    es' := Sends(es', st.(pc := SendCompIntent(j, st.pc.last, st.pc.why)), j);
    es' := Sends(es', st.(saga := Written(st.saga, j, row.(comp := CIntent)), pc := SendCompEffect(j, st.pc.last, st.pc.why)), j);
    WrittenTwice(st.saga, j, row.(comp := CIntent), row.(comp := CEffect));
  }

  lemma ClosesUndo(es: seq<Event>, st: Stage, j: nat) returns (es': seq<Event>)
    requires Here(es, st) && st.pc.Undo? && st.pc.j == j && j < |st.saga.rows| && st.saga.rows[j].action in {Succeeded, Failed}
    ensures Here(es', st.(saga := Written(st.saga, j, st.saga.rows[j].(comp := CDone)),
                          pc := CompHead(j - 1, st.pc.last, st.pc.why),
                          log := st.log + [Deed(|st.past| + 1, Act(Compensation, j))]))
  {
    es' := Acts(es, st, None);
    es' := Sends(es', st.(pc := SendCompDone(j, st.pc.last, st.pc.why),
                          log := st.log + [Deed(|st.past| + 1, Act(Compensation, j))]), j);
  }

  /** The stage after the whole compensation of step j. */
  function AfterUndo(st: Stage, j: nat): Stage
    requires st.pc.CompHead? && j < |st.saga.rows|
  {
    st.(saga := Written(st.saga, j, st.saga.rows[j].(comp := CDone)), pc := CompHead(j - 1, st.pc.last, st.pc.why),
        log := st.log + [Deed(|st.past| + 1, Act(Compensation, j))])
  }

  lemma Undoes(es: seq<Event>, st: Stage, j: nat) returns (es': seq<Event>)
    requires Here(es, st) && Undoable(st, j)
    ensures Here(es', AfterUndo(st, j))
  {
    var row := st.saga.rows[j];
    es' := OpensUndo(es, st, j);
    es' := ClosesUndo(es', st.(saga := Written(st.saga, j, row.(comp := CEffect)), pc := Undo(j, st.pc.last, st.pc.why)), j);
    WrittenTwice(st.saga, j, row.(comp := CEffect), row.(comp := CDone));
  }

  // ---- programs of one step ------------------------------------------------------------------------

  const LIMIT := ResourceLimit(0, 0, 0)

  /** One step, an acceptable plan, and a guard that passes. */
  predicate Simple(pg: Program) {
    && |pg.steps| == 1 && !pg.steps[0].fail && GuardPasses(GuardAt(pg, 0))
    && PlanFor(pg.steps) == Some([ThePlan(pg)]) && ValidPlan([ThePlan(pg)])
  }

  function ThePlan(pg: Program): StepPlan
    requires |pg.steps| == 1
  {
    StepPlanFor(pg.steps[0], 0)
  }

  predicate Replayable(pg: Program)
    requires |pg.steps| == 1
  {
    ThePlan(pg).actionReplay != NeverReplay
  }

  /** There are such programs, of every kind. */
  lemma SimpleExists(replay: string, undo: bool, sandbox: bool) returns (pg: Program)
    ensures Simple(pg) && pg.steps[0].hasCompensate == undo && pg.sandbox == sandbox
    ensures pg.steps[0].replay == replay && (Replayable(pg) <==> replay in {"safe", "idempotent"})
  {
    var name := "scan";
    assert !IsSpace(name[0]);
    SizeBounds(name);
    pg := Program([StepDef(name, replay, "never", undo, false, false, 0)], sandbox, LIMIT);
    assert PlanFor(pg.steps).Some? && PlanFor(pg.steps).value == [ThePlan(pg)];
  }

  /** The only row, as far as the action and the compensator got. */
  function OneRow(pg: Program, action: ActionPhase, comp: CompPhase): StepRow
    requires |pg.steps| == 1
  {
    StepRow(ThePlan(pg), action, comp, if action == Pending then None else Some(GuardAt(pg, 0)),
            action != Pending && action != Intent)
  }

  function One(pg: Program, action: ActionPhase, comp: CompPhase): Saga
    requires |pg.steps| == 1
  {
    var rows := [OneRow(pg, action, comp)];
    Saga(Some([ThePlan(pg)]), StateOf(rows, false), false, rows)
  }

  lemma OneState(row: StepRow)
    ensures StateOf([row], false) ==
            if row.action == Failed then if Eligible(row) && row.comp != CDone then SCompensating else SCompensated
            else if row.action == Succeeded then SReady else SRunning
  {
    assert [row][0] == row;
  }

  lemma OneWritten(pg: Program, a: ActionPhase, c: CompPhase, a': ActionPhase, c': CompPhase)
    requires |pg.steps| == 1
    ensures Written(One(pg, a, c), 0, OneRow(pg, a', c')) == One(pg, a', c')
  {
    assert [OneRow(pg, a, c)][0 := OneRow(pg, a', c')] == [OneRow(pg, a', c')];
  }

  lemma OneUnstarted(pg: Program)
    requires Simple(pg)
    ensures Unstarted(pg) == One(pg, Pending, CPending)
  {
    OneState(OneRow(pg, Pending, CPending));
    assert FreshRows([ThePlan(pg)]) == [OneRow(pg, Pending, CPending)];
  }

  /** The first attempt stands before its action. */
  lemma StandsBefore(pg: Program) returns (es: seq<Event>, st: Stage)
    requires Simple(pg)
    ensures Here(es, st) && st == Stage([], pg, One(pg, Effect, CPending), Run(0), Brain.RRunning, [])
    ensures st.saga.state == SRunning
  {
    es := Binds(pg);
    OneUnstarted(pg);
    st := Stage([], pg, One(pg, Pending, CPending), Head(0), Brain.RRunning, []);
    es := Begins(es, st, 0);
    OneWritten(pg, Pending, CPending, Effect, CPending);
    OneState(OneRow(pg, Effect, CPending));
    st := st.(saga := One(pg, Effect, CPending), pc := Run(0));
  }

  // ---- an unknown outcome, cancelled -----------------------------------------------------------------

  lemma LostFits()
    ensures Size(LOST_ACTION) <= MAX_TEXT
  {
    SizeBounds(LOST_ACTION);
  }

  function Lost(pg: Program): Saga
    requires |pg.steps| == 1
  {
    One(pg, Unknown, CPending).(state := SUnknown)
  }

  lemma {:induction false} LossIsRecorded(es: seq<Event>, st: Stage, reason: string) returns (es': seq<Event>)
    requires Here(es, st) && |st.pg.steps| == 1 && st.saga == One(st.pg, Effect, CPending) && st.pc == SendUnknown(0, reason)
    requires Size(reason) <= MAX_TEXT
    ensures Here(es', st.(saga := Lost(st.pg), pc := Done(ErrUnknown)))
  {
    es' := Answers(es, st);
    assert [OneRow(st.pg, Effect, CPending)][0 := OneRow(st.pg, Unknown, CPending)] == [OneRow(st.pg, Unknown, CPending)];
  }

  lemma GoesForward(pg: Program)
    requires Simple(pg)
    ensures AfterBind(pg, One(pg, Effect, CPending)) == Head(0)
  {
    OneState(OneRow(pg, Effect, CPending));
  }

  lemma ActsAndStops(pg: Program) returns (es: seq<Event>, st: Stage)
    requires Simple(pg)
    ensures Here(es, st) && st.past == [] && st.pg == pg && st.saga == One(pg, Effect, CPending)
    ensures st.run == Brain.RRunning && st.log == [] + [Deed(1, Act(Action, 0))]
  {
    es, st := StandsBefore(pg);
    es := Runs(es, st, 0, None);
    st := AfterRun(st, 0, None);
  }

  /** The first attempt acts and is lost; the second takes over. */
  lemma TakesOver(pg: Program) returns (es: seq<Event>, st: Stage)
    requires Simple(pg)
    ensures Here(es, st) && |st.past| == 1 && st.pg == pg && st.saga == One(pg, Effect, CPending) && st.pc == Head(0)
    ensures st.run == Brain.RRunning && st.log == [] + [Deed(1, Act(Action, 0))]
  {
    es, st := ActsAndStops(pg);
    es := HandsOver(es, st, pg);
    st := Handed(st, pg);
    GoesForward(pg);
  }

  lemma LossPc(pg: Program)
    requires |pg.steps| == 1 && !Replayable(pg)
    ensures Forward(pg, One(pg, Effect, CPending), 0, false) == SendUnknown(0, LOST_ACTION)
  {
  }

  lemma LossTurn(pg: Program) returns (reason: string)
    requires |pg.steps| == 1 && !Replayable(pg)
    ensures Forward(pg, One(pg, Effect, CPending), 0, false) == SendUnknown(0, reason) && Size(reason) <= MAX_TEXT
  {
    LossPc(pg);
    LostFits();
    reason := LOST_ACTION;
  }

  /** A lost action that is not to be replayed is put on record as unknown. */
  lemma GivesUp(pg: Program) returns (es: seq<Event>, st: Stage)
    requires Simple(pg) && !Replayable(pg)
    ensures Here(es, st) && |st.past| == 1 && st.pg == pg && st.saga == Lost(pg) && st.pc == Done(ErrUnknown)
    ensures st.run == Brain.RRunning && st.log == [] + [Deed(1, Act(Action, 0))]
  {
    es, st := TakesOver(pg);
    es := Thinks(es, st, false);
    var reason := LossTurn(pg);
    st := st.(pc := SendUnknown(0, reason));
    es := LossIsRecorded(es, st, reason);
    st := st.(saga := Lost(pg), pc := Done(ErrUnknown));
  }

  function Cancelled(saga: Saga): Saga {
    saga.(cancelRequested := true, state := SCancelling)
  }

  /** A user cancels the run while effects are on record, and the next attempt sees it. */
  lemma Cancels(es: seq<Event>, st: Stage) returns (es': seq<Event>, st': Stage)
    requires Here(es, st) && Brain.HasSagaEffects(st.saga.rows) && st.run == Brain.RRunning
    requires st.saga.plan.Some? && PlanFor(st.pg.steps) == st.saga.plan
    ensures Here(es', st') && |st'.past| == |st.past| + 1 && st'.pg == st.pg && st'.saga == Cancelled(st.saga)
    ensures st'.pc == CompHead(|st.pg.steps| - 1, |st.pg.steps| - 1, CancelSeen)
    ensures st'.run == Brain.RCancelling && st'.log == st.log
  {
    var es1 := es + [CancelRun(false)];
    Then(es, CancelRun(false));
    es' := Returns(es1, Cancelled(st.saga), Brain.RCancelling, st.pg);
    st' := Stage(Now(es1).attempts, st.pg, Cancelled(st.saga), AfterBind(st.pg, Cancelled(st.saga)), Brain.RCancelling, st.log);
  }

  lemma UnknownTurn(pg: Program)
    requires |pg.steps| == 1 && pg.steps[0].hasCompensate
    ensures Backward(pg, Cancelled(Lost(pg)), 0, 0, CancelSeen) == SendCompIntent(0, 0, CancelSeen)
  {
  }

  lemma SilentTurn(pg: Program)
    requires |pg.steps| == 1 && !pg.steps[0].hasCompensate
    ensures Backward(pg, Cancelled(One(pg, Effect, CPending)), 0, 0, CancelSeen) == CompHead(-1, 0, CancelSeen)
  {
  }

  lemma LossIsCancelled(pg: Program) returns (es: seq<Event>, st: Stage)
    requires Simple(pg) && !Replayable(pg)
    ensures Here(es, st) && |st.past| == 2 && st.pg == pg && st.saga == Cancelled(Lost(pg))
    ensures st.pc == CompHead(0, 0, CancelSeen) && st.log == [] + [Deed(1, Act(Action, 0))]
  {
    es, st := GivesUp(pg);
    assert st.saga.rows[0].effectStarted;
    es, st := Cancels(es, st);
  }

  lemma SetsOut(pg: Program) returns (es: seq<Event>, st: Stage)
    requires Simple(pg) && !Replayable(pg) && pg.steps[0].hasCompensate
    ensures Here(es, st) && |st.past| == 2 && st.pg == pg && st.saga == Cancelled(Lost(pg))
    ensures st.pc == SendCompIntent(0, 0, CancelSeen) && st.log == [] + [Deed(1, Act(Action, 0))]
  {
    es, st := LossIsCancelled(pg);
    es := Thinks(es, st, false);
    UnknownTurn(pg);
    st := st.(pc := SendCompIntent(0, 0, CancelSeen));
  }

  /**
   * A compensator the lease holder asks for and the journal refuses: the action ran, its outcome was
   * recorded unknown, a user cancelled the run, and the next attempt set out to compensate. The attempt
   * ends in a journal error and leaves the saga cancelling, the action done and not undone.
   */
  lemma UndoOfUnknownIsRefused(pg: Program) returns (es: seq<Event>)
    requires Simple(pg) && !Replayable(pg) && pg.steps[0].hasCompensate
    ensures var s := Now(es);
            && |s.attempts| == 3 && UndoesUnknown(s.attempts[2]) && Brain.Live(s.sv, s.attempts[2].lease)
    ensures var s, t := Now(es), Next(Now(es), Call(2));
            && |t.attempts| == 3 && t.attempts[2].pc == Done(JournalError)
            && t.sv == s.sv && t.sv.saga.state == SCancelling && t.log == [Deed(1, Act(Action, 0))]
  {
    var st;
    es, st := SetsOut(pg);
    assert Size("") == 0;
    var refused := Answers(es, st);
  }

  // ---- an error too long to record -------------------------------------------------------------------

  lemma Overlong(es: seq<Event>, st: Stage) returns (es': seq<Event>)
    requires Here(es, st) && Outgoing(st.pc).Wire? && Size(Outgoing(st.pc).error) > MAX_TEXT
    ensures Here(es', st.(pc := Done(JournalError)))
  {
    es' := Answers(es, st);
  }

  /**
   * An action whose error is longer than 2048 bytes cannot be recorded as failed: the attempt ends in a
   * journal error, the saga stays running with the effect on record, and nothing is compensated.
   */
  lemma {:induction false} LongErrorStalls(pg: Program, error: string) returns (es: seq<Event>)
    requires Simple(pg) && Size(error) > MAX_TEXT
    ensures var t := Now(es);
            && |t.attempts| == 1 && t.attempts[0].pc == Done(JournalError)
            && t.sv.saga == One(pg, Effect, CPending) && t.sv.saga.state == SRunning
            && t.log == [Deed(1, Act(Action, 0))]
  {
    var st;
    es, st := StandsBefore(pg);
    es := Runs(es, st, 0, Some(error));
    es := Overlong(es, AfterRun(st, 0, Some(error)));
  }

  // ---- a guard that changed ----------------------------------------------------------------------------

  /**
   * The next attempt runs the same plan under another guard: it finds the guard on record changed and stops there, the
   * saga still running.
   */
  lemma ChangedGuardStalls(pg: Program, other: Program) returns (es: seq<Event>)
    requires Simple(pg) && Replayable(pg) && other.steps == pg.steps && GuardAt(other, 0) != GuardAt(pg, 0)
    ensures var t := Now(es);
            && |t.attempts| == 2 && t.attempts[1].pc == Done(GuardClash)
            && t.sv.saga == One(pg, Effect, CPending) && t.sv.saga.state == SRunning && t.log == []
  {
    var st;
    es, st := StandsBefore(pg);
    es := HandsOver(es, st, other);
    es := Thinks(es, Handed(st, other), false);
  }

  // ---- an action executed after its compensator ------------------------------------------------------

  /** The first executor of the step stalls before its action. */
  predicate Stalls(at: Attempt) {
    at.alive && at.pc == Run(0) && at.lease.epoch == 1 && |at.program.steps| == 1
  }

  lemma ReplayTurn(pg: Program)
    requires Simple(pg) && Replayable(pg)
    ensures Forward(pg, One(pg, Effect, CPending), 0, false) == Run(0)
  {
  }

  /** A second attempt is about to replay the step. */
  lemma Replays(pg: Program) returns (es: seq<Event>, st: Stage)
    requires Simple(pg) && Replayable(pg)
    ensures Here(es, st) && |st.past| == 1 && Stalls(st.past[0]) && st.pg == pg && st.pc == Run(0)
    ensures st.saga == One(pg, Effect, CPending) && st.run == Brain.RRunning && st.log == []
  {
    es, st := StandsBefore(pg);
    es := HandsOver(es, st, pg);
    st := Handed(st, pg);
    GoesForward(pg);
    es := Thinks(es, st, false);
    ReplayTurn(pg);
    st := st.(pc := Run(0));
  }

  /** It fails. */
  lemma ReplayFails(pg: Program) returns (es: seq<Event>, st: Stage)
    requires Simple(pg) && Replayable(pg)
    ensures Here(es, st) && |st.past| == 1 && Stalls(st.past[0])
    ensures st.pg == pg && st.saga == One(pg, Effect, CPending) && st.pc == SendFailed(0, "", 0)
    ensures st.run == Brain.RRunning && st.log == [] + [Deed(2, Act(Action, 0))]
  {
    es, st := Replays(pg);
    es := Runs(es, st, 0, Some(""));
    st := AfterRun(st, 0, Some(""));
  }

  /** It records the failure. */
  lemma FailureIsRecorded(es: seq<Event>, st: Stage) returns (es': seq<Event>)
    requires Here(es, st) && |st.pg.steps| == 1 && st.saga == One(st.pg, Effect, CPending) && st.pc == SendFailed(0, "", 0)
    ensures Here(es', st.(saga := One(st.pg, Failed, CPending), pc := CompHead(0, 0, StepFailed)))
  {
    assert Size("") == 0;
    es' := Answers(es, st);
    OneWritten(st.pg, Effect, CPending, Failed, CPending);
  }

  /** It compensates the step. */
  lemma ReplayIsUndone(pg: Program) returns (es: seq<Event>, st: Stage)
    requires Simple(pg) && Replayable(pg) && pg.steps[0].hasCompensate
    ensures Here(es, st) && |st.past| == 1 && Stalls(st.past[0])
    ensures st.pg == pg && st.saga == One(pg, Failed, CDone) && st.run == Brain.RRunning
    ensures st.log == [] + [Deed(2, Act(Action, 0))] + [Deed(2, Act(Compensation, 0))]
  {
    es, st := ReplayFails(pg);
    es := FailureIsRecorded(es, st);
    st := st.(saga := One(pg, Failed, CPending), pc := CompHead(0, 0, StepFailed));
    es := Undoes(es, st, 0);
    st := AfterUndo(st, 0);
    OneWritten(pg, Failed, CPending, Failed, CDone);
  }

  /** The failed work is closed. */
  lemma Closes(es: seq<Event>, st: Stage) returns (es': seq<Event>)
    requires Here(es, st) && st.saga.state == SCompensated && !st.saga.cancelRequested
    ensures var s := Now(es');
            && s.sv.item.status == Brain.WFailed && s.sv.closing == Brain.ByFail && s.sv.saga == st.saga
            && s.attempts == st.past + [Holder(st)] && s.log == st.log
  {
    Then(es, FailWork(|st.past|));
    es' := es + [FailWork(|st.past|)];
  }

  /** The first executor acts after all. */
  lemma ActsLate(es: seq<Event>) returns (es': seq<Event>)
    requires Now(es).attempts != [] && Stalls(Now(es).attempts[0])
    ensures Now(es').log == Now(es).log + [Deed(1, Act(Action, 0))] && Now(es').sv == Now(es).sv
  {
    Then(es, Perform(0, None));
    es' := es + [Perform(0, None)];
  }

  lemma RedoneLast(log: seq<Deed>)
    requires log == [] + [Deed(2, Act(Action, 0))] + [Deed(2, Act(Compensation, 0))] + [Deed(1, Act(Action, 0))]
    ensures SagaDeeds.Redone(log, 0)
  {
    assert log[1].act == Act(Compensation, 0) && log[2].act == Act(Action, 0);
  }

  /**
   * A replayable step can be executed after its compensator, in an item that failed and settled: its first executor
   * stalls between the effect receipt and the action until the next has replayed, undone and closed it.
   */
  lemma RedoneAfterUndo(pg: Program) returns (es: seq<Event>)
    requires Simple(pg) && Replayable(pg) && pg.steps[0].hasCompensate
    ensures var s := Now(es);
            && s.sv.saga == One(pg, Failed, CDone)
            && s.sv.item.status == Brain.WFailed && s.sv.closing == Brain.ByFail && !AnyUnknown(s.sv.saga.rows)
            && SagaDeeds.Redone(s.log, 0)
  {
    var st;
    es, st := ReplayIsUndone(pg);
    OneState(OneRow(pg, Failed, CDone));
    es := Closes(es, st);
    es := ActsLate(es);
    RedoneLast(Now(es).log);
  }

  /** Of the one-step plans with a compensator, exactly the replayable ones can be executed after their compensator. */
  lemma RedoneExactly(pg: Program)
    requires Simple(pg) && pg.steps[0].hasCompensate
    ensures (exists es :: Now(es).sv.saga.plan == Some([ThePlan(pg)]) && SagaDeeds.Redone(Now(es).log, 0)) <==> Replayable(pg)
  {
    if Replayable(pg) {
      var es := RedoneAfterUndo(pg);
      assert Now(es).sv.saga.plan == Some([ThePlan(pg)]) && SagaDeeds.Redone(Now(es).log, 0);
    } else {
      forall es | Now(es).sv.saga.plan == Some([ThePlan(pg)])
        ensures !SagaDeeds.Redone(Now(es).log, 0)
      {
        NeverRedone(pg, es);
      }
    }
  }

  lemma NeverRedone(pg: Program, es: seq<Event>)
    requires |pg.steps| == 1 && !Replayable(pg) && Now(es).sv.saga.plan == Some([ThePlan(pg)])
    ensures !SagaDeeds.Redone(Now(es).log, 0)
  {
    SagaTheorems.ReachedInv(None, 0, es);
    SagaDeeds.UndoneForGood(None, 0, es);
    assert Now(es).sv.saga.rows[0].plan == Now(es).sv.saga.plan.value[0];
  }

  // ---- a cancel with nothing left to undo ------------------------------------------------------------

  lemma PassesInSilence(pg: Program) returns (es: seq<Event>)
    requires Simple(pg) && !pg.steps[0].hasCompensate
    ensures var s := Now(es);
            && |s.attempts| == 2 && s.attempts[1].pc == Done(Cause(CancelSeen, 0))
            && s.sv.saga == Cancelled(One(pg, Effect, CPending)) && s.sv.closing == Brain.Open
  {
    var st;
    es, st := StandsBefore(pg);
    assert st.saga.rows[0].effectStarted;
    es, st := Cancels(es, st);
    es := Thinks(es, st, false);
    SilentTurn(pg);
    es := Thinks(es, st.(pc := CompHead(-1, 0, CancelSeen)), false);
  }

  lemma SilenceIsOverlooked(pg: Program)
    requires Simple(pg) && !pg.steps[0].hasCompensate
    ensures var saga := Cancelled(One(pg, Effect, CPending));
            SagaCancel.Overlooked(saga) && Brain.HasSagaEffects(saga.rows)
  {
    assert Cancelled(One(pg, Effect, CPending)).rows[0].effectStarted;
  }

  /**
   * A started step without a compensator, and a cancel: the next attempt has nothing to undo, sends no receipt and leaves
   * the saga cancelling. From there nothing but the deadline closes the item.
   */
  lemma CancelStrands(pg: Program) returns (es: seq<Event>)
    requires Simple(pg) && !pg.steps[0].hasCompensate
    ensures var s := Now(es);
            && |s.attempts| == 2 && s.attempts[1].pc == Done(Cause(CancelSeen, 0))
            && SagaCancel.Overlooked(s.sv.saga) && s.sv.saga.state == SCancelling
    ensures forall more ::
              var t := Now(es + more);
              t.sv.closing == Brain.ByDeadline || (t.sv.closing == Brain.Open && SagaCancel.Overlooked(t.sv.saga))
  {
    es := PassesInSilence(pg);
    SilenceIsOverlooked(pg);
    forall more
      ensures var t := Now(es + more);
              t.sv.closing == Brain.ByDeadline || (t.sv.closing == Brain.Open && SagaCancel.Overlooked(t.sv.saga))
    {
      SagaCancel.StrandedForGood(None, 0, es, more);
    }
  }

  // ---- a context that ends -------------------------------------------------------------------------

  /** Two steps, the first with a compensator. */
  predicate Paired(pg: Program) {
    && |pg.steps| == 2 && !pg.steps[0].fail && !pg.steps[1].fail && pg.steps[0].hasCompensate
    && GuardPasses(GuardAt(pg, 0)) && GuardPasses(GuardAt(pg, 1))
    && PlanFor(pg.steps).Some? && ValidPlan(PlanFor(pg.steps).value)
  }

  lemma PairExists() returns (pg: Program)
    ensures Paired(pg)
  {
    pg := Program([StepDef("scan", "never", "never", true, false, false, 0),
                   StepDef("send", "never", "never", false, false, false, 0)], true, LIMIT);
    var scan, send := "scan", "send";
    assert !IsSpace(scan[0]) && !IsSpace(send[0]) && scan[1] != send[1];
    SizeBounds(scan);
    SizeBounds(send);
    SagaTheorems.PlanAccepted(pg.steps);
  }

  /** The first step is done, with this much of its compensation; the second is untouched. */
  predicate Halfway(st: Stage, comp: CompPhase) {
    && |st.saga.rows| == |st.pg.steps| == 2 && !st.saga.cancelRequested && st.run == Brain.RRunning
    && st.saga.plan.Some? && st.saga.plan == PlanFor(st.pg.steps)
    && st.saga.rows[0].action == Succeeded && Eligible(st.saga.rows[0]) && st.saga.rows[0].comp == comp
    && st.saga.rows[1].action == Pending && st.saga.rows[1].guard.None?
  }

  lemma PairBinds(pg: Program) returns (es: seq<Event>, st: Stage)
    requires Paired(pg)
    ensures Here(es, st) && st.past == [] && st.pg == pg && st.log == [] && Startable(st, 0)
    ensures Halfway(AfterStep(st, 0), CPending)
  {
    es := Binds(pg);
    st := Stage([], pg, Unstarted(pg), Head(0), Brain.RRunning, []);
    assert PlanFor(pg.steps).value[0] == StepPlanFor(pg.steps[0], 0);
  }

  lemma DoesFirst(pg: Program) returns (es: seq<Event>, st: Stage)
    requires Paired(pg)
    ensures Here(es, st) && st.past == [] && st.pg == pg && Halfway(st, CPending) && st.pc == Head(1)
    ensures st.log == [] + [Deed(1, Act(Action, 0))]
  {
    es, st := PairBinds(pg);
    es := Does(es, st, 0);
    st := AfterStep(st, 0);
  }

  lemma LeavesFirst(es: seq<Event>, st: Stage) returns (es': seq<Event>)
    requires Here(es, st) && Halfway(st, CPending) && st.pc == Head(1)
    ensures Here(es', st.(pc := CompHead(0, 0, ContextDone)))
  {
    HolderKnown(es, st);
    es' := Thinks(es, st, true);
  }

  lemma HalfUndone(st: Stage)
    requires Halfway(st, CPending) && st.pc == CompHead(0, 0, ContextDone)
    ensures Undoable(st, 0) && Halfway(AfterUndo(st, 0), CDone) && AfterUndo(st, 0).saga.state == SRunning
  {
    var rows := AfterUndo(st, 0).saga.rows;
    assert rows[0].action == Succeeded && rows[1].action == Pending;
  }

  lemma UndoesFirst(es: seq<Event>, st: Stage) returns (es': seq<Event>)
    requires Here(es, st) && Halfway(st, CPending) && st.pc == Head(1)
    ensures Here(es', AfterUndo(st.(pc := CompHead(0, 0, ContextDone)), 0))
  {
    es' := LeavesFirst(es, st);
    HalfUndone(st.(pc := CompHead(0, 0, ContextDone)));
    es' := Undoes(es', st.(pc := CompHead(0, 0, ContextDone)), 0);
  }

  /** An executor whose context ends undoes what it did, and leaves the saga running. */
  lemma ContextStalls(pg: Program) returns (es: seq<Event>, st: Stage)
    requires Paired(pg)
    ensures Here(es, st) && st.past == [] && st.pg == pg && Halfway(st, CDone)
    ensures st.pc == Done(Cause(ContextDone, 0)) && st.saga.state == SRunning
    ensures st.log == [] + [Deed(1, Act(Action, 0))] + [Deed(1, Act(Compensation, 0))]
  {
    es, st := DoesFirst(pg);
    es := UndoesFirst(es, st);
    HalfUndone(st.(pc := CompHead(0, 0, ContextDone)));
    st := AfterUndo(st.(pc := CompHead(0, 0, ContextDone)), 0);
    es := Thinks(es, st, false);
    st := st.(pc := Done(Cause(ContextDone, 0)));
  }

  lemma Resumes(es: seq<Event>, st: Stage) returns (es': seq<Event>, st': Stage)
    requires Here(es, st) && Halfway(st, CDone) && st.saga.state == SRunning
    ensures Here(es', st') && |st'.past| == |st.past| + 1 && st'.pg == st.pg && Halfway(st', CDone) && st'.pc == Head(1)
    ensures st'.log == st.log
  {
    es' := HandsOver(es, st, st.pg);
    st' := Handed(st, st.pg);
    HolderKnown(es', st');
    es' := Thinks(es', st', false);
    st' := st'.(pc := Head(1));
  }

  lemma Completes(es: seq<Event>, st: Stage) returns (es': seq<Event>)
    requires Here(es, st) && !st.saga.cancelRequested && st.saga.state == StateOf(st.saga.rows, false)
    requires |st.saga.rows| == 2 && st.saga.rows[0].action == st.saga.rows[1].action == Succeeded
    ensures Now(es').sv.item.status == Brain.WSucceeded && Now(es').log == st.log
  {
    Then(es, CompleteWork(|st.past|));
    assert AllSucceeded(st.saga.rows) && !AnyFailed(st.saga.rows);
    es' := es + [CompleteWork(|st.past|)];
  }

  /** The next executor finishes the second step, and the work succeeds with its first step undone. */
  lemma SucceedsUndone(pg: Program) returns (es: seq<Event>)
    requires Paired(pg)
    ensures var s := Now(es);
            && s.sv.item.status == Brain.WSucceeded && SagaDeeds.Undid(s.log)
            && s.log == [Deed(1, Act(Action, 0))] + [Deed(1, Act(Compensation, 0))] + [Deed(2, Act(Action, 1))]
  {
    var st;
    es, st := ContextStalls(pg);
    es, st := Resumes(es, st);
    es := Does(es, st, 1);
    st := AfterStep(st, 1);
    es := Completes(es, st);
    assert Now(es).log[1].act.kind == Compensation;
  }
}
