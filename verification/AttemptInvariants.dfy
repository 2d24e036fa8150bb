/** What an attempt knows about its own snapshot at every program counter, and why each move keeps it. */
module AttemptInvariants {
  import opened Text
  import opened SagaJournal
  import opened Attempts
  import Brain

  /** Succeeded steps, then at most one step under way or settled otherwise, then untouched steps. */
  predicate Prefix(rows: seq<StepRow>) {
    forall j, k :: 0 <= j < k < |rows| && rows[k].action != Pending ==> rows[j].action == Succeeded
  }

  /** Row facts that hold because executors, not arbitrary lease holders, write the journal. */
  predicate ExecRow(row: StepRow) {
    && (row.action == Effect && row.plan.actionReplay == NeverReplay ==> row.comp == CPending)
    && (row.action == Unknown ==> row.comp == CPending)
    && (row.action != Pending ==> row.guard.Some?)
    && (row.effectStarted ==> row.guard.Some? && GuardPasses(row.guard.value))
    && (row.action == Failed && !row.effectStarted ==> row.guard.Some? && !GuardPasses(row.guard.value))
  }

  predicate ExecRows(rows: seq<StepRow>) {
    && Prefix(rows)
    && (forall k :: 0 <= k < |rows| ==> ExecRow(rows[k]))
  }

  predicate ExecSaga(s: Saga) {
    SagaInv(s) && ExecRows(s.rows)
  }

  /** The snapshot is for this attempt's plan. */
  predicate Bound(pg: Program, snap: Saga) {
    && PlanFor(pg.steps).Some?
    && snap.plan == PlanFor(pg.steps)
    && |snap.rows| == |pg.steps|
    && (forall k :: 0 <= k < |pg.steps| ==> snap.rows[k].plan == StepPlanFor(pg.steps[k], k))
  }

  predicate ForwardAt(pg: Program, snap: Saga, i: nat) {
    && Bound(pg, snap)
    && i <= |pg.steps|
    && !AnyUnknown(snap.rows)
    && (forall k :: 0 <= k < i ==> snap.rows[k].action == Succeeded)
  }

  /** Step i is the first that did not succeed, and is neither failed nor unknown. */
  predicate OpenAt(rows: seq<StepRow>, i: int) {
    && 0 <= i < |rows| && rows[i].action in {Pending, Intent, Effect}
    && (forall k :: 0 <= k < i ==> rows[k].action == Succeeded)
  }

  predicate CompensatedAbove(rows: seq<StepRow>, j: int, last: int) {
    forall k :: 0 <= k < |rows| && j < k <= last && Eligible(rows[k]) ==> rows[k].comp == CDone
  }

  predicate NothingStartedAbove(rows: seq<StepRow>, last: int) {
    forall k :: 0 <= k < |rows| && last < k ==> !rows[k].effectStarted
  }

  predicate BackwardAt(pg: Program, snap: Saga, j: int, last: int, why: Why) {
    && Bound(pg, snap)
    && -1 <= j <= last < |pg.steps|
    && CompensatedAbove(snap.rows, j, last)
    && (why == StepFailed ==> AnyFailed(snap.rows) && NothingStartedAbove(snap.rows, last))
    && (why == CancelSeen ==> snap.cancelRequested && NothingStartedAbove(snap.rows, last))
    && (why == ContextDone ==> OpenAt(snap.rows, last + 1))
  }

  /** Where the attempt is in its two loops. */
  /** A compensator failed and may be tried again. */
  predicate RetryLater(row: StepRow) {
    Eligible(row) && row.comp == CFailed && !NeverComp(row)
  }

  predicate Place(pg: Program, snap: Saga, pc: Pc) {
    match pc
    case Init => true
    case Head(i) => ForwardAt(pg, snap, i)
    case SendIntent(i) => ForwardAt(pg, snap, i)
    case SendEffect(i) => ForwardAt(pg, snap, i)
    case Run(i) => ForwardAt(pg, snap, i)
    case SendSucceeded(i) => ForwardAt(pg, snap, i)
    case SendFailed(i, _, _) => ForwardAt(pg, snap, i)
    case CompHead(j, last, why) => BackwardAt(pg, snap, j, last, why)
    case SendCompIntent(j, last, why) => BackwardAt(pg, snap, j, last, why)
    case SendCompEffect(j, last, why) => BackwardAt(pg, snap, j, last, why)
    case Undo(j, last, why) => BackwardAt(pg, snap, j, last, why)
    case SendCompDone(j, last, why) => BackwardAt(pg, snap, j, last, why)
    case SendCompFailed(_, _) => Bound(pg, snap)
    case SendUnknown(_, _) => Bound(pg, snap)
    case Done(Nil) => Bound(pg, snap) && AllSucceeded(snap.rows)
    case Done(Cause(why, last)) => BackwardAt(pg, snap, -1, last, why)
    case Done(ErrUnknown) => AnyUnknown(snap.rows)
    case Done(CompensatorFailed) => exists i :: 0 <= i < |snap.rows| && RetryLater(snap.rows[i])
    case Done(GuardClash) => exists i :: 0 <= i < |snap.rows| && OpenAt(snap.rows, i)
    case Done(_) => true
  }

  /** The step an effect or a journal call is about. */
  function Focus(pc: Pc): Option<int> {
    match pc
    case Run(i) => Some(i)
    case Undo(j, _, _) => Some(j)
    case _ => if Outgoing(pc).Wire? then Some(Outgoing(pc).i) else None
  }

  /** What the journal says of the step in focus; `g` is this attempt's guard for it. */
  predicate Ready(pc: Pc, row: StepRow, g: Guard) {
    match pc
    case SendIntent(_) => row.action == Pending && (row.guard.Some? ==> row.guard.value == g)
    case SendEffect(_) => row.action == Intent && row.guard == Some(g) && GuardPasses(g)
    case Run(_) => row.action == Effect && row.guard == Some(g)
    case SendSucceeded(_) => row.action == Effect && row.guard == Some(g)
    case SendFailed(i, _, last) =>
      && row.guard == Some(g)
      && ((row.action == Effect && last == i) || (row.action == Intent && last == i - 1 && !GuardPasses(g)))
    case SendCompIntent(_, _, _) =>
      && Eligible(row) && !(row.action == Effect && NeverAction(row))
      && (row.comp == CPending || (row.comp == CFailed && !NeverComp(row)))
    case SendCompEffect(_, _, _) => Eligible(row) && row.comp == CIntent
    case Undo(_, _, _) => Eligible(row) && row.comp == CEffect
    case SendCompDone(_, _, _) => Eligible(row) && row.comp == CEffect
    case SendCompFailed(_, _) => row.comp == CEffect
    case SendUnknown(_, _) =>
      (row.action == Effect && NeverAction(row)) || ((row.comp == CEffect || row.comp == CFailed) && NeverComp(row))
    case _ => true
  }

  predicate FocusReady(pg: Program, snap: Saga, pc: Pc) {
    Focus(pc).Some? ==>
      var i := Focus(pc).value;
      0 <= i < |pg.steps| && i < |snap.rows| && Ready(pc, snap.rows[i], GuardAt(pg, i))
  }

  predicate PcInv(pg: Program, snap: Saga, pc: Pc) {
    Place(pg, snap, pc) && FocusReady(pg, snap, pc)
  }

  // ---- moves that meet nobody -------------------------------------------------------------------

  lemma BoundFromPlan(pg: Program, snap: Saga)
    requires SagaInv(snap) && PlanFor(pg.steps).Some? && snap.plan == PlanFor(pg.steps)
    ensures Bound(pg, snap)
  {
  }

  lemma AfterBindKeeps(pg: Program, snap: Saga)
    requires ExecSaga(snap)
    ensures PlanFor(pg.steps).Some? ==> PcInv(pg, snap, AfterBind(pg, snap))
  {
    if PlanFor(pg.steps).Some? && snap.plan == PlanFor(pg.steps) {
      BoundFromPlan(pg, snap);
    }
  }

  lemma UntouchedNotStarted(rows: seq<StepRow>, i: nat)
    requires Prefix(rows) && (forall k :: 0 <= k < |rows| ==> RowInv(rows[k]))
    requires i < |rows| && rows[i].action != Succeeded
    ensures NothingStartedAbove(rows, i)
  {
    forall k | i < k < |rows|
      ensures !rows[k].effectStarted
    {
      assert rows[k].action == Pending;
    }
  }

  lemma ForwardPlace(pg: Program, snap: Saga, i: nat, contextDone: bool)
    requires ForwardAt(pg, snap, i)
    requires i < |snap.rows| ==> RowInv(snap.rows[i])
    requires i < |snap.rows| && snap.rows[i].action != Succeeded ==> NothingStartedAbove(snap.rows, i)
    ensures Place(pg, snap, Forward(pg, snap, i, contextDone))
  {
    if i < |pg.steps| {
      assert snap.rows[i].plan == StepPlanFor(pg.steps[i], i);
      assert snap.rows[i].action in {Pending, Intent, Effect} ==> OpenAt(snap.rows, i);
    }
  }

  lemma ForwardFocus(pg: Program, snap: Saga, i: nat, contextDone: bool)
    requires i < |snap.rows| && i < |pg.steps| ==> RowInv(snap.rows[i]) && ExecRow(snap.rows[i])
    ensures FocusReady(pg, snap, Forward(pg, snap, i, contextDone))
  {
  }

  /** The compensation loop stays at j, except that a step with nothing to undo is skipped. */
  lemma BackwardShape(pg: Program, snap: Saga, j: int, last: int, why: Why)
    requires Bound(pg, snap) && 0 <= j < |pg.steps|
    ensures var pc := Backward(pg, snap, j, last, why);
            var row := snap.rows[j];
            || (pc == CompHead(j - 1, last, why) && (!Eligible(row) || row.comp == CDone))
            || (pc == Done(ErrUnknown) && row.comp == CUnknown)
            || pc == SendCompIntent(j, last, why) || pc == SendCompEffect(j, last, why) || pc == Undo(j, last, why)
            || pc.SendUnknown?
  {
    assert snap.rows[j].plan == StepPlanFor(pg.steps[j], j);
  }

  lemma BackwardPlace(pg: Program, snap: Saga, j: int, last: int, why: Why)
    requires BackwardAt(pg, snap, j, last, why)
    ensures Place(pg, snap, Backward(pg, snap, j, last, why))
  {
    if 0 <= j {
      BackwardShape(pg, snap, j, last, why);
      if !Eligible(snap.rows[j]) || snap.rows[j].comp == CDone {
        assert CompensatedAbove(snap.rows, j - 1, last);
      } else if snap.rows[j].comp == CUnknown {
        assert AnyUnknown(snap.rows);
      }
    }
  }

  lemma BackwardFocus(pg: Program, snap: Saga, j: int, last: int, why: Why)
    requires 0 <= j < |snap.rows| && j < |pg.steps| ==>
               snap.rows[j].plan.hasCompensation == pg.steps[j].hasCompensate
    ensures FocusReady(pg, snap, Backward(pg, snap, j, last, why))
  {
  }

  predicate AttemptInv(at: Attempt) {
    ExecSaga(at.snap) && PcInv(at.program, at.snap, at.pc)
  }

  lemma ThinkKeeps(at: Attempt, contextDone: bool)
    requires AttemptInv(at)
    ensures AttemptInv(Think(at, contextDone))
  {
    match at.pc
    case Head(i) =>
      if i < |at.snap.rows| && at.snap.rows[i].action != Succeeded {
        UntouchedNotStarted(at.snap.rows, i);
      }
      ForwardPlace(at.program, at.snap, i, contextDone);
      ForwardFocus(at.program, at.snap, i, contextDone);
    case CompHead(j, last, why) =>
      BackwardPlace(at.program, at.snap, j, last, why);
      BackwardFocus(at.program, at.snap, j, last, why);
    case _ =>
  }

  lemma AfterRunKeeps(pg: Program, snap: Saga, i: nat, error: string)
    requires PcInv(pg, snap, Run(i))
    ensures PcInv(pg, snap, SendFailed(i, error, i)) && PcInv(pg, snap, SendSucceeded(i))
  {
  }

  lemma AfterUndoKeeps(pg: Program, snap: Saga, j: int, last: int, why: Why, error: string)
    requires PcInv(pg, snap, Undo(j, last, why))
    ensures PcInv(pg, snap, SendCompFailed(j, error)) && PcInv(pg, snap, SendCompDone(j, last, why))
  {
  }

  lemma AfterActionKeeps(at: Attempt, error: Option<string>)
    requires PcInv(at.program, at.snap, at.pc)
    ensures var at' := AfterAction(at, error);
            at' == at.(pc := at'.pc) && PcInv(at.program, at.snap, at'.pc)
  {
    var text := if error.Some? then error.value else "";
    match at.pc
    case Run(i) => AfterRunKeeps(at.program, at.snap, i, text);
    case Undo(j, last, why) => AfterUndoKeeps(at.program, at.snap, j, last, why, text);
    case _ =>
  }

  // ---- journal calls ----------------------------------------------------------------------------

  /** The one receipt of an executor the journal refuses as a transition: undoing a step whose own outcome is unknown. */
  predicate UndoesUnknown(at: Attempt) {
    at.pc.SendCompIntent? && 0 <= at.pc.j < |at.snap.rows| && at.snap.rows[at.pc.j].action == Unknown
  }

  /** The journal `s` as the lease holder knows it. */
  predicate UpToDate(at: Attempt, s: Saga) {
    && ExecSaga(s)
    && s.rows == at.snap.rows
    && s.plan == at.snap.plan
    && (at.snap.cancelRequested ==> s.cancelRequested)
  }

  /** A journal call in flight is admitted, and is news to the journal. */
  lemma ReadyIsAdmitted(pc: Pc, row: StepRow, g: Guard)
    requires Outgoing(pc).Wire? && RowInv(row) && ExecRow(row) && Ready(pc, row, g)
    ensures !CurrentPhaseMatches(Outgoing(pc).phase, row)
    ensures Admits(row, Outgoing(pc).phase) <==> !(pc.SendCompIntent? && row.action == Unknown)
    ensures Outgoing(pc).guarded && row.guard.Some? ==> row.guard == Some(g)
  {
  }

  /** Everything an attempt knows about the step its call is about. */
  lemma InFocus(at: Attempt)
    requires AttemptInv(at) && Outgoing(at.pc).Wire?
    ensures at.snap.plan.Some? && 0 <= Outgoing(at.pc).i < |at.snap.rows| == |at.program.steps|
    ensures var row := at.snap.rows[Outgoing(at.pc).i];
            && RowInv(row) && ExecRow(row) && !Blank(row.plan.key)
            && row.plan == StepPlanFor(at.program.steps[Outgoing(at.pc).i], Outgoing(at.pc).i)
            && Ready(at.pc, row, GuardAt(at.program, Outgoing(at.pc).i))
    ensures forall k :: 0 <= k < Outgoing(at.pc).i ==> at.snap.rows[k].action == Succeeded
  {
    var i := Outgoing(at.pc).i;
    assert Focus(at.pc) == Some(i);
    assert Bound(at.program, at.snap);
    assert at.snap.rows[i].action == Pending ==> at.pc.SendIntent?;
    assert at.snap.rows[i].plan == at.snap.plan.value[i];
  }

  /** How the journal answers the lease holder: exactly two kinds of refusal, otherwise the row advances. */
  lemma HolderCall(at: Attempt, s: Saga)
    requires AttemptInv(at) && Outgoing(at.pc).Wire? && UpToDate(at, s) && s.state != SUnknown
    ensures 0 <= Outgoing(at.pc).i < |s.rows| == |at.program.steps|
    ensures NextCall(at).Some? && NextCall(at).value.RecordReq?
    ensures Record(s, NextCall(at).value.receipt) == AnswerTo(at, s)
  {
    InFocus(at);
    AnswerComputed(at, s);
  }

  function AnswerTo(at: Attempt, s: Saga): Reply
    requires Outgoing(at.pc).Wire? && 0 <= Outgoing(at.pc).i < |s.rows| == |at.program.steps|
  {
    var w := Outgoing(at.pc);
    var guard := if w.guarded then Some(GuardAt(at.program, w.i)) else None;
    var rows := s.rows[w.i := Advance(s.rows[w.i], w.phase, guard)];
    if Size(w.error) > MAX_TEXT then Refused(TooLarge)
    else if UndoesUnknown(at) then Refused(InvalidTransition)
    else Ok(s.(rows := rows,
               state := if w.phase == OutcomeUnknown then SUnknown else StateOf(rows, s.cancelRequested)))
  }

  lemma AnswerComputed(at: Attempt, s: Saga)
    requires Outgoing(at.pc).Wire? && s.state != SUnknown && s.plan.Some? && s.rows == at.snap.rows
    requires 0 <= Outgoing(at.pc).i < |s.rows| == |at.program.steps|
    requires var row := s.rows[Outgoing(at.pc).i];
             && RowInv(row) && ExecRow(row) && !Blank(row.plan.key)
             && row.plan == StepPlanFor(at.program.steps[Outgoing(at.pc).i], Outgoing(at.pc).i)
             && Ready(at.pc, row, GuardAt(at.program, Outgoing(at.pc).i))
    ensures NextCall(at).Some? && NextCall(at).value.RecordReq?
    ensures Record(s, NextCall(at).value.receipt) == AnswerTo(at, s)
  {
    var w := Outgoing(at.pc);
    ReadyIsAdmitted(at.pc, s.rows[w.i], GuardAt(at.program, w.i));
    SizeBounds(NextCall(at).value.receipt.receiptRef);
  }

  lemma AdvanceStaysExec(pc: Pc, row: StepRow, g: Guard)
    requires Outgoing(pc).Wire? && RowInv(row) && ExecRow(row) && Ready(pc, row, g)
    requires Admits(row, Outgoing(pc).phase)
    ensures var row' := Advance(row, Outgoing(pc).phase, if Outgoing(pc).guarded then Some(g) else None);
            ExecRow(row') && (row'.action == row.action || row.action != Succeeded)
  {
  }

  lemma ExecRowsKept(rows: seq<StepRow>, i: nat, row: StepRow)
    requires ExecRows(rows) && i < |rows| && ExecRow(row)
    requires row.action == rows[i].action || rows[i].action != Succeeded
    requires forall j :: 0 <= j < i ==> rows[j].action == Succeeded
    ensures ExecRows(rows[i := row])
  {
  }

  /** The step rows after an accepted receipt of the lease holder still look like an executor's work. */
  lemma RowsStayExec(pc: Pc, rows: seq<StepRow>, g: Guard)
    requires ExecRows(rows) && Outgoing(pc).Wire? && 0 <= Outgoing(pc).i < |rows|
    requires RowInv(rows[Outgoing(pc).i]) && Ready(pc, rows[Outgoing(pc).i], g)
    requires forall k :: 0 <= k < Outgoing(pc).i ==> rows[k].action == Succeeded
    requires !(pc.SendCompIntent? && rows[Outgoing(pc).i].action == Unknown)
    ensures var w := Outgoing(pc);
            ExecRows(rows[w.i := Advance(rows[w.i], w.phase, if w.guarded then Some(g) else None)])
  {
    var w := Outgoing(pc);
    ReadyIsAdmitted(pc, rows[w.i], g);
    AdvanceStaysExec(pc, rows[w.i], g);
    ExecRowsKept(rows, w.i, Advance(rows[w.i], w.phase, if w.guarded then Some(g) else None));
  }

  /** The journal after such a receipt. */
  lemma AnswerStaysExec(at: Attempt, s: Saga, r: Receipt)
    requires ExecSaga(s) && Outgoing(at.pc).Wire? && 0 <= Outgoing(at.pc).i < |s.rows| == |at.program.steps|
    requires Record(s, r) == AnswerTo(at, s) && at.snap.rows == s.rows
    requires RowInv(s.rows[Outgoing(at.pc).i]) && Ready(at.pc, s.rows[Outgoing(at.pc).i], GuardAt(at.program, Outgoing(at.pc).i))
    requires forall k :: 0 <= k < Outgoing(at.pc).i ==> s.rows[k].action == Succeeded
    ensures Record(s, r).Ok? ==> ExecSaga(Record(s, r).saga) && SagaLeq(s, Record(s, r).saga)
  {
    if Record(s, r).Ok? {
      RecordKeeps(s, r);
      RowsStayExec(at.pc, s.rows, GuardAt(at.program, Outgoing(at.pc).i));
    }
  }

  /** The rows after an accepted call of the lease holder still look like an executor's work. */
  lemma ReplyStaysExec(at: Attempt, s: Saga)
    requires AttemptInv(at) && Outgoing(at.pc).Wire? && UpToDate(at, s) && s.state != SUnknown
    ensures NextCall(at).Some? && NextCall(at).value.RecordReq?
    ensures var reply := Record(s, NextCall(at).value.receipt);
            reply.Ok? ==> ExecSaga(reply.saga) && SagaLeq(s, reply.saga)
  {
    HolderCall(at, s);
    InFocus(at);
    AnswerStaysExec(at, s, NextCall(at).value.receipt);
  }

  /** `t` is `snap` with row i advanced, seen by the same attempt. */
  predicate Advanced(pg: Program, snap: Saga, t: Saga, i: int, phase: Phase, guard: Option<Guard>) {
    && Bound(pg, snap)
    && 0 <= i < |snap.rows|
    && t.plan == snap.plan
    && t.rows == snap.rows[i := Advance(snap.rows[i], phase, guard)]
    && (snap.cancelRequested ==> t.cancelRequested)
  }

  lemma AdvancedKeepsForward(pg: Program, snap: Saga, t: Saga, i: nat, phase: Phase, guard: Option<Guard>)
    requires Advanced(pg, snap, t, i, phase, guard) && ForwardAt(pg, snap, i) && phase != OutcomeUnknown
    ensures Bound(pg, t)
    ensures ForwardAt(pg, t, i)
    ensures NothingStartedAbove(snap.rows, i) ==> NothingStartedAbove(t.rows, i)
  {
    assert !UnknownRow(snap.rows[i]);
  }

  lemma AfterIntentReply(at: Attempt, t: Saga, guard: Option<Guard>)
    requires at.pc.SendIntent?
    requires PcInv(at.program, at.snap, at.pc) && RowInv(at.snap.rows[at.pc.i])
    requires guard == Some(GuardAt(at.program, at.pc.i))
    requires Advanced(at.program, at.snap, t, at.pc.i, ActIntent, guard) && NothingStartedAbove(at.snap.rows, at.pc.i)
    ensures PcInv(at.program, t, AfterReply(at, t).pc)
  {
    AdvancedKeepsForward(at.program, at.snap, t, at.pc.i, ActIntent, guard);
    assert t.rows[at.pc.i].guard == guard && !t.rows[at.pc.i].effectStarted;
  }

  lemma AfterForwardReply(at: Attempt, t: Saga, guard: Option<Guard>)
    requires at.pc.SendEffect? || at.pc.SendSucceeded? || at.pc.SendFailed?
    requires PcInv(at.program, at.snap, at.pc) && RowInv(at.snap.rows[at.pc.i])
    requires guard == Some(GuardAt(at.program, at.pc.i))
    requires Advanced(at.program, at.snap, t, at.pc.i, Outgoing(at.pc).phase, guard)
    requires NothingStartedAbove(at.snap.rows, at.pc.i)
    ensures PcInv(at.program, t, AfterReply(at, t).pc)
  {
    var i := at.pc.i;
    AdvancedKeepsForward(at.program, at.snap, t, i, Outgoing(at.pc).phase, guard);
    match at.pc
    case SendEffect(_) =>
    case SendSucceeded(_) => assert ForwardAt(at.program, t, i + 1);
    case SendFailed(_, _, last) => assert AnyFailed(t.rows) && NothingStartedAbove(t.rows, last);
  }

  lemma AdvancedKeepsBackward(pg: Program, snap: Saga, t: Saga, j: int, last: int, why: Why, phase: Phase)
    requires phase == CompIntent || phase == CompEffect || phase == CompDone
    requires Advanced(pg, snap, t, j, phase, None) && BackwardAt(pg, snap, j, last, why)
    ensures BackwardAt(pg, t, j, last, why)
    ensures phase == CompDone ==> BackwardAt(pg, t, j - 1, last, why)
  {
    assert forall k :: 0 <= k < |t.rows| ==>
        t.rows[k].action == snap.rows[k].action && t.rows[k].effectStarted == snap.rows[k].effectStarted
        && t.rows[k].plan == snap.rows[k].plan;
    if why == StepFailed {
      var f :| 0 <= f < |snap.rows| && snap.rows[f].action == Failed;
      assert t.rows[f].action == Failed;
    }
  }

  lemma AfterOpeningReply(at: Attempt, t: Saga)
    requires at.pc.SendCompIntent? || at.pc.SendCompEffect?
    requires PcInv(at.program, at.snap, at.pc)
    requires Advanced(at.program, at.snap, t, at.pc.j, Outgoing(at.pc).phase, None)
    ensures PcInv(at.program, t, AfterReply(at, t).pc)
  {
    AdvancedKeepsBackward(at.program, at.snap, t, at.pc.j, at.pc.last, at.pc.why, Outgoing(at.pc).phase);
  }

  lemma AfterDoneReply(at: Attempt, t: Saga)
    requires at.pc.SendCompDone?
    requires PcInv(at.program, at.snap, at.pc)
    requires Advanced(at.program, at.snap, t, at.pc.j, Outgoing(at.pc).phase, None)
    ensures PcInv(at.program, t, AfterReply(at, t).pc)
  {
    AdvancedKeepsBackward(at.program, at.snap, t, at.pc.j, at.pc.last, at.pc.why, Outgoing(at.pc).phase);
  }

  lemma AfterUnknownReply(at: Attempt, t: Saga)
    requires at.pc.SendUnknown?
    requires PcInv(at.program, at.snap, at.pc)
    requires Advanced(at.program, at.snap, t, at.pc.j, Outgoing(at.pc).phase, None)
    ensures PcInv(at.program, t, AfterReply(at, t).pc)
  {
    assert UnknownRow(t.rows[at.pc.j]);
  }

  lemma AfterFailedReply(at: Attempt, t: Saga)
    requires at.pc.SendCompFailed?
    requires PcInv(at.program, at.snap, at.pc) && RowInv(at.snap.rows[at.pc.j])
    requires Advanced(at.program, at.snap, t, at.pc.j, Outgoing(at.pc).phase, None)
    ensures PcInv(at.program, t, AfterReply(at, t).pc)
  {
    assert !NeverComp(t.rows[at.pc.j]) ==> RetryLater(t.rows[at.pc.j]);
  }

  /** An accepted call leaves the lease holder with the facts its next program counter needs. */
  lemma AfterReplyKeeps(at: Attempt, s: Saga)
    requires AttemptInv(at) && Outgoing(at.pc).Wire? && UpToDate(at, s) && s.state != SUnknown
    ensures NextCall(at).Some? && NextCall(at).value.RecordReq?
    ensures var reply := Record(s, NextCall(at).value.receipt);
            reply.Ok? ==> PcInv(at.program, reply.saga, AfterReply(at, reply.saga).pc)
  {
    HolderCall(at, s);
    InFocus(at);
    var i := Outgoing(at.pc).i;
    var reply := Record(s, NextCall(at).value.receipt);
    if reply.Ok? {
      if at.snap.rows[i].action != Succeeded {
        UntouchedNotStarted(at.snap.rows, i);
      }
      AfterAnswer(at, reply.saga);
    }
  }

  lemma AfterAnswer(at: Attempt, t: Saga)
    requires Outgoing(at.pc).Wire? && PcInv(at.program, at.snap, at.pc)
    requires var w := Outgoing(at.pc);
             && 0 <= w.i < |at.snap.rows| == |at.program.steps|
             && RowInv(at.snap.rows[w.i])
             && Advanced(at.program, at.snap, t, w.i, w.phase,
                         if w.guarded then Some(GuardAt(at.program, w.i)) else None)
             && (at.snap.rows[w.i].action != Succeeded ==> NothingStartedAbove(at.snap.rows, w.i))
    ensures PcInv(at.program, t, AfterReply(at, t).pc)
  {
    if at.pc.SendCompIntent? || at.pc.SendCompEffect? {
      AfterOpeningReply(at, t);
    } else if at.pc.SendCompDone? {
      AfterDoneReply(at, t);
    } else if at.pc.SendCompFailed? {
      AfterFailedReply(at, t);
    } else if at.pc.SendUnknown? {
      AfterUnknownReply(at, t);
    } else if at.pc.SendIntent? {
      AfterIntentReply(at, t, Some(GuardAt(at.program, at.pc.i)));
    } else {
      AfterForwardReply(at, t, Some(GuardAt(at.program, at.pc.i)));
    }
  }
}
