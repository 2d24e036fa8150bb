/**
 * The authoritative saga journal of one run (lib/brain/agent_run_saga.go): the `run_sagas` row, the
 * `run_saga_steps` rows, and the two transactions that change them.
 *
 * A plan digest stands for the plan it digests and a guard digest for the guard it digests (SHA-256 is
 * taken as injective), so the columns hold the plan and the guard themselves.
 */
module SagaJournal {
  import opened Text

  datatype Replay = Safe | Idempotent | NeverReplay

  datatype ActionPhase = Pending | Intent | Effect | Succeeded | Failed | Unknown
  datatype CompPhase = CPending | CIntent | CEffect | CDone | CFailed | CUnknown
  datatype SagaState = SPending | SRunning | SCompensating | SCancelling | SReady | SCompensated | SUnknown

  /** The phases a receipt may carry. */
  datatype Phase =
    | Unspecified
    | ActIntent | ActEffect | ActSucceeded | ActFailed
    | CompIntent | CompEffect | CompDone | CompFailed
    | OutcomeUnknown

  datatype ResourceLimit = ResourceLimit(memoryBytes: nat, cpuSeconds: nat, files: nat)

  /** What a guard digest covers. */
  datatype Guard = Guard(dangerous: bool, fail: bool, memBytes: nat, sandbox: bool, limit: ResourceLimit)

  datatype StepPlan = StepPlan(
    sequence: int, key: string, actionReplay: Replay, hasCompensation: bool, compensationReplay: Replay)

  type Plan = seq<StepPlan>

  datatype StepRow = StepRow(
    plan: StepPlan, action: ActionPhase, comp: CompPhase, guard: Option<Guard>, effectStarted: bool)

  /** A `run_sagas` row with its steps; also the snapshot handed to the executor. */
  datatype Saga = Saga(plan: Option<Plan>, state: SagaState, cancelRequested: bool, rows: seq<StepRow>)

  datatype Receipt = Receipt(
    sequence: int, key: string, phase: Phase, guard: Option<Guard>, receiptRef: string, error: string)

  datatype Refusal =
    | Malformed | TooLarge | NotBound | NoSuchStep | KeyMismatch | GuardChanged | InvalidTransition
    | BadPlan | OtherPlan | NoLease

  datatype Reply = Ok(saga: Saga) | Refused(why: Refusal)

  const MAX_STEPS := 128
  const MAX_KEY := 128
  const MAX_TEXT := 2048

  const NEW_SAGA := Saga(None, SPending, false, [])

  // ---- the state column -------------------------------------------------------------------------

  predicate AllSucceeded(rows: seq<StepRow>) {
    forall k :: 0 <= k < |rows| ==> rows[k].action == Succeeded
  }

  predicate AnyFailed(rows: seq<StepRow>) {
    exists k :: 0 <= k < |rows| && rows[k].action == Failed
  }

  /** A compensatable effect was started. */
  predicate Eligible(row: StepRow) {
    row.plan.hasCompensation && row.effectStarted
  }

  predicate AllCompensated(rows: seq<StepRow>) {
    forall k :: 0 <= k < |rows| && Eligible(rows[k]) ==> rows[k].comp == CDone
  }

  predicate UnknownRow(row: StepRow) {
    row.action == Unknown || row.comp == CUnknown
  }

  predicate AnyUnknown(rows: seq<StepRow>) {
    exists k :: 0 <= k < |rows| && UnknownRow(rows[k])
  }

  /** The saga state a set of step rows stands for. */
  function StateOf(rows: seq<StepRow>, cancelRequested: bool): SagaState {
    if cancelRequested then
      if AllCompensated(rows) then SCompensated else SCancelling
    else if AnyFailed(rows) then
      if AllCompensated(rows) then SCompensated else SCompensating
    else if AllSucceeded(rows) then SReady
    else SRunning
  }

  // ---- binding a plan ---------------------------------------------------------------------------

  predicate ValidPlan(plan: Plan) {
    && 1 <= |plan| <= MAX_STEPS
    && (forall k :: 0 <= k < |plan| ==>
          plan[k].sequence == k + 1 && !Blank(plan[k].key) && Size(plan[k].key) <= MAX_KEY)
    && (forall k, l :: 0 <= k < l < |plan| ==> plan[k].key != plan[l].key)
  }

  function FreshRow(p: StepPlan): StepRow {
    StepRow(p, Pending, CPending, None, false)
  }

  function FreshRows(plan: Plan): (rows: seq<StepRow>) {
    seq(|plan|, k requires 0 <= k < |plan| => FreshRow(plan[k]))
  }

  function Bind(s: Saga, plan: Plan): Reply {
    if !ValidPlan(plan) then Refused(BadPlan)
    else if s.plan.Some? && s.plan.value != plan then Refused(OtherPlan)
    else if s.plan.None? then Ok(s.(plan := Some(plan), state := SRunning, rows := FreshRows(plan)))
    else Ok(s)
  }

  // ---- recording a receipt ----------------------------------------------------------------------

  predicate CurrentPhaseMatches(phase: Phase, row: StepRow) {
    match phase
    case Unspecified => false
    case ActIntent => row.action == Intent
    case ActEffect => row.action == Effect
    case ActSucceeded => row.action == Succeeded
    case ActFailed => row.action == Failed
    case CompIntent => row.comp == CIntent
    case CompEffect => row.comp == CEffect
    case CompDone => row.comp == CDone
    case CompFailed => row.comp == CFailed
    case OutcomeUnknown => UnknownRow(row)
  }

  predicate NeverAction(row: StepRow) {
    row.plan.actionReplay == NeverReplay
  }

  predicate NeverComp(row: StepRow) {
    row.plan.compensationReplay == NeverReplay
  }

  /** The per-step state machine: which phase may be recorded next. */
  predicate Admits(row: StepRow, phase: Phase) {
    match phase
    case Unspecified => false
    case ActIntent => row.action == Pending
    case ActEffect => row.action == Intent || (row.action == Effect && !NeverAction(row))
    case ActSucceeded => row.action == Effect
    case ActFailed => row.action == Intent || row.action == Effect
    case CompIntent =>
      && row.plan.hasCompensation && row.effectStarted
      && (row.action == Effect || row.action == Succeeded || row.action == Failed)
      && (row.comp == CPending || (row.comp == CFailed && !NeverComp(row)))
    case CompEffect => row.comp == CIntent || (row.comp == CEffect && !NeverComp(row))
    case CompDone => row.comp == CEffect
    case CompFailed => row.comp == CEffect
    case OutcomeUnknown =>
      || (row.action == Effect && NeverAction(row))
      || ((row.comp == CEffect || row.comp == CFailed) && NeverComp(row))
  }

  /** The row after an admitted phase. */
  function Advance(row: StepRow, phase: Phase, guard: Option<Guard>): StepRow {
    var next :=
      match phase
      case Unspecified => row
      case ActIntent => row.(action := Intent)
      case ActEffect => row.(action := Effect, effectStarted := true)
      case ActSucceeded => row.(action := Succeeded)
      case ActFailed => row.(action := Failed)
      case CompIntent => row.(comp := CIntent)
      case CompEffect => row.(comp := CEffect)
      case CompDone => row.(comp := CDone)
      case CompFailed => row.(comp := CFailed)
      case OutcomeUnknown =>
        if row.comp == CEffect || row.comp == CFailed then row.(comp := CUnknown) else row.(action := Unknown);
    next.(guard := if row.guard.None? then guard else row.guard)
  }

  function Record(s: Saga, r: Receipt): Reply {
    if r.sequence <= 0 || Blank(r.key) || r.phase == Unspecified then Refused(Malformed)
    else if Size(r.receiptRef) > MAX_TEXT || Size(r.error) > MAX_TEXT then Refused(TooLarge)
    else if s.plan.None? then Refused(NotBound)
    else if s.state == SUnknown then Ok(s)
    else if r.sequence > |s.rows| then Refused(NoSuchStep)
    else
      var k := r.sequence - 1;
      var row := s.rows[k];
      if row.plan.key != r.key then Refused(KeyMismatch)
      else if row.guard.Some? && r.guard.Some? && row.guard != r.guard then Refused(GuardChanged)
      else if CurrentPhaseMatches(r.phase, row) then Ok(s)
      else if !Admits(row, r.phase) then Refused(InvalidTransition)
      else
        var rows := s.rows[k := Advance(row, r.phase, r.guard)];
        Ok(s.(rows := rows,
              state := if r.phase == OutcomeUnknown then SUnknown else StateOf(rows, s.cancelRequested)))
  }

  /**
   * A plan is accepted exactly if it has 1 to 128 steps, numbered from 1, with distinct, non-blank keys of at most 128
   * bytes, and no other plan was bound before. A first bind makes a fresh row of each step; a repeated one changes nothing.
   */
  lemma BindsExactly(s: Saga, plan: Plan)
    ensures Bind(s, plan).Ok? <==>
            && 1 <= |plan| <= 128
            && (forall k :: 0 <= k < |plan| ==>
                  plan[k].sequence == k + 1 && Size(plan[k].key) <= 128 && !Blank(plan[k].key))
            && (forall k, l :: 0 <= k < |plan| && 0 <= l < |plan| && plan[k].key == plan[l].key ==> k == l)
            && (s.plan == None || s.plan == Some(plan))
    ensures Bind(s, plan).Ok? ==>
              var t := Bind(s, plan).saga;
              && t.plan == Some(plan) && t.cancelRequested == s.cancelRequested
              && (s.plan.Some? ==> t == s)
              && (s.plan.None? ==> t.state == SRunning && |t.rows| == |plan|)
              && (s.plan.None? ==> forall k :: 0 <= k < |plan| ==> t.rows[k] == StepRow(plan[k], Pending, CPending, None, false))
  {
  }

  /**
   * A receipt is accepted exactly if it is well formed, its texts are of at most 2048 bytes, the saga is bound, and the
   * outcome is unknown already, or it names a step with its key, no other guard is on record, and its phase is the
   * current one or may follow.
   */
  lemma RecordsExactly(s: Saga, r: Receipt)
    ensures Record(s, r).Ok? <==>
            && s.plan.Some? && !Blank(r.key) && r.phase != Unspecified
            && Size(r.error) <= 2048 && Size(r.receiptRef) <= 2048 && r.sequence >= 1
            && (s.state == SUnknown || Names(s, r))
    ensures Record(s, r).Ok? && (s.state == SUnknown || CurrentPhaseMatches(r.phase, s.rows[r.sequence - 1])) ==> Record(s, r).saga == s
  {
  }

  predicate Names(s: Saga, r: Receipt) {
    && 1 <= r.sequence <= |s.rows|
    && var row := s.rows[r.sequence - 1];
       && row.plan.key == r.key
       && (row.guard == None || r.guard == None || row.guard == r.guard)
       && (CurrentPhaseMatches(r.phase, row) || Admits(row, r.phase))
  }

  // ---- what every bind and every receipt keeps --------------------------------------------------

  /** A row reached through admitted receipts only. */
  predicate RowInv(row: StepRow) {
    && (row.action == Pending || row.action == Intent ==> !row.effectStarted)
    && (row.action == Effect || row.action == Succeeded || row.action == Unknown ==> row.effectStarted)
    && (row.comp != CPending ==> Eligible(row))
  }

  /** The step rows are the rows of the bound plan. */
  predicate StepsInv(s: Saga) {
    && (s.plan.None? ==> s.rows == [])
    && (s.plan.Some? ==>
          && ValidPlan(s.plan.value)
          && |s.rows| == |s.plan.value|
          && (forall k :: 0 <= k < |s.rows| ==> s.rows[k].plan == s.plan.value[k] && RowInv(s.rows[k])))
  }

  /** The state column agrees with the step rows. */
  predicate StateInv(s: Saga) {
    && (s.plan.None? ==> s.state != SReady && s.state != SUnknown)
    && (s.state == SReady ==> AllSucceeded(s.rows) && !s.cancelRequested)
    && (s.state == SCompensated ==> AllCompensated(s.rows))
    && (s.state == SUnknown ==> AnyUnknown(s.rows))
    && (AnyUnknown(s.rows) && !s.cancelRequested ==> s.state == SUnknown)
    && (s.plan.Some? && s.state != SUnknown && !s.cancelRequested ==> s.state == StateOf(s.rows, false))
  }

  predicate SagaInv(s: Saga) {
    StepsInv(s) && StateInv(s)
  }

  /** How far an action got; the three settled phases are incomparable and final. */
  predicate ActionLeq(a: ActionPhase, b: ActionPhase) {
    match a
    case Pending => true
    case Intent => b != Pending
    case Effect => b != Pending && b != Intent
    case _ => b == a
  }

  /** `later` can only have come after `earlier`. */
  predicate RowLeq(earlier: StepRow, later: StepRow) {
    && earlier.plan == later.plan
    && (earlier.effectStarted ==> later.effectStarted)
    && ActionLeq(earlier.action, later.action)
    && (earlier.comp == CDone || earlier.comp == CUnknown ==> later.comp == earlier.comp)
    && (earlier.comp != CPending ==> later.comp != CPending)
    && (earlier.plan.compensationReplay == NeverReplay && earlier.comp != CPending && earlier.comp != CIntent
        ==> later.comp != CPending && later.comp != CIntent)
    && (earlier.guard.Some? ==> later.guard == earlier.guard)
  }

  predicate RowsLeq(earlier: seq<StepRow>, later: seq<StepRow>) {
    && |earlier| <= |later|
    && (forall k :: 0 <= k < |earlier| ==> RowLeq(earlier[k], later[k]))
  }

  /** Nothing the journal accepted is ever taken back. */
  predicate SagaLeq(s: Saga, t: Saga) {
    && (s.plan.Some? ==> t.plan == s.plan && |s.rows| == |t.rows|)
    && RowsLeq(s.rows, t.rows)
    && (s.cancelRequested ==> t.cancelRequested)
  }

  lemma SagaLeqReflexive(saga: Saga)
    ensures SagaLeq(saga, saga)
  {
  }

  lemma SagaLeqTransitive(s: Saga, t: Saga, u: Saga)
    requires SagaLeq(s, t) && SagaLeq(t, u)
    ensures SagaLeq(s, u)
  {
    forall k | 0 <= k < |s.rows|
      ensures RowLeq(s.rows[k], u.rows[k])
    {
      assert RowLeq(s.rows[k], t.rows[k]) && RowLeq(t.rows[k], u.rows[k]);
    }
  }

  lemma BindKeeps(s: Saga, plan: Plan)
    requires SagaInv(s)
    ensures Bind(s, plan).Ok? ==> SagaInv(Bind(s, plan).saga) && SagaLeq(s, Bind(s, plan).saga)
  {
    if Bind(s, plan).Ok? && s.plan.None? {
      var t := Bind(s, plan).saga;
      assert t.rows[0].action == Pending;
      assert !AnyFailed(t.rows) && !AnyUnknown(t.rows);
    }
  }

  lemma AdvanceKeeps(row: StepRow, phase: Phase, guard: Option<Guard>)
    requires RowInv(row) && Admits(row, phase) && !CurrentPhaseMatches(phase, row)
    ensures RowInv(Advance(row, phase, guard)) && RowLeq(row, Advance(row, phase, guard))
    ensures phase == OutcomeUnknown <==> UnknownRow(Advance(row, phase, guard)) && !UnknownRow(row)
  {
  }

  /** Replacing one row by a later one keeps the steps coherent and takes nothing back. */
  lemma RowUpdateKeeps(s: Saga, k: nat, row: StepRow, state: SagaState)
    requires StepsInv(s) && k < |s.rows| && s.plan.Some? && RowInv(row) && RowLeq(s.rows[k], row)
    ensures var t := s.(rows := s.rows[k := row], state := state);
            StepsInv(t) && SagaLeq(s, t)
  {
  }

  lemma RecordKeepsSteps(s: Saga, r: Receipt)
    requires StepsInv(s)
    ensures Record(s, r).Ok? ==> StepsInv(Record(s, r).saga) && SagaLeq(s, Record(s, r).saga)
  {
    SagaLeqReflexive(s);
    if Record(s, r).Ok? && Record(s, r).saga != s {
      var k := r.sequence - 1;
      assert RowInv(s.rows[k]);
      AdvanceKeeps(s.rows[k], r.phase, r.guard);
      RowUpdateKeeps(s, k, Advance(s.rows[k], r.phase, r.guard), Record(s, r).saga.state);
    }
  }

  lemma RecordKeepsState(s: Saga, r: Receipt)
    requires SagaInv(s)
    ensures Record(s, r).Ok? ==> StateInv(Record(s, r).saga)
  {
    if Record(s, r).Ok? && Record(s, r).saga != s {
      var t := Record(s, r).saga;
      var k := r.sequence - 1;
      AdvanceKeeps(s.rows[k], r.phase, r.guard);
      if r.phase == OutcomeUnknown {
        assert UnknownRow(t.rows[k]);
      } else if !s.cancelRequested {
        assert !AnyUnknown(s.rows) && !UnknownRow(t.rows[k]);
      }
    }
  }

  /** Whatever receipt arrives, the journal stays coherent and nothing recorded is undone. */
  lemma RecordKeeps(s: Saga, r: Receipt)
    requires SagaInv(s)
    ensures Record(s, r).Ok? ==> SagaInv(Record(s, r).saga) && SagaLeq(s, Record(s, r).saga)
  {
    RecordKeepsSteps(s, r);
    RecordKeepsState(s, r);
  }

  // ---- the transitions, phase by phase ------------------------------------------------------------

  /** How an action moves: intent, then effect, then one settlement; a failure may also come before the effect. */
  predicate ActionEdge(from: ActionPhase, next: ActionPhase, never: bool) {
    match (from, next)
    case (Pending, Intent) => true
    case (Intent, Effect) => true
    case (Intent, Failed) => true
    case (Effect, Succeeded) => true
    case (Effect, Failed) => true
    case (Effect, Unknown) => never
    case _ => false
  }

  /** How a compensation moves: the same, and a failed one starts again or is given up, as its declaration says. */
  predicate CompEdge(from: CompPhase, next: CompPhase, never: bool) {
    match (from, next)
    case (CPending, CIntent) => true
    case (CIntent, CEffect) => true
    case (CEffect, CDone) => true
    case (CEffect, CFailed) => true
    case (CFailed, CIntent) => !never
    case (CEffect, CUnknown) => never
    case (CFailed, CUnknown) => never
    case _ => false
  }

  /** One receipt moves the action or the compensation of a row by one edge, and nothing else but the guard. */
  predicate RowEdge(row: StepRow, next: StepRow) {
    && next.plan == row.plan
    && if next.comp == row.comp then
         && ActionEdge(row.action, next.action, NeverAction(row))
         && (next.effectStarted <==> row.effectStarted || next.action == Effect)
         && (next.action == Unknown ==> !((row.comp == CEffect || row.comp == CFailed)))
       else
         && next.action == row.action && next.effectStarted == row.effectStarted
         && CompEdge(row.comp, next.comp, NeverComp(row) || (next.comp == CUnknown && row.action == Effect && NeverAction(row)))
         && (next.comp == CIntent ==> Eligible(row) && row.action in {Effect, Succeeded, Failed})
  }

  /** An accepted receipt changes the row it names by exactly one edge, fills in a missing guard, and leaves the rest. */
  lemma RecordTakesAnEdge(s: Saga, r: Receipt)
    requires StepsInv(s) && Record(s, r).Ok? && Record(s, r).saga != s
    ensures var t, k := Record(s, r).saga, r.sequence - 1;
            && 0 <= k < |s.rows| == |t.rows| && s.rows[k].plan.key == r.key && t.plan == s.plan
            && (forall l :: 0 <= l < |s.rows| && l != k ==> t.rows[l] == s.rows[l])
            && RowEdge(s.rows[k], t.rows[k])
            && t.rows[k].guard == (if s.rows[k].guard.Some? then s.rows[k].guard else r.guard)
            && (s.rows[k].guard.Some? && r.guard.Some? ==> s.rows[k].guard == r.guard)
  {
    assert RowInv(s.rows[r.sequence - 1]);
  }

  /** The receipt that takes an edge. */
  function PhaseOf(row: StepRow, next: StepRow): Phase {
    if next.action != row.action then
      match next.action
      case Pending => Unspecified
      case Intent => ActIntent
      case Effect => ActEffect
      case Succeeded => ActSucceeded
      case Failed => ActFailed
      case Unknown => OutcomeUnknown
    else
      match next.comp
      case CPending => Unspecified
      case CIntent => CompIntent
      case CEffect => CompEffect
      case CDone => CompDone
      case CFailed => CompFailed
      case CUnknown => OutcomeUnknown
  }

  /** Every edge is taken by a receipt, unless the saga is given up. */
  lemma EveryEdgeIsTaken(s: Saga, k: nat, next: StepRow)
    requires StepsInv(s) && s.plan.Some? && s.state != SUnknown && k < |s.rows|
    requires RowEdge(s.rows[k], next) && next.guard == s.rows[k].guard && !UnknownRow(s.rows[k])
    ensures var reply := Record(s, Receipt(k + 1, s.rows[k].plan.key, PhaseOf(s.rows[k], next), s.rows[k].guard, "", ""));
            reply.Ok? && reply.saga.rows == s.rows[k := next]
  {
    assert Size("") == 0;
    assert RowInv(s.rows[k]) && s.rows[k].plan == s.plan.value[k];
  }
}
