/**
 * One attempt at running a saga (agents/runtime/saga.go), as a program counter over the points where the
 * executor meets the outside world: a journal call, an action, a compensator, or a loop head.
 */
module Attempts {
  import opened Text
  import opened SagaJournal
  import opened Brain

  /** A step as the executor holds it; Run and Compensate are known only by what they return. */
  datatype StepDef = StepDef(
    name: string, replay: string, compensationReplay: string, hasCompensate: bool,
    dangerous: bool, fail: bool, memBytes: nat)

  /** The arguments of ExecuteRecoverable. */
  datatype Program = Program(steps: seq<StepDef>, sandbox: bool, limit: ResourceLimit)

  /** Why a compensation pass was started. */
  datatype Why = StepFailed | ContextDone | CancelSeen

  /** What ExecuteRecoverable returns. */
  datatype Result =
    | Nil
    | Cause(why: Why, last: int)      // the cause itself, after a complete pass over steps 0..last
    | ErrUnknown                      // ErrOutcomeUnknown
    | CompensatorFailed
    | JournalError                    // a journal call failed, or the process died
    | GuardClash
    | PlanRefused                     // buildSagaPlan failed, or the snapshot is for another plan

  datatype Pc =
    | Init
    | Head(i: nat)
    | SendIntent(i: nat)
    | SendEffect(i: nat)
    | Run(i: nat)
    | SendSucceeded(i: nat)
    | SendFailed(i: nat, error: string, last: int)
    | CompHead(j: int, last: int, why: Why)
    | SendCompIntent(j: int, last: int, why: Why)
    | SendCompEffect(j: int, last: int, why: Why)
    | Undo(j: int, last: int, why: Why)
    | SendCompDone(j: int, last: int, why: Why)
    | SendCompFailed(j: int, error: string)
    | SendUnknown(j: int, reason: string)
    | Done(result: Result)

  /** `snap` is the snapshot the supervisor's broker caches and the executor works from. */
  datatype Attempt = Attempt(lease: Lease, program: Program, snap: Saga, pc: Pc, alive: bool)

  const LOST_ACTION := "action settlement missing after effect started"
  const LOST_COMPENSATION := "compensation settlement missing or failed after effect started"

  function NormalizeReplay(policy: string): Replay {
    if policy == "safe" then Safe else if policy == "idempotent" then Idempotent else NeverReplay
  }

  function StepPlanFor(step: StepDef, i: nat): StepPlan {
    StepPlan(i + 1, step.name, NormalizeReplay(step.replay), step.hasCompensate,
             NormalizeReplay(step.compensationReplay))
  }

  /** buildSagaPlan: refused when a name is empty or repeated. */
  function PlanFor(steps: seq<StepDef>): Option<Plan> {
    if && (forall k :: 0 <= k < |steps| ==> steps[k].name != "")
       && (forall k, l :: 0 <= k < l < |steps| ==> steps[k].name != steps[l].name)
    then Some(seq(|steps|, k requires 0 <= k < |steps| => StepPlanFor(steps[k], k)))
    else None
  }

  /** validateStepGuard with no call budget: it depends on what the guard digest covers, and nothing else. */
  predicate GuardPasses(g: Guard) {
    && !(g.dangerous && !g.sandbox)
    && !(g.limit.memoryBytes > 0 && g.memBytes > g.limit.memoryBytes)
  }

  function GuardError(name: string, g: Guard): string {
    if g.dangerous && !g.sandbox then "dangerous step " + name + ": failed_precondition" else "resource_exhausted"
  }

  /** sagaStepAt */
  function StepAt(snap: Saga, i: int, name: string): Option<StepRow> {
    if i < 0 || i >= |snap.rows| then None
    else if snap.rows[i].plan.sequence != i + 1 || snap.rows[i].plan.key != name then None
    else Some(snap.rows[i])
  }

  /** stepGuardDigest */
  function GuardAt(pg: Program, i: int): Guard
    requires 0 <= i < |pg.steps|
  {
    Guard(pg.steps[i].dangerous, pg.steps[i].fail, pg.steps[i].memBytes, pg.sandbox, pg.limit)
  }

  /** The intent of step i is on record: check the guard, then cross the effect boundary if not yet crossed. */
  function AfterIntent(pg: Program, i: nat, crossed: bool): Pc
    requires i < |pg.steps|
  {
    var g := GuardAt(pg, i);
    if !GuardPasses(g) then SendFailed(i, GuardError(pg.steps[i].name, g), i - 1)
    else if crossed then Run(i)
    else SendEffect(i)
  }

  /** One turn of the forward loop. */
  function Forward(pg: Program, snap: Saga, i: nat, contextDone: bool): Pc {
    if i >= |pg.steps| then Done(Nil)
    else
      var found := StepAt(snap, i, pg.steps[i].name);
      if found.None? then Done(PlanRefused)
      else
        var row := found.value;
        if row.action == Succeeded then Head(i + 1)
        else if row.action == Failed then
          var last := if row.effectStarted then i else i - 1;
          CompHead(last, last, StepFailed)
        else if row.action == Unknown then Done(ErrUnknown)
        else if row.action == Effect && row.plan.actionReplay == NeverReplay then SendUnknown(i, LOST_ACTION)
        else if row.guard.Some? && row.guard.value != GuardAt(pg, i) then Done(GuardClash)
        else if contextDone then CompHead(i - 1, i - 1, ContextDone)
        else if row.action == Pending then SendIntent(i)
        else AfterIntent(pg, i, row.action == Effect)
  }

  /** One turn of the compensation loop. */
  function Backward(pg: Program, snap: Saga, j: int, last: int, why: Why): Pc {
    if j < 0 then Done(Cause(why, last))
    else if j >= |pg.steps| then Done(PlanRefused)
    else
      var found := StepAt(snap, j, pg.steps[j].name);
      if found.None? then Done(PlanRefused)
      else
        var row := found.value;
        var neverComp := row.plan.compensationReplay == NeverReplay;
        if !pg.steps[j].hasCompensate || !row.effectStarted then CompHead(j - 1, last, why)
        else if row.action == Effect && row.plan.actionReplay == NeverReplay then SendUnknown(j, LOST_ACTION)
        else
          match row.comp
          case CDone => CompHead(j - 1, last, why)
          case CUnknown => Done(ErrUnknown)
          case CEffect => if neverComp then SendUnknown(j, LOST_COMPENSATION) else Undo(j, last, why)
          case CFailed => if neverComp then SendUnknown(j, LOST_COMPENSATION) else SendCompIntent(j, last, why)
          case CPending => SendCompIntent(j, last, why)
          case CIntent => SendCompEffect(j, last, why)
  }

  function AfterBind(pg: Program, snap: Saga): Pc {
    if snap.plan != PlanFor(pg.steps) then Done(PlanRefused)
    else if snap.state == SUnknown then Done(ErrUnknown)
    else if snap.cancelRequested then CompHead(|pg.steps| - 1, |pg.steps| - 1, CancelSeen)
    else Head(0)
  }

  function ReceiptFor(pg: Program, i: int, phase: Phase, guarded: bool, error: string): Receipt
    requires 0 <= i < |pg.steps|
  {
    Receipt(i + 1, pg.steps[i].name, phase, if guarded then Some(GuardAt(pg, i)) else None,
            if phase == ActSucceeded || phase == CompDone then "ok" else "", error)
  }

  /** What a program counter puts on the wire: step, phase, whether the guard digest goes along, error text. */
  datatype Wire = Quiet | Wire(i: int, phase: Phase, guarded: bool, error: string)

  function Outgoing(pc: Pc): Wire {
    match pc
    case SendIntent(i) => Wire(i, ActIntent, true, "")
    case SendEffect(i) => Wire(i, ActEffect, true, "")
    case SendSucceeded(i) => Wire(i, ActSucceeded, true, "")
    case SendFailed(i, error, _) => Wire(i, ActFailed, true, error)
    case SendCompIntent(j, _, _) => Wire(j, CompIntent, false, "")
    case SendCompEffect(j, _, _) => Wire(j, CompEffect, false, "")
    case SendCompDone(j, _, _) => Wire(j, CompDone, false, "")
    case SendCompFailed(j, error) => Wire(j, CompFailed, false, error)
    case SendUnknown(j, reason) => Wire(j, OutcomeUnknown, false, reason)
    case _ => Quiet
  }

  /** The journal call the attempt is about to make, if any. */
  function NextCall(at: Attempt): Option<Request> {
    if at.pc.Init? then
      var plan := PlanFor(at.program.steps);
      if plan.Some? then Some(BindReq(plan.value)) else None
    else
      match Outgoing(at.pc)
      case Quiet => None
      case Wire(i, phase, guarded, error) =>
        if 0 <= i < |at.program.steps| then Some(RecordReq(ReceiptFor(at.program, i, phase, guarded, error))) else None
  }

  /** Where the attempt goes once its call was accepted and answered with `snap`. */
  function AfterReply(at: Attempt, snap: Saga): Attempt {
    var at' := at.(snap := snap);
    var pc :=
      match at.pc
      case Init => AfterBind(at.program, snap)
      case SendIntent(i) =>
        if snap.cancelRequested then CompHead(i - 1, i - 1, CancelSeen)
        else if i < |at.program.steps| then AfterIntent(at.program, i, false)
        else Done(PlanRefused)
      case SendEffect(i) => Run(i)
      case SendSucceeded(i) => if snap.cancelRequested then CompHead(i, i, CancelSeen) else Head(i + 1)
      case SendFailed(_, _, last) => CompHead(last, last, StepFailed)
      case SendCompIntent(j, last, why) => SendCompEffect(j, last, why)
      case SendCompEffect(j, last, why) => Undo(j, last, why)
      case SendCompDone(j, last, why) => CompHead(j - 1, last, why)
      case SendCompFailed(j, error) =>
        if 0 <= j < |snap.rows| && snap.rows[j].plan.compensationReplay == NeverReplay then SendUnknown(j, error)
        else Done(CompensatorFailed)
      case SendUnknown(_, _) => Done(ErrUnknown)
      case other => other;
    at'.(pc := pc)
  }

  /** Loop heads move without meeting anyone. */
  function Think(at: Attempt, contextDone: bool): Attempt {
    match at.pc
    case Init => if PlanFor(at.program.steps).None? then at.(pc := Done(PlanRefused)) else at
    case Head(i) => at.(pc := Forward(at.program, at.snap, i, contextDone))
    case CompHead(j, last, why) => at.(pc := Backward(at.program, at.snap, j, last, why))
    case _ => at
  }

  function AfterAction(at: Attempt, error: Option<string>): Attempt {
    match at.pc
    case Run(i) => at.(pc := if error.Some? then SendFailed(i, error.value, i) else SendSucceeded(i))
    case Undo(j, last, why) => at.(pc := if error.Some? then SendCompFailed(j, error.value) else SendCompDone(j, last, why))
    case _ => at
  }
}
