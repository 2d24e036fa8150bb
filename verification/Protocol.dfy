/**
 * The whole saga protocol: one work item at the server, every attempt ever granted a lease on it (dead,
 * stale or current), and the log of actions and compensators actually executed. Events interleave freely.
 */
module Protocol {
  import opened Text
  import opened SagaJournal
  import opened Attempts
  import opened AttemptInvariants
  import Brain

  datatype Kind = Action | Compensation

  /** The action or the compensator of step i. */
  datatype Act = Act(kind: Kind, i: int)

  datatype Deed = Deed(epoch: nat, act: Act)

  /** attempts[k] holds the lease of epoch k + 1; only the last one can still write. */
  datatype Sys = Sys(sv: Brain.Server, attempts: seq<Attempt>, log: seq<Deed>)

  datatype Event =
    | Tick(elapsed: nat)
    | CancelRun(modelEffects: bool)
    | ExpireDeadline
    | Grant(worker: string, id: string, program: Program)
    | ExtendLease(a: nat)
    | CompleteWork(a: nat)
    | FailWork(a: nat)
    | Turn(a: nat, contextDone: bool)             // a loop head
    | Call(a: nat)                                // the next journal call, answered
    | Crash(a: nat)                               // the process dies, or its call fails on the client side
    | Late(a: nat)                                // a call of a dead attempt reaches the server after all
    | Perform(a: nat, error: Option<string>)      // the action or compensator the attempt stands before

  function Start(runDeadline: Option<int>, now: int): Sys {
    Sys(Brain.NewServer(runDeadline, now), [], [])
  }

  /** The deed an attempt stands before. */
  function Due(pc: Pc): Option<Act> {
    match pc
    case Run(i) => Some(Act(Action, i))
    case Undo(j, _, _) => Some(Act(Compensation, j))
    case _ => None
  }

  /** A journal call through the supervisor's broker: a bind of the plan it already caches is answered locally. */
  function Called(s: Sys, a: nat): Sys
    requires a < |s.attempts| && NextCall(s.attempts[a]).Some?
  {
    var at := s.attempts[a];
    var request := NextCall(at).value;
    if request.BindReq? && at.snap.plan == Some(request.plan) then
      s.(attempts := s.attempts[a := AfterReply(at, at.snap)])
    else
      var reply := Brain.ReportReply(s.sv, at.lease, request);
      if reply.Ok? then
        s.(sv := s.sv.(saga := reply.saga), attempts := s.attempts[a := AfterReply(at, reply.saga)])
      else
        s.(attempts := s.attempts[a := at.(pc := Done(JournalError))])
  }

  /** The server handles a call nobody waits for any more. */
  function CalledLate(s: Sys, a: nat): Sys
    requires a < |s.attempts| && NextCall(s.attempts[a]).Some?
  {
    var at := s.attempts[a];
    Sys(Brain.Step(s.sv, Brain.Report(at.lease, NextCall(at).value)),
        s.attempts[a := at.(pc := Done(JournalError))], s.log)
  }

  function FailText(name: string): string {
    "step " + name + " failed"
  }

  function ActionError(at: Attempt, error: Option<string>): Option<string> {
    match at.pc
    case Run(i) =>
      if i < |at.program.steps| && at.program.steps[i].fail
      then Some(FailText(at.program.steps[i].name))
      else error
    case _ => error
  }

  function Next(s: Sys, e: Event): Sys {
    match e
    case Tick(elapsed) => s.(sv := Brain.Step(s.sv, Brain.Tick(elapsed)))
    case CancelRun(modelEffects) => s.(sv := Brain.Step(s.sv, Brain.Cancel(modelEffects)))
    case ExpireDeadline => s.(sv := Brain.Step(s.sv, Brain.ExpireDeadline))
    case Grant(worker, id, program) =>
      if !Brain.Grantable(s.sv) then s
      else
        var sv := Brain.Step(s.sv, Brain.Grant(worker, id));
        s.(sv := sv, attempts := s.attempts + [Attempt(sv.item.lease, program, sv.saga, Init, true)])
    case ExtendLease(a) =>
      if a >= |s.attempts| then s else s.(sv := Brain.Step(s.sv, Brain.Extend(s.attempts[a].lease)))
    case CompleteWork(a) =>
      if a >= |s.attempts| then s else s.(sv := Brain.Step(s.sv, Brain.Complete(s.attempts[a].lease)))
    case FailWork(a) =>
      if a >= |s.attempts| then s else s.(sv := Brain.Step(s.sv, Brain.FailWork(s.attempts[a].lease)))
    case Turn(a, contextDone) =>
      if a >= |s.attempts| || !s.attempts[a].alive then s
      else s.(attempts := s.attempts[a := Think(s.attempts[a], contextDone)])
    case Call(a) =>
      if a >= |s.attempts| || !s.attempts[a].alive || NextCall(s.attempts[a]).None? then s else Called(s, a)
    case Crash(a) =>
      if a >= |s.attempts| then s else s.(attempts := s.attempts[a := s.attempts[a].(alive := false)])
    case Late(a) =>
      if a >= |s.attempts| || s.attempts[a].alive || NextCall(s.attempts[a]).None? then s
      else CalledLate(s, a)
    case Perform(a, error) =>
      if a >= |s.attempts| || !s.attempts[a].alive || Due(s.attempts[a].pc).None? then s
      else
        var at := s.attempts[a];
        s.(attempts := s.attempts[a := AfterAction(at, ActionError(at, error))],
           log := s.log + [Deed(at.lease.epoch, Due(at.pc).value)])
  }

  function Exec(s: Sys, es: seq<Event>): Sys {
    if es == [] then s else Next(Exec(s, es[..|es| - 1]), es[|es| - 1])
  }

  // ---- the invariant ----------------------------------------------------------------------------

  predicate ServerInv(s: Sys) {
    Brain.Inv(s.sv) && ExecRows(s.sv.saga.rows)
  }

  predicate LeasesInv(s: Sys) {
    && s.sv.item.lease.epoch == |s.attempts|
    && (forall a :: 0 <= a < |s.attempts| ==> s.attempts[a].lease.epoch == a + 1)
    && (s.attempts != [] ==> s.attempts[|s.attempts| - 1].lease == s.sv.item.lease)
  }

  predicate AttemptsInv(s: Sys) {
    forall a :: 0 <= a < |s.attempts| ==> AttemptInv(s.attempts[a]) && SagaLeq(s.attempts[a].snap, s.sv.saga)
  }

  /** Past the bind, and not stopped by an unknown outcome or a failed call. */
  predicate Unsettled(pc: Pc) {
    match pc
    case Init => false
    case Done(ErrUnknown) => false
    case Done(JournalError) => false
    case Done(PlanRefused) => false
    case _ => true
  }

  /** Whoever still has a call to make, and holds the lease, knows the journal exactly. */
  predicate Fresh(at: Attempt, saga: Saga) {
    && (at.pc != Done(JournalError) ==> at.snap.rows == saga.rows && at.snap.plan == saga.plan)
    && (at.pc.Init? && saga.state == SUnknown ==> at.snap.state == SUnknown)
    && (Unsettled(at.pc) ==> saga.state != SUnknown)
  }

  predicate HolderInv(s: Sys) {
    s.attempts != [] ==> Fresh(s.attempts[|s.attempts| - 1], s.sv.saga)
  }

  /** Declared never to be replayed. */
  predicate Once(rows: seq<StepRow>, act: Act) {
    && 0 <= act.i < |rows|
    && if act.kind == Action then NeverAction(rows[act.i]) else NeverComp(rows[act.i])
  }

  /** The effect boundary of a deed is on record; a never-replay deed has left everything before it behind. */
  predicate Committed(rows: seq<StepRow>, act: Act) {
    && 0 <= act.i < |rows|
    && if act.kind == Action then
         && rows[act.i].effectStarted
         && (NeverAction(rows[act.i]) ==> rows[act.i].action != Pending && rows[act.i].action != Intent)
       else
         && rows[act.i].comp != CPending
         && (NeverComp(rows[act.i]) ==> rows[act.i].comp != CIntent)
  }

  predicate OnceInv(s: Sys) {
    var rows := s.sv.saga.rows;
    && (forall p :: 0 <= p < |s.log| ==> Committed(rows, s.log[p].act))
    && (forall a :: 0 <= a < |s.attempts| && Due(s.attempts[a].pc).Some? ==>
          Committed(rows, Due(s.attempts[a].pc).value))
    && (forall p, q :: 0 <= p < q < |s.log| && s.log[p].act == s.log[q].act ==> !Once(rows, s.log[p].act))
    && (forall a, p :: 0 <= a < |s.attempts| && 0 <= p < |s.log| && Due(s.attempts[a].pc) == Some(s.log[p].act) ==>
          !Once(rows, s.log[p].act))
    && (forall a, b :: 0 <= a < b < |s.attempts| && Due(s.attempts[a].pc).Some?
                       && Due(s.attempts[a].pc) == Due(s.attempts[b].pc) ==>
          !Once(rows, Due(s.attempts[a].pc).value))
  }

  /** The order of deeds within one attempt: actions upwards, then compensators strictly downwards. */
  predicate Before(x: Act, y: Act) {
    match (x.kind, y.kind)
    case (Action, Action) => x.i < y.i
    case (Action, Compensation) => true
    case (Compensation, Action) => false
    case (Compensation, Compensation) => x.i > y.i
  }

  /** An attempt at this program counter may already have done `act`. */
  predicate Passed(pc: Pc, act: Act) {
    match pc
    case Init => false
    case Head(i) => act.kind == Action && act.i < i
    case SendIntent(i) => act.kind == Action && act.i < i
    case SendEffect(i) => act.kind == Action && act.i < i
    case Run(i) => act.kind == Action && act.i < i
    case SendSucceeded(i) => act.kind == Action && act.i <= i
    case SendFailed(i, _, _) => act.kind == Action && act.i <= i
    case CompHead(j, _, _) => act.kind == Action || act.i > j
    case SendCompIntent(j, _, _) => act.kind == Action || act.i > j
    case SendCompEffect(j, _, _) => act.kind == Action || act.i > j
    case Undo(j, _, _) => act.kind == Action || act.i > j
    case SendCompDone(j, _, _) => act.kind == Action || act.i >= j
    case _ => true
  }

  predicate OrderInv(s: Sys) {
    && (forall p :: 0 <= p < |s.log| ==> 1 <= s.log[p].epoch <= |s.attempts|)
    && (forall p :: 0 <= p < |s.log| && 1 <= s.log[p].epoch <= |s.attempts| ==>
          Passed(s.attempts[s.log[p].epoch - 1].pc, s.log[p].act))
    && (forall p, q :: 0 <= p < q < |s.log| && s.log[p].epoch == s.log[q].epoch ==> Before(s.log[p].act, s.log[q].act))
  }

  predicate Inv(s: Sys) {
    ServerInv(s) && LeasesInv(s) && AttemptsInv(s) && HolderInv(s) && OnceInv(s) && OrderInv(s)
  }
}
