/**
 * ExecuteRecoverable and compensateRecoverable as the loops they are, run against the whole protocol: before
 * every journal call and every effect the rest of the world may do anything. Each is proved to walk exactly the
 * program counters of `Attempts`, so every result about the protocol is a result about this code.
 */
module RecoverableRun {
  import opened Text
  import opened SagaJournal
  import opened Attempts
  import opened AttemptInvariants
  import opened Protocol
  import opened ProtocolEvents
  import SagaTheorems
  import Brain

  /** Everything the executor cannot decide: interference, its context, and what actions and compensators return. */
  datatype World = World(
    before: nat -> seq<Event>, contextDone: nat -> bool, run: nat -> Option<string>, undo: nat -> Option<string>)

  /** An event that is not a step of attempt `a` itself. */
  predicate Foreign(e: Event, a: nat) {
    match e
    case Turn(b, _) => b != a
    case Call(b) => b != a
    case Crash(b) => b != a
    case Late(b) => b != a
    case Perform(b, _) => b != a
    case _ => true
  }

  lemma ForeignLeavesAlone(s: Sys, e: Event, a: nat)
    requires a < |s.attempts| && Foreign(e, a)
    ensures a < |Next(s, e).attempts| && Next(s, e).attempts[a] == s.attempts[a]
  {
  }

  /** The broker answers the call itself. */
  predicate Cached(at: Attempt) {
    at.pc.Init? && at.snap.plan == PlanFor(at.program.steps)
  }

  /** The snapshot a call is answered with, if it is answered. */
  function Answered(s: Sys, a: nat): Option<Saga>
    requires a < |s.attempts| && NextCall(s.attempts[a]).Some?
  {
    var at := s.attempts[a];
    if Cached(at) then Some(at.snap)
    else if ReplyTo(s, a).Ok? then Some(ReplyTo(s, a).saga)
    else None
  }

  /** What a call leaves behind, for the caller and at the server. */
  lemma CallOutcome(s: Sys, a: nat)
    requires a < |s.attempts| && s.attempts[a].alive && NextCall(s.attempts[a]).Some?
    ensures var s' := Next(s, Call(a));
            && |s'.attempts| == |s.attempts|
            && s'.sv == s.sv.(saga := s'.sv.saga)
            && s'.sv.saga.cancelRequested == s.sv.saga.cancelRequested
            && (Answered(s, a).Some? ==> s'.attempts[a] == AfterReply(s.attempts[a], Answered(s, a).value))
            && (Cached(s.attempts[a]) ==> s'.sv == s.sv)
            && (!Cached(s.attempts[a]) && Answered(s, a).Some? ==> s'.sv.saga == Answered(s, a).value)
            && (Answered(s, a).None? ==> s'.attempts[a] == s.attempts[a].(pc := Done(JournalError)) && s'.sv == s.sv)
  {
  }

  lemma TurnOutcome(s: Sys, a: nat, contextDone: bool)
    requires a < |s.attempts| && s.attempts[a].alive
    ensures var s' := Next(s, Turn(a, contextDone));
            && |s'.attempts| == |s.attempts|
            && s'.sv == s.sv
            && s'.attempts[a] == Think(s.attempts[a], contextDone)
  {
  }

  lemma PerformOutcome(s: Sys, a: nat, error: Option<string>)
    requires a < |s.attempts| && s.attempts[a].alive && Due(s.attempts[a].pc).Some?
    ensures var s' := Next(s, Perform(a, error));
            && |s'.attempts| == |s.attempts|
            && s'.sv == s.sv
            && s'.attempts[a] == AfterAction(s.attempts[a], ActionError(s.attempts[a], error))
  {
  }

  /** Undisturbed, the lease holder's receipt is answered unless its error text is too large or it undoes an unknown step. */
  lemma UndisturbedCall(s: Sys, a: nat)
    requires Known(s, a) && a == |s.attempts| - 1 && Brain.Live(s.sv, s.attempts[a].lease)
    requires Outgoing(s.attempts[a].pc).Wire?
    ensures var at := s.attempts[a];
            && NextCall(at).Some? && 0 <= Outgoing(at.pc).i < |s.sv.saga.rows| == |at.program.steps|
            && at.snap.rows == s.sv.saga.rows
            && ReplyTo(s, a) == AnswerTo(at, s.sv.saga)
            && (UndoesUnknown(at) ==> s.sv.saga.cancelRequested)
  {
    SagaTheorems.ReceiptAt(s, a);
    HolderCall(s.attempts[a], s.sv.saga);
  }

  /** Undisturbed, an acceptable plan binds. */
  lemma UndisturbedBind(s: Sys, a: nat)
    requires Known(s, a) && a == |s.attempts| - 1 && Brain.Live(s.sv, s.attempts[a].lease)
    requires s.attempts[a].pc.Init? && NextCall(s.attempts[a]).Some?
    requires Acceptable(s.attempts[a].program, s.sv.saga)
    ensures s.attempts[a].snap.plan == s.sv.saga.plan
    ensures Answered(s, a) == Some(
              if s.sv.saga.plan.Some? then s.attempts[a].snap else Bind(s.sv.saga, PlanFor(s.attempts[a].program.steps).value).saga)
    ensures Answered(s, a).value.rows == RowsAtBind(s.attempts[a].program, s.sv.saga)
    ensures Answered(s, a).value.cancelRequested ==> s.sv.saga.cancelRequested
    ensures !s.sv.saga.cancelRequested ==> (Answered(s, a).value.state == SUnknown <==> s.sv.saga.state == SUnknown)
  {
  }

  /** The cancel is in the snapshot that came with the lease, or the plan is yet to be bound. */
  predicate Forewarned(at: Attempt) {
    at.snap.plan.None? || at.snap.cancelRequested
  }

  /** The rows an attempt finds after binding. */
  function RowsAtBind(pg: Program, saga: Saga): seq<StepRow> {
    if saga.plan.Some? || PlanFor(pg.steps).None? then saga.rows else FreshRows(PlanFor(pg.steps).value)
  }

  /** The plan is one the journal takes, and no other plan is bound. */
  predicate Acceptable(pg: Program, saga: Saga) {
    && PlanFor(pg.steps).Some?
    && ValidPlan(PlanFor(pg.steps).value)
    && (saga.plan.None? || saga.plan == PlanFor(pg.steps))
  }

  /** One more event of a run. */
  lemma Longer(runDeadline: Option<int>, now: int, es: seq<Event>, e: Event)
    ensures SagaTheorems.Reached(runDeadline, now, es + [e]) == Next(SagaTheorems.Reached(runDeadline, now, es), e)
  {
    assert (es + [e])[..|es|] == es;
  }

  /** The journal as one attempt meets it; `trace` is the run of the protocol so far. */
  class Journal {
    var sys: Sys
    var calls: nat
    ghost var trace: seq<Event>
    const a: nat
    const world: World
    ghost const runDeadline: Option<int>
    ghost const now: int

    constructor (runDeadline: Option<int>, now: int, trace: seq<Event>, a: nat, world: World)
      requires var s := SagaTheorems.Reached(runDeadline, now, trace);
               a < |s.attempts| && s.attempts[a].alive
      ensures Valid() && sys == SagaTheorems.Reached(runDeadline, now, trace) && this.a == a && this.world == world
    {
      this.sys := SagaTheorems.Reached(runDeadline, now, trace);
      this.calls, this.trace, this.a, this.world := 0, trace, a, world;
      this.runDeadline, this.now := runDeadline, now;
    }

    /** The state is reached by a run of the protocol, and the attempt is alive in it. */
    ghost predicate Valid()
      reads this
    {
      && sys == SagaTheorems.Reached(runDeadline, now, trace)
      && a < |sys.attempts| && sys.attempts[a].alive
    }

    function Me(): Attempt
      reads this
      requires a < |sys.attempts|
    {
      sys.attempts[a]
    }

    /** Alone at the server with a live lease, and compensators that work. */
    ghost predicate Quiet()
      reads this
    {
      && (forall k :: world.before(k) == [] && world.undo(k).None?)
      && a < |sys.attempts| && a == |sys.attempts| - 1
      && Brain.Live(sys.sv, sys.attempts[a].lease)
    }

    /** And no cancel. */
    ghost predicate Calm()
      reads this
    {
      Quiet() && !sys.sv.saga.cancelRequested
    }

    method Happen(e: Event)
      requires sys == SagaTheorems.Reached(runDeadline, now, trace)
      modifies this`sys, this`trace
      ensures sys == Next(old(sys), e) == SagaTheorems.Reached(runDeadline, now, trace)
    {
      Longer(runDeadline, now, trace, e);
      sys := Next(sys, e);
      trace := trace + [e];
    }

    /** The rest of the world runs. */
    method Interfere()
      requires Valid()
      modifies this
      ensures Valid() && Me() == old(Me())
      ensures old(Quiet()) ==> sys == old(sys)
    {
      var es := world.before(calls);
      calls := calls + 1;
      var n := 0;
      while n < |es|
        invariant n <= |es|
        invariant Valid() && Me() == old(Me())
        invariant n == 0 ==> sys == old(sys)
      {
        if Foreign(es[n], a) {
          ForeignLeavesAlone(sys, es[n], a);
          Happen(es[n]);
        }
        n := n + 1;
      }
    }

    /** The attempt's own silent move. */
    method Turn(contextDone: bool)
      requires Valid()
      modifies this
      ensures Valid() && Me() == Think(old(Me()), contextDone)
      ensures sys.sv == old(sys.sv) && |sys.attempts| == old(|sys.attempts|)
    {
      TurnOutcome(sys, a, contextDone);
      Happen(Event.Turn(a, contextDone));
    }

    /** One journal call of the attempt, with whatever happens before the server gets to it. */
    method Exchange() returns (reply: Option<Saga>)
      requires Valid() && NextCall(Me()).Some?
      modifies this
      ensures Valid()
      ensures reply.Some? ==> Me() == AfterReply(old(Me()), reply.value)
      ensures reply.None? ==> Me() == old(Me()).(pc := Done(JournalError))
      ensures old(Quiet()) ==>
                && Quiet() && reply == old(Answered(sys, a)) && (reply.None? ==> sys.sv == old(sys.sv))
                && sys.sv.saga.cancelRequested == old(sys.sv.saga.cancelRequested)
                && (old(Cached(Me())) ==> sys.sv == old(sys.sv))
                && (!old(Cached(Me())) && reply.Some? ==> sys.sv.saga == reply.value)
    {
      Interfere();
      reply := Answered(sys, a);
      CallOutcome(sys, a);
      Happen(Call(a));
    }

    /** Run the action or compensator the attempt stands before. */
    method Perform(outcome: Option<string>) returns (error: Option<string>)
      requires Valid() && Due(Me().pc).Some?
      modifies this
      ensures Valid()
      ensures error == ActionError(old(Me()), outcome) && Me() == AfterAction(old(Me()), error)
      ensures old(Quiet()) ==> Quiet() && sys.sv == old(sys.sv)
    {
      Interfere();
      error := ActionError(Me(), outcome);
      PerformOutcome(sys, a, outcome);
      Happen(Event.Perform(a, outcome));
    }

    /** What the protocol's invariant says about this attempt. */
    lemma Facts()
      requires Valid()
      ensures Known(sys, a)
    {
      SagaTheorems.ReachedInv(runDeadline, now, trace);
      Know(sys, a);
    }
  }

  method BuildSagaPlan(steps: seq<StepDef>) returns (plan: Option<Plan>)
    ensures plan == PlanFor(steps)
    ensures plan.None? <==>
            || (exists k :: 0 <= k < |steps| && steps[k].name == "")
            || exists k, l :: 0 <= k < l < |steps| && steps[k].name == steps[l].name
  {
    var built: Plan := [];
    var seen: set<string> := {};
    for i := 0 to |steps|
      invariant |built| == i && forall k :: 0 <= k < i ==> built[k] == StepPlanFor(steps[k], k)
      invariant seen == set k | 0 <= k < i :: steps[k].name
      invariant forall k :: 0 <= k < i ==> steps[k].name != ""
      invariant forall k, l :: 0 <= k < l < i ==> steps[k].name != steps[l].name
    {
      if steps[i].name == "" || steps[i].name in seen {
        assert PlanFor(steps).None? by {
          if steps[i].name != "" {
            var k :| 0 <= k < i && steps[k].name == steps[i].name;
          }
        }
        return None;
      }
      seen := seen + {steps[i].name};
      built := built + [StepPlanFor(steps[i], i)];
    }
    plan := Some(built);
    assert built == PlanFor(steps).value;
  }

  /** What an accepted unknown outcome changes. */
  lemma UnknownFrame(at: Attempt, saga: Saga)
    requires at.pc.SendUnknown? && 0 <= at.pc.j < |saga.rows| == |at.program.steps| && Size(at.pc.reason) <= MAX_TEXT
    ensures var reply := AnswerTo(at, saga);
            && reply.Ok? && reply.saga.state == SUnknown && reply.saga.cancelRequested == saga.cancelRequested
            && OnlyRow(saga.rows, reply.saga.rows, at.pc.j)
  {
  }

  /** markOutcomeUnknown */
  method MarkOutcomeUnknown(j: Journal, i: nat, reason: string) returns (result: Result)
    requires j.Valid() && i < |j.Me().program.steps| && j.Me().pc == SendUnknown(i, reason)
    modifies j
    ensures j.Valid() && j.Me().pc == Done(result)
    ensures old(j.Quiet()) && 4 * |reason| <= MAX_TEXT ==>
              && j.Quiet() && j.sys.sv.saga.cancelRequested == old(j.sys.sv.saga.cancelRequested)
              && result == ErrUnknown && j.sys.sv.saga.state == SUnknown
              && OnlyRow(old(j.Me().snap.rows), j.sys.sv.saga.rows, i)
  {
    SizeBounds(reason);
    if j.Quiet() && 4 * |reason| <= MAX_TEXT {
      j.Facts();
      UndisturbedCall(j.sys, j.a);
      UnknownFrame(j.Me(), j.sys.sv.saga);
    }
    var reply := j.Exchange();
    result := if reply.None? then JournalError else ErrUnknown;
  }

  /** A turn of either loop looks at a row of the bound plan. */
  lemma RowForTurn(j: Journal, i: int)
    requires j.Valid()
    requires var pc := j.Me().pc;
             (pc.CompHead? && pc.j == i >= 0) || (pc.Head? && pc.i == i < |j.Me().program.steps|)
    ensures 0 <= i < |j.Me().program.steps| == |j.Me().snap.rows|
    ensures StepAt(j.Me().snap, i, j.Me().program.steps[i].name) == Some(j.Me().snap.rows[i])
  {
    j.Facts();
  }

  /** At most row i differs. */
  predicate OnlyRow(before: seq<StepRow>, after: seq<StepRow>, i: int) {
    && |before| == |after|
    && (forall k :: 0 <= k < |before| && k != i ==> after[k] == before[k])
  }

  /** At most row i differs, and its compensation not. */
  predicate OnlyAction(before: seq<StepRow>, after: seq<StepRow>, i: int) {
    && OnlyRow(before, after, i)
    && (0 <= i < |before| ==> after[i].plan == before[i].plan && after[i].comp == before[i].comp)
  }

  /** The state column is the one the rows stand for. */
  predicate Refreshed(saga: Saga) {
    saga.state == StateOf(saga.rows, saga.cancelRequested)
  }

  /** What an accepted receipt changes. */
  lemma AnswerFrame(at: Attempt, saga: Saga)
    requires Outgoing(at.pc).Wire? && 0 <= Outgoing(at.pc).i < |saga.rows| == |at.program.steps|
    requires AnswerTo(at, saga).Ok? && !at.pc.SendUnknown?
    ensures var next := AnswerTo(at, saga).saga;
            && Refreshed(next) && next.cancelRequested == saga.cancelRequested
            && OnlyRow(saga.rows, next.rows, Outgoing(at.pc).i)
            && (at.pc.SendIntent? || at.pc.SendEffect? || at.pc.SendSucceeded? ==>
                  OnlyAction(saga.rows, next.rows, Outgoing(at.pc).i))
  {
  }

  /** A journal call without error text: undisturbed, it is answered unless it undoes an unknown step. */
  method Send(j: Journal) returns (reply: Option<Saga>)
    requires j.Valid() && NextCall(j.Me()).Some? && Outgoing(j.Me().pc).Wire? && Outgoing(j.Me().pc).error == ""
    requires !j.Me().pc.SendUnknown?
    modifies j
    ensures j.Valid()
    ensures reply.Some? ==> j.Me() == AfterReply(old(j.Me()), reply.value)
    ensures reply.None? ==> j.Me() == old(j.Me()).(pc := Done(JournalError))
    ensures old(j.Quiet()) ==>
              && j.Quiet() && j.sys.sv.saga.cancelRequested == old(j.sys.sv.saga.cancelRequested)
              && (reply.Some? <==> !old(UndoesUnknown(j.Me())))
              && (reply.None? ==> j.sys.sv == old(j.sys.sv) && j.sys.sv.saga.cancelRequested)
              && (reply.Some? ==>
                    && j.sys.sv.saga == reply.value && Refreshed(reply.value)
                    && OnlyRow(old(j.Me().snap.rows), reply.value.rows, old(Outgoing(j.Me().pc).i))
                    && (old(j.Me().pc.SendIntent? || j.Me().pc.SendEffect? || j.Me().pc.SendSucceeded?) ==>
                          OnlyAction(old(j.Me().snap.rows), reply.value.rows, old(Outgoing(j.Me().pc).i))))
  {
    if j.Quiet() {
      j.Facts();
      UndisturbedCall(j.sys, j.a);
      if AnswerTo(j.Me(), j.sys.sv.saga).Ok? {
        AnswerFrame(j.Me(), j.sys.sv.saga);
      }
    }
    reply := j.Exchange();
  }

  // ---- the compensation loop ---------------------------------------------------------------------

  /** What an undisturbed compensation pass makes of a step: nothing to do, undone, lost, or no way on. */
  datatype Undoing = Passes | Undoes | Loses | Blocks

  function UndoOf(row: StepRow): Undoing {
    if !Eligible(row) then Passes
    else if row.action == Effect && NeverAction(row) then Loses
    else if row.comp == CDone then Passes
    else if row.comp == CUnknown || row.action == Unknown then Blocks
    else if (row.comp == CEffect || row.comp == CFailed) && NeverComp(row) then Loses
    else Undoes
  }

  /** What stops the pass from step k down, if anything does. */
  function PassFrom(rows: seq<StepRow>, k: int): Undoing
    requires k < |rows|
  {
    if k < 0 then Passes
    else
      match UndoOf(rows[k])
      case Loses => Loses
      case Blocks => Blocks
      case _ => PassFrom(rows, k - 1)
  }

  /** Some step between `low` and `high` is undone on the way. */
  predicate UndoesAny(rows: seq<StepRow>, low: int, high: int)
    requires high < |rows|
  {
    exists k :: 0 <= k <= high && low <= k && UndoOf(rows[k]) == Undoes
  }

  /** The receipts before a compensator runs: intent unless one stands, then the effect boundary. */
  method OpenCompensation(j: Journal, row: StepRow, k: nat, last: int, why: Why) returns (ok: bool)
    requires j.Valid() && k < |j.Me().program.steps|
    requires row.comp == CIntent || row.comp == CPending || row.comp == CFailed
    requires j.Me().pc == if row.comp == CIntent then SendCompEffect(k, last, why) else SendCompIntent(k, last, why)
    modifies j
    ensures j.Valid() && j.Me().program == old(j.Me().program)
    ensures j.Me().pc == if ok then Undo(k, last, why) else Done(JournalError)
    ensures old(j.Quiet()) ==>
              && j.Quiet() && j.sys.sv.saga.cancelRequested == old(j.sys.sv.saga.cancelRequested)
              && (ok <==> !old(UndoesUnknown(j.Me())))
              && (ok ==> OnlyRow(old(j.Me().snap.rows), j.Me().snap.rows, k))
              && (!ok ==> j.sys.sv == old(j.sys.sv))
  {
    if row.comp == CPending || row.comp == CFailed {
      var reply := Send(j);
      if reply.None? {
        return false;
      }
    }
    var reply := Send(j);
    ok := reply.Some?;
  }

  /** A compensator failed: say so, and declare the outcome unknown if it must not be replayed. */
  method FailCompensation(j: Journal, k: nat, error: string) returns (result: Result)
    requires j.Valid() && k < |j.Me().program.steps| && j.Me().pc == SendCompFailed(k, error)
    modifies j
    ensures j.Valid() && j.Me().pc == Done(result)
  {
    var reply := j.Exchange();
    if reply.None? {
      return JournalError;
    }
    if k < |reply.value.rows| && NeverComp(reply.value.rows[k]) {
      result := MarkOutcomeUnknown(j, k, error);
      return;
    }
    result := CompensatorFailed;
  }

  /** A compensator and its settlement; None means the step is undone and the pass goes on. */
  method RunCompensator(j: Journal, k: nat, last: int, why: Why) returns (snap: Saga, stop: Option<Result>)
    requires j.Valid() && k < |j.Me().program.steps| && j.Me().pc == Undo(k, last, why)
    modifies j
    ensures j.Valid()
    ensures stop.Some? ==> j.Me().pc == Done(stop.value)
    ensures stop.None? ==> j.Me().program == old(j.Me().program) && j.Me().snap == snap && j.Me().pc == CompHead(k - 1, last, why)
    ensures old(j.Quiet()) ==>
              && j.Quiet() && j.sys.sv.saga.cancelRequested == old(j.sys.sv.saga.cancelRequested)
              && stop.None? && snap == j.sys.sv.saga && Refreshed(snap) && OnlyRow(old(j.Me().snap.rows), snap.rows, k)
  {
    snap := j.Me().snap;
    var error := j.Perform(j.world.undo(k));
    if error.Some? {
      var result := FailCompensation(j, k, error.value);
      return snap, Some(result);
    }
    var reply := Send(j);
    if reply.None? {
      return snap, Some(JournalError);
    }
    return reply.value, None;
  }

  /** How an undisturbed turn at step k leaves the journal. */
  ghost predicate TurnEnd(j: Journal, u: Undoing, before: seq<StepRow>, k: nat, snap: Saga, stop: Option<Result>)
    reads j
  {
    match u
    case Passes => stop.None? && snap.rows == before
    case Undoes => stop.None? && snap == j.sys.sv.saga && Refreshed(snap) && OnlyRow(before, snap.rows, k)
    case Loses => stop == Some(ErrUnknown) && j.sys.sv.saga.state == SUnknown && OnlyRow(before, j.sys.sv.saga.rows, k)
    case Blocks =>
      && (stop == Some(ErrUnknown) || stop == Some(JournalError))
      && j.sys.sv.saga.rows == before && !AllCompensated(before)
  }

  /** The step has something to undo: run its compensator between its receipts. */
  method UndoStep(j: Journal, row: StepRow, k: nat, last: int, why: Why) returns (snap: Saga, stop: Option<Result>)
    requires j.Valid() && k < |j.Me().program.steps| && k < |j.Me().snap.rows| && row == j.Me().snap.rows[k]
    requires row.comp in {CPending, CIntent, CEffect, CFailed}
    requires j.Me().pc == match row.comp
                          case CIntent => SendCompEffect(k, last, why)
                          case CEffect => Undo(k, last, why)
                          case _ => SendCompIntent(k, last, why)
    modifies j
    ensures j.Valid()
    ensures stop.Some? ==> j.Me().pc == Done(stop.value)
    ensures stop.None? ==> j.Me().program == old(j.Me().program) && j.Me().snap == snap && j.Me().pc == CompHead(k - 1, last, why)
    ensures old(j.Quiet() && row.action != Unknown) ==>
              && j.Quiet() && j.sys.sv.saga.cancelRequested == old(j.sys.sv.saga.cancelRequested)
              && TurnEnd(j, Undoes, old(j.Me().snap.rows), k, snap, stop)
    ensures old(j.Quiet() && row.action == Unknown && j.Me().pc.SendCompIntent?) ==>
              j.Quiet() && j.sys.sv == old(j.sys.sv) && stop == Some(JournalError)
  {
    snap := j.Me().snap;
    if row.comp != CEffect {
      var ok := OpenCompensation(j, row, k, last, why);
      if !ok {
        return snap, Some(JournalError);
      }
    }
    snap, stop := RunCompensator(j, k, last, why);
  }

  /** The branches of one turn, for a step that started and has a compensator. */
  method UndoStarted(j: Journal, pg: Program, snapshot: Saga, k: nat, last: int, why: Why)
    returns (snap: Saga, stop: Option<Result>)
    requires j.Valid() && j.Me().program == pg && j.Me().snap == snapshot && k < |pg.steps| == |snapshot.rows|
    requires StepAt(snapshot, k, pg.steps[k].name) == Some(snapshot.rows[k])
    requires pg.steps[k].hasCompensate && Eligible(snapshot.rows[k])
    requires snapshot.rows[k].action == Unknown ==> snapshot.rows[k].comp == CPending
    requires j.Quiet() ==> j.sys.sv.saga.rows == snapshot.rows
    requires j.Me().pc == Backward(pg, snapshot, k, last, why)
    modifies j
    ensures j.Valid()
    ensures stop.Some? ==> j.Me().pc == Done(stop.value)
    ensures stop.None? ==> j.Me().program == pg && j.Me().snap == snap && j.Me().pc == CompHead(k - 1, last, why)
    ensures old(j.Quiet()) ==>
              && j.Quiet() && j.sys.sv.saga.cancelRequested == old(j.sys.sv.saga.cancelRequested)
              && TurnEnd(j, UndoOf(snapshot.rows[k]), snapshot.rows, k, snap, stop)
              && (UndoOf(snapshot.rows[k]) in {Passes, Blocks} ==> j.sys.sv == old(j.sys.sv))
  {
    snap := snapshot;
    var row := snap.rows[k];
    if row.action == Effect && NeverAction(row) {
      var result := MarkOutcomeUnknown(j, k, LOST_ACTION);
      return snap, Some(result);
    }
    if row.comp == CDone {
      return snap, None;
    }
    if row.comp == CUnknown {
      return snap, Some(ErrUnknown);
    }
    if (row.comp == CEffect || row.comp == CFailed) && NeverComp(row) {
      var result := MarkOutcomeUnknown(j, k, LOST_COMPENSATION);
      return snap, Some(result);
    }
    snap, stop := UndoStep(j, row, k, last, why);
  }

  /** One turn of the compensation loop; None means the pass goes on with the step below. */
  method CompensateStep(j: Journal, pg: Program, snapshot: Saga, k: nat, last: int, why: Why)
    returns (snap: Saga, stop: Option<Result>)
    requires j.Valid() && j.Me().program == pg && j.Me().snap == snapshot && j.Me().pc == CompHead(k, last, why)
    modifies j
    ensures j.Valid()
    ensures stop.Some? ==> j.Me().pc == Done(stop.value)
    ensures stop.None? ==> j.Me().program == pg && j.Me().snap == snap && j.Me().pc == CompHead(k - 1, last, why)
    ensures k < |snapshot.rows|
    ensures old(j.Quiet()) ==>
              && j.Quiet() && j.sys.sv.saga.cancelRequested == old(j.sys.sv.saga.cancelRequested)
              && TurnEnd(j, UndoOf(snapshot.rows[k]), snapshot.rows, k, snap, stop)
              && (UndoOf(snapshot.rows[k]) in {Passes, Blocks} ==> j.sys.sv == old(j.sys.sv))
  {
    RowForTurn(j, k);
    CompensatesAsPlanned(j, k);
    j.Turn(false);
    if !pg.steps[k].hasCompensate || !snapshot.rows[k].effectStarted {
      return snapshot, None;
    }
    snap, stop := UndoStarted(j, pg, snapshot, k, last, why);
  }

  /** The program has a compensator for a step exactly when the plan says so, and an unknown action has used none. */
  lemma CompensatesAsPlanned(j: Journal, k: nat)
    requires j.Valid() && j.Me().pc.CompHead? && k < |j.Me().snap.rows| == |j.Me().program.steps|
    ensures j.Me().program.steps[k].hasCompensate == j.Me().snap.rows[k].plan.hasCompensation
    ensures j.Me().snap.rows[k].action == Unknown ==> j.Me().snap.rows[k].comp == CPending
    ensures j.Quiet() ==> j.sys.sv.saga.rows == j.Me().snap.rows
  {
    j.Facts();
    assert ExecRow(j.Me().snap.rows[k]);
  }

  /** The pass has come down to step k, and has not touched the steps from there on. */
  predicate PassedTo(rows: seq<StepRow>, now: seq<StepRow>, last: int, k: int)
    requires k <= last < |rows|
  {
    && |now| == |rows|
    && (forall l :: 0 <= l <= k ==> now[l] == rows[l])
    && AboveKept(rows, now, last)
    && PassFrom(rows, last) == PassFrom(rows, k)
  }

  /** The rows above `last` are as they were. */
  predicate AboveKept(rows: seq<StepRow>, now: seq<StepRow>, last: int) {
    |now| == |rows| && forall l :: 0 <= l < |rows| && last < l ==> now[l] == rows[l]
  }

  lemma PassesOn(rows: seq<StepRow>, now: seq<StepRow>, next: seq<StepRow>, last: int, k: nat)
    requires k <= last < |rows| && PassedTo(rows, now, last, k) && UndoOf(now[k]) in {Passes, Undoes}
    requires OnlyRow(now, next, k)
    ensures PassedTo(rows, next, last, k - 1)
    ensures UndoOf(now[k]) == Passes ==> UndoesAny(rows, k, last) == UndoesAny(rows, k + 1, last)
  {
  }

  /** An undisturbed pass over `rows`, begun with the server at `start`, has come down to step k. */
  ghost predicate Passing(j: Journal, start: Brain.Server, rows: seq<StepRow>, now: seq<StepRow>, last: int, k: int)
    requires k <= last < |rows|
    reads j
  {
    && j.Quiet() && j.sys.sv.saga.cancelRequested == start.saga.cancelRequested
    && PassedTo(rows, now, last, k)
    && if UndoesAny(rows, k + 1, last) then Refreshed(j.sys.sv.saga) else j.sys.sv == start
  }

  /** How an undisturbed pass ends. */
  ghost predicate PassEnd(j: Journal, start: Brain.Server, rows: seq<StepRow>, last: int, why: Why, result: Result)
    requires last < |rows|
    reads j
  {
    && j.Quiet() && j.sys.sv.saga.cancelRequested == start.saga.cancelRequested
    && AboveKept(rows, j.sys.sv.saga.rows, last)
    && match PassFrom(rows, last)
       case Loses => result == ErrUnknown && j.sys.sv.saga.state == SUnknown
       case Blocks =>
         && (result == ErrUnknown || result == JournalError)
         && !AllCompensated(j.sys.sv.saga.rows) && (Refreshed(j.sys.sv.saga) || j.sys.sv == start)
       case _ =>
         && result == Cause(why, last)
         && if UndoesAny(rows, 0, last) then Refreshed(j.sys.sv.saga) else j.sys.sv == start
  }

  /** One turn, as part of the pass. */
  method PassStep(
    j: Journal, pg: Program, snapshot: Saga, k: nat, last: int, why: Why, ghost start: Brain.Server, ghost rows: seq<StepRow>)
    returns (snap: Saga, stop: Option<Result>)
    requires j.Valid() && j.Me().program == pg && j.Me().snap == snapshot && j.Me().pc == CompHead(k, last, why)
    requires k <= last < |rows|
    modifies j
    ensures j.Valid()
    ensures stop.Some? ==> j.Me().pc == Done(stop.value)
    ensures stop.None? ==> j.Me().program == pg && j.Me().snap == snap && j.Me().pc == CompHead(k - 1, last, why)
    ensures old(Passing(j, start, rows, snapshot.rows, last, k)) ==>
              if stop.None? then Passing(j, start, rows, snap.rows, last, k - 1)
              else PassEnd(j, start, rows, last, why, stop.value)
  {
    snap, stop := CompensateStep(j, pg, snapshot, k, last, why);
    if stop.None? && old(Passing(j, start, rows, snapshot.rows, last, k)) {
      PassesOn(rows, snapshot.rows, snap.rows, last, k);
    }
  }

  method CompensateRecoverable(j: Journal, pg: Program, snapshot: Saga, last: int, why: Why) returns (result: Result)
    requires j.Valid() && j.Me().program == pg && j.Me().snap == snapshot && j.Me().pc == CompHead(last, last, why)
    requires -1 <= last
    modifies j
    ensures j.Valid() && j.Me().pc == Done(result)
    ensures last < |snapshot.rows|
    ensures old(j.Quiet()) ==> PassEnd(j, old(j.sys.sv), snapshot.rows, last, why, result)
  {
    LastInRange(j);
    ghost var start := j.sys.sv;
    var snap := snapshot;
    var k := last;
    while k >= 0
      invariant -1 <= k <= last < |snapshot.rows|
      invariant j.Valid() && j.Me().program == pg && j.Me().snap == snap && j.Me().pc == CompHead(k, last, why)
      invariant old(j.Quiet()) ==> Passing(j, start, snapshot.rows, snap.rows, last, k)
    {
      var next, stop := PassStep(j, pg, snap, k, last, why, start, snapshot.rows);
      if stop.Some? {
        return stop.value;
      }
      snap := next;
      k := k - 1;
    }
    LastInRange(j);
    j.Turn(false);
    result := Cause(why, last);
  }

  lemma LastInRange(j: Journal)
    requires j.Valid() && j.Me().pc.CompHead?
    ensures j.Me().pc.last < |j.Me().snap.rows|
    ensures j.Quiet() ==> j.sys.sv.saga.rows == j.Me().snap.rows
  {
    j.Facts();
  }

  lemma {:induction false} KnownIsNotBlocked(rows: seq<StepRow>, k: int)
    requires k < |rows| && !AnyUnknown(rows)
    ensures PassFrom(rows, k) != Blocks
    decreases k
  {
    if k >= 0 {
      assert !UnknownRow(rows[k]);
      KnownIsNotBlocked(rows, k - 1);
    }
  }

  /** The pass over an uncancelled saga always has a way on. */
  lemma CalmIsNotBlocked(j: Journal)
    requires j.Valid() && j.Calm() && j.Me().pc.CompHead?
    ensures j.Me().pc.last < |j.Me().snap.rows| && PassFrom(j.Me().snap.rows, j.Me().pc.last) != Blocks
  {
    j.Facts();
    KnownIsNotBlocked(j.Me().snap.rows, j.Me().pc.last);
  }

  // ---- the forward loop --------------------------------------------------------------------------

  /** What an undisturbed attempt makes of a step: success, an end the journal accepts, one before any effect, or neither. */
  datatype Fate = GoesOn | Settles | Barred | Sticks

  /** A compensator that must not be replayed was entered, by an attempt whose context ended, and never settled. */
  predicate LostUndo(row: StepRow) {
    NeverComp(row) && (row.comp == CEffect || row.comp == CFailed)
  }

  predicate LostBelow(rows: seq<StepRow>, i: nat)
    requires i <= |rows|
  {
    exists k :: 0 <= k < i && LostUndo(rows[k])
  }

  function FateOf(pg: Program, rows: seq<StepRow>, i: nat, world: World): Fate
    requires i < |pg.steps| == |rows|
  {
    var row := rows[i];
    if row.action == Succeeded then GoesOn
    else if row.action == Failed || row.action == Unknown || (row.action == Effect && NeverAction(row)) then Settles
    else if row.guard.Some? && row.guard.value != GuardAt(pg, i) then Sticks
    else if world.contextDone(i) then if LostBelow(rows, i) then Settles else Sticks
    else ActionFate(pg, i, world)
  }

  /** The fate of a step whose action is started, or resumed: a step that may not run is barred from it. */
  function ActionFate(pg: Program, i: nat, world: World): Fate
    requires i < |pg.steps|
  {
    if !SagaTheorems.StepMayRun(pg, i) then Barred
    else if pg.steps[i].fail then Settles
    else
      match world.run(i)
      case None => GoesOn
      case Some(error) => if Size(error) <= MAX_TEXT then Settles else Sticks
  }

  /** What becomes of the steps from i on. */
  function Ending(pg: Program, rows: seq<StepRow>, i: nat, world: World): Fate
    requires i <= |pg.steps| == |rows|
    decreases |rows| - i
  {
    if i == |rows| then GoesOn
    else
      match FateOf(pg, rows, i, world)
      case GoesOn => Ending(pg, rows, i + 1, world)
      case other => other
  }

  /** The step that decides how the attempt ends, if one does. */
  function EndsAt(pg: Program, rows: seq<StepRow>, i: nat, world: World): nat
    requires i <= |pg.steps| == |rows|
    decreases |rows| - i
  {
    if i == |rows| || FateOf(pg, rows, i, world) != GoesOn then i else EndsAt(pg, rows, i + 1, world)
  }

  /** An attempt sticks exactly when the first step that does not simply succeed is a sticking one. */
  lemma {:induction false} SticksExactly(pg: Program, rows: seq<StepRow>, i: nat, world: World)
    requires i <= |pg.steps| == |rows|
    ensures Ending(pg, rows, i, world) == Sticks <==>
            exists k :: i <= k < |rows| && FateOf(pg, rows, k, world) == Sticks &&
              forall l :: i <= l < k ==> FateOf(pg, rows, l, world) == GoesOn
    decreases |rows| - i
  {
    if i < |rows| && FateOf(pg, rows, i, world) == GoesOn {
      SticksExactly(pg, rows, i + 1, world);
    }
  }

  /** One step, one action that fails with 2049 characters: the attempt ends and the saga stays running. */
  lemma LongErrorSticks(world: World)
    requires world.run(0) == Some(seq(MAX_TEXT + 1, _ => 'x')) && !world.contextDone(0)
    ensures var pg := Program([StepDef("scan", "never", "never", false, false, false, 0)], true, ResourceLimit(0, 0, 0));
            && Acceptable(pg, NEW_SAGA)
            && |RowsAtBind(pg, NEW_SAGA)| == 1
            && Ending(pg, RowsAtBind(pg, NEW_SAGA), 0, world) == Sticks
  {
    var pg := Program([StepDef("scan", "never", "never", false, false, false, 0)], true, ResourceLimit(0, 0, 0));
    SagaTheorems.PlanAccepted(pg.steps);
    assert !Blank("scan") && Size("scan") <= MAX_KEY;
    SizeBounds(seq(MAX_TEXT + 1, _ => 'x'));
  }

  /** Interrupted between loop head and settlement, the saga is on record as running. */
  lemma InFlightIsRunning(j: Journal, i: nat)
    requires j.Valid() && j.Calm()
    requires var pc := j.Me().pc; (pc.Head? && pc.i == i) || (pc.SendFailed? && pc.i == i)
    requires i < |j.Me().snap.rows| && j.Me().snap.rows[i].action in {Pending, Intent, Effect}
    ensures j.sys.sv.saga.state == SRunning
  {
    j.Facts();
    assert j.sys.sv.saga.rows == j.Me().snap.rows;
    SagaTheorems.OpenIsRunning(j.Me().snap.rows, i);
  }

  /** The result of a finished attempt decides the state of an undisturbed saga. */
  lemma EndState(j: Journal)
    requires j.Valid() && j.Calm() && j.Me().pc.Done?
    ensures SagaTheorems.ResultIs(j.Me().pc.result, j.sys.sv.saga.state)
  {
    j.Facts();
    SagaTheorems.ResultAt(j.Me(), j.sys.sv.saga);
  }

  /** How a settled attempt ends. */
  ghost predicate Ended(j: Journal, result: Result)
    reads j
  {
    && j.Calm()
    && (result == ErrUnknown || (result.Cause? && result.why == StepFailed))
  }

  /** How a stuck attempt ends. */
  ghost predicate Stuck(j: Journal, result: Result)
    reads j
  {
    && j.Calm()
    && (result == GuardClash || result == JournalError || (result.Cause? && result.why == ContextDone))
    && j.sys.sv.saga.state == SRunning
  }

  /** Step i is on record as failed, and without an effect. */
  predicate FailedUnstarted(rows: seq<StepRow>, i: nat) {
    i < |rows| && rows[i].action == Failed && !rows[i].effectStarted
  }

  /** How an attempt left to itself comes out of step i. */
  ghost predicate StepEnd(j: Journal, fate: Fate, before: seq<StepRow>, i: nat, snap: Saga, stop: Option<Result>)
    reads j
  {
    match fate
    case GoesOn => stop.None? && j.Calm() && OnlyAction(before, snap.rows, i)
    case Settles => stop.Some? && Ended(j, stop.value)
    case Barred => stop.Some? && Ended(j, stop.value) && FailedUnstarted(j.sys.sv.saga.rows, i)
    case Sticks => stop.Some? && Stuck(j, stop.value)
  }

  /** The pass after the failure of a step, left to itself. */
  method UndoAfterFailure(j: Journal, pg: Program, snapshot: Saga, last: int) returns (result: Result)
    requires j.Valid() && j.Me().program == pg && j.Me().snap == snapshot && j.Me().pc == CompHead(last, last, StepFailed)
    requires -1 <= last
    modifies j
    ensures j.Valid() && j.Me().pc == Done(result)
    ensures old(j.Calm()) ==> Ended(j, result) && AboveKept(snapshot.rows, j.sys.sv.saga.rows, last)
  {
    if j.Calm() {
      CalmIsNotBlocked(j);
    }
    result := CompensateRecoverable(j, pg, snapshot, last, StepFailed);
  }

  /** A failure reported for a step below which the pass begins is one of a step without effect. */
  lemma BarredBeforeEffect(at: Attempt, saga: Saga)
    requires AttemptInv(at) && at.pc.SendFailed? && at.pc.i < |saga.rows| == |at.program.steps| && at.snap.rows == saga.rows
    ensures AnswerTo(at, saga).Ok? && at.pc.last < at.pc.i ==> FailedUnstarted(AnswerTo(at, saga).saga.rows, at.pc.i)
  {
    InFocus(at);
  }

  /** The failure receipt of step i, then the compensation pass. */
  method FailAction(j: Journal, pg: Program, i: nat, error: string, last: int) returns (result: Result)
    requires j.Valid() && j.Me().program == pg && i < |pg.steps| && j.Me().pc == SendFailed(i, error, last) && -1 <= last
    modifies j
    ensures j.Valid() && j.Me().pc == Done(result)
    ensures old(j.Calm()) && Size(error) <= MAX_TEXT ==>
              Ended(j, result) && (last < i ==> FailedUnstarted(j.sys.sv.saga.rows, i))
    ensures old(j.Calm()) && Size(error) > MAX_TEXT ==> Stuck(j, result)
  {
    if j.Calm() {
      j.Facts();
      UndisturbedCall(j.sys, j.a);
      InFlightIsRunning(j, i);
      BarredBeforeEffect(j.Me(), j.sys.sv.saga);
    }
    var reply := j.Exchange();
    if reply.None? {
      return JournalError;
    }
    result := UndoAfterFailure(j, pg, reply.value, last);
  }

  /** The texts of guard refusals and of the fail flag always fit. */
  lemma OwnTextsFit(j: Journal, i: nat)
    requires j.Valid() && i < |j.Me().program.steps| && (j.Me().pc.SendFailed? || j.Me().pc.Run?)
    ensures Size(GuardError(j.Me().program.steps[i].name, GuardAt(j.Me().program, i))) <= MAX_TEXT
    ensures Size(FailText(j.Me().program.steps[i].name)) <= MAX_TEXT
  {
    j.Facts();
    var name := j.Me().program.steps[i].name;
    NameFits(j.Me().program, j.Me().snap, i);
    SizeBounds(name);
    SizeBounds(GuardError(name, GuardAt(j.Me().program, i)));
    SizeBounds(FailText(name));
  }

  lemma NameFits(pg: Program, snap: Saga, i: nat)
    requires SagaInv(snap) && Bound(pg, snap) && i < |pg.steps|
    ensures Size(pg.steps[i].name) <= MAX_KEY
  {
    assert snap.rows[i].plan == StepPlanFor(pg.steps[i], i);
  }

  /** The success receipt of step i; None means the loop goes on. */
  method SettleAction(j: Journal, pg: Program, i: nat) returns (snap: Saga, stop: Option<Result>)
    requires j.Valid() && j.Me().program == pg && i < |pg.steps| && j.Me().pc == SendSucceeded(i)
    modifies j
    ensures j.Valid()
    ensures stop.Some? ==> j.Me().pc == Done(stop.value)
    ensures stop.None? ==> j.Me().program == pg && j.Me().snap == snap && j.Me().pc == Head(i + 1)
    ensures old(j.Calm()) ==> StepEnd(j, GoesOn, old(j.Me().snap.rows), i, snap, stop)
  {
    snap := j.Me().snap;
    var reply := Send(j);
    if reply.None? {
      return snap, Some(JournalError);
    }
    snap := reply.value;
    if snap.cancelRequested {
      var result := CompensateRecoverable(j, pg, snap, i, CancelSeen);
      return snap, Some(result);
    }
    return snap, None;
  }

  /** An action was executed and came back with this error, or none. */
  method SettleRun(j: Journal, pg: Program, i: nat, error: Option<string>) returns (snap: Saga, stop: Option<Result>)
    requires j.Valid() && j.Me().program == pg && i < |pg.steps|
    requires j.Me().pc == if error.Some? then SendFailed(i, error.value, i) else SendSucceeded(i)
    modifies j
    ensures j.Valid()
    ensures stop.Some? ==> j.Me().pc == Done(stop.value)
    ensures stop.None? ==> j.Me().program == pg && j.Me().snap == snap && j.Me().pc == Head(i + 1)
    ensures old(j.Calm()) ==>
              StepEnd(j, if error.None? then GoesOn else if Size(error.value) <= MAX_TEXT then Settles else Sticks,
                      old(j.Me().snap.rows), i, snap, stop)
  {
    if error.Some? {
      snap := j.Me().snap;
      var result := FailAction(j, pg, i, error.value, i);
      return snap, Some(result);
    }
    snap, stop := SettleAction(j, pg, i);
  }

  /** The action of step i and its settlement; None means the loop goes on. */
  method RunAction(j: Journal, pg: Program, i: nat) returns (snap: Saga, stop: Option<Result>)
    requires j.Valid() && j.Me().program == pg && i < |pg.steps| && j.Me().pc == Run(i) && GuardPasses(GuardAt(pg, i))
    modifies j
    ensures j.Valid()
    ensures stop.Some? ==> j.Me().pc == Done(stop.value)
    ensures stop.None? ==> j.Me().program == pg && j.Me().snap == snap && j.Me().pc == Head(i + 1)
    ensures old(j.Calm()) ==> StepEnd(j, ActionFate(pg, i, j.world), old(j.Me().snap.rows), i, snap, stop)
  {
    OwnTextsFit(j, i);
    var error := j.Perform(j.world.run(i));
    snap, stop := SettleRun(j, pg, i, error);
  }

  /** From the intent of step i to its settlement; `row` is the step as the loop head saw it. */
  method StartAction(j: Journal, pg: Program, row: StepRow, i: nat) returns (snap: Saga, stop: Option<Result>)
    requires j.Valid() && j.Me().program == pg && i < |pg.steps|
    requires row.action in {Pending, Intent, Effect}
    requires j.Me().pc == if row.action == Pending then SendIntent(i) else AfterIntent(pg, i, row.action == Effect)
    modifies j
    ensures j.Valid()
    ensures stop.Some? ==> j.Me().pc == Done(stop.value)
    ensures stop.None? ==> j.Me().program == pg && j.Me().snap == snap && j.Me().pc == Head(i + 1)
    ensures old(j.Calm()) ==> StepEnd(j, ActionFate(pg, i, j.world), old(j.Me().snap.rows), i, snap, stop)
  {
    snap := j.Me().snap;
    if row.action == Pending {
      var reply := Send(j);
      if reply.None? {
        return snap, Some(JournalError);
      }
      snap := reply.value;
      if snap.cancelRequested {
        var result := CompensateRecoverable(j, pg, snap, i - 1, CancelSeen);
        return snap, Some(result);
      }
    }
    snap, stop := CrossBoundary(j, pg, row, i);
  }

  /** The intent stands: guard, effect boundary, action. */
  method CrossBoundary(j: Journal, pg: Program, row: StepRow, i: nat) returns (snap: Saga, stop: Option<Result>)
    requires j.Valid() && j.Me().program == pg && i < |pg.steps|
    requires j.Me().pc == AfterIntent(pg, i, row.action == Effect)
    modifies j
    ensures j.Valid()
    ensures stop.Some? ==> j.Me().pc == Done(stop.value)
    ensures stop.None? ==> j.Me().program == pg && j.Me().snap == snap && j.Me().pc == Head(i + 1)
    ensures old(j.Calm()) ==> StepEnd(j, ActionFate(pg, i, j.world), old(j.Me().snap.rows), i, snap, stop)
  {
    snap := j.Me().snap;
    if !GuardPasses(GuardAt(pg, i)) {
      OwnTextsFit(j, i);
      var result := FailAction(j, pg, i, GuardError(pg.steps[i].name, GuardAt(pg, i)), i - 1);
      return snap, Some(result);
    }
    if row.action != Effect {
      var reply := Send(j);
      if reply.None? {
        return snap, Some(JournalError);
      }
    }
    snap, stop := RunAction(j, pg, i);
  }

  lemma {:induction false} LosesExactly(rows: seq<StepRow>, k: int)
    requires k < |rows| && !AnyUnknown(rows)
    requires forall l :: 0 <= l <= k ==> rows[l].action == Succeeded && RowInv(rows[l])
    ensures PassFrom(rows, k) == Loses <==> exists l :: 0 <= l <= k && LostUndo(rows[l])
    decreases k
  {
    if k >= 0 {
      assert !UnknownRow(rows[k]) && RowInv(rows[k]);
      LosesExactly(rows, k - 1);
    }
  }

  lemma ContextRows(j: Journal, i: nat)
    requires j.Valid() && j.Calm() && j.Me().pc == CompHead(i - 1, i - 1, ContextDone)
    ensures i < |j.Me().snap.rows| && !AnyUnknown(j.Me().snap.rows)
    ensures forall l :: 0 <= l < i ==> j.Me().snap.rows[l].action == Succeeded && RowInv(j.Me().snap.rows[l])
  {
    j.Facts();
  }

  lemma PassBelow(j: Journal, i: nat)
    requires j.Valid() && j.Calm() && j.Me().pc == CompHead(i - 1, i - 1, ContextDone)
    ensures i < |j.Me().snap.rows|
    ensures PassFrom(j.Me().snap.rows, i - 1) == if LostBelow(j.Me().snap.rows, i) then Loses else Passes
  {
    ContextRows(j, i);
    PassOver(j.Me().snap.rows, i);
  }

  lemma PassOver(rows: seq<StepRow>, i: nat)
    requires i < |rows| && !AnyUnknown(rows)
    requires forall l :: 0 <= l < i ==> rows[l].action == Succeeded && RowInv(rows[l])
    ensures PassFrom(rows, i - 1) == if LostBelow(rows, i) then Loses else Passes
  {
    KnownIsNotBlocked(rows, i - 1);
    LosesExactly(rows, i - 1);
    PassOrStop(rows, i - 1);
  }

  lemma {:induction false} PassOrStop(rows: seq<StepRow>, k: int)
    requires k < |rows|
    ensures PassFrom(rows, k) != Undoes
    decreases k
  {
    if k >= 0 {
      PassOrStop(rows, k - 1);
    }
  }

  /** The context ended at step i: undo the steps below. */
  method LeaveForContext(j: Journal, pg: Program, snapshot: Saga, i: nat) returns (result: Result)
    requires j.Valid() && j.Me().program == pg && j.Me().snap == snapshot && j.Me().pc == CompHead(i - 1, i - 1, ContextDone)
    requires i < |snapshot.rows|
    modifies j
    ensures j.Valid() && j.Me().pc == Done(result)
    ensures old(j.Calm()) ==>
              StepEnd(j, if LostBelow(snapshot.rows, i) then Settles else Sticks, snapshot.rows, i, snapshot, Some(result))
  {
    if j.Calm() {
      PassBelow(j, i);
    }
    result := CompensateRecoverable(j, pg, snapshot, i - 1, ContextDone);
    if old(j.Calm()) {
      EndState(j);
    }
  }

  /** A step that is neither settled nor lost: guard, context, action. */
  method OpenStep(j: Journal, pg: Program, snapshot: Saga, i: nat, contextDone: bool)
    returns (snap: Saga, stop: Option<Result>)
    requires j.Valid() && j.Me().program == pg && j.Me().snap == snapshot && i < |pg.steps| == |snapshot.rows|
    requires var row := snapshot.rows[i];
             row.action in {Pending, Intent, Effect} && !(row.action == Effect && NeverAction(row))
    requires StepAt(snapshot, i, pg.steps[i].name) == Some(snapshot.rows[i])
    requires j.Me().pc == Forward(pg, snapshot, i, contextDone) && contextDone == j.world.contextDone(i)
    requires j.Calm() ==> j.sys.sv.saga.state == SRunning
    modifies j
    ensures j.Valid()
    ensures stop.Some? ==> j.Me().pc == Done(stop.value)
    ensures stop.None? ==> j.Me().program == pg && j.Me().snap == snap && j.Me().pc == Head(i + 1)
    ensures old(j.Calm()) ==> StepEnd(j, FateOf(pg, snapshot.rows, i, j.world), snapshot.rows, i, snap, stop)
  {
    snap := snapshot;
    var row := snap.rows[i];
    if row.guard.Some? && row.guard.value != GuardAt(pg, i) {
      return snap, Some(GuardClash);
    }
    if contextDone {
      var result := LeaveForContext(j, pg, snap, i);
      return snap, Some(result);
    }
    snap, stop := StartAction(j, pg, row, i);
  }

  /** One turn of the forward loop; None means it goes on with the next step. */
  method ExecuteStep(j: Journal, pg: Program, snapshot: Saga, i: nat) returns (snap: Saga, stop: Option<Result>)
    requires j.Valid() && j.Me().program == pg && j.Me().snap == snapshot && j.Me().pc == Head(i) && i < |pg.steps|
    modifies j
    ensures j.Valid()
    ensures stop.Some? ==> j.Me().pc == Done(stop.value)
    ensures stop.None? ==> j.Me().program == pg && j.Me().snap == snap && j.Me().pc == Head(i + 1)
    ensures |snapshot.rows| == |pg.steps|
    ensures old(j.Calm()) ==> StepEnd(j, FateOf(pg, snapshot.rows, i, j.world), snapshot.rows, i, snap, stop)
  {
    snap := snapshot;
    RowForTurn(j, i);
    var row := snap.rows[i];
    if j.Calm() && row.action in {Pending, Intent, Effect} {
      InFlightIsRunning(j, i);
    }
    var contextDone := j.world.contextDone(i);
    j.Turn(contextDone);
    match row.action {
      case Succeeded =>
        return snap, None;
      case Failed =>
        var result := UndoAfterFailure(j, pg, snap, if row.effectStarted then i else i - 1);
        return snap, Some(result);
      case Unknown =>
        return snap, Some(ErrUnknown);
      case _ =>
    }
    if row.action == Effect && NeverAction(row) {
      var result := MarkOutcomeUnknown(j, i, LOST_ACTION);
      return snap, Some(result);
    }
    snap, stop := OpenStep(j, pg, snap, i, contextDone);
  }

  /** Result and saga state at the end of an undisturbed attempt that found `rows` bound. */
  predicate EndsAs(fate: Fate, result: Result, state: SagaState) {
    match fate
    case GoesOn => result == Nil && state == SReady
    case Settles => result != Nil && (state == SCompensated || state == SUnknown)
    case Barred => result != Nil && (state == SCompensated || state == SUnknown)
    case Sticks => result != Nil && state == SRunning
  }

  /** The loop has come to step i of the rows it found, and has undone nothing. */
  predicate CameTo(pg: Program, rows: seq<StepRow>, now: seq<StepRow>, i: nat, world: World)
    requires i <= |pg.steps|
  {
    && |rows| == |now| == |pg.steps|
    && (forall k :: i <= k < |rows| ==> now[k] == rows[k])
    && (forall k :: 0 <= k < |rows| ==> now[k].plan == rows[k].plan && now[k].comp == rows[k].comp)
    && Ending(pg, rows, 0, world) == Ending(pg, rows, i, world)
    && EndsAt(pg, rows, 0, world) == EndsAt(pg, rows, i, world)
  }

  lemma ComesOn(pg: Program, rows: seq<StepRow>, now: seq<StepRow>, next: seq<StepRow>, i: nat, world: World)
    requires i < |pg.steps| && CameTo(pg, rows, now, i, world)
    ensures FateOf(pg, now, i, world) == FateOf(pg, rows, i, world)
    ensures FateOf(pg, now, i, world) == GoesOn && OnlyAction(now, next, i) ==> CameTo(pg, rows, next, i + 1, world)
  {
    assert forall k :: 0 <= k < |rows| ==> LostUndo(now[k]) == LostUndo(rows[k]);
  }

  /** How an attempt left to itself ends that found these rows: as `Ending` says, a barred step failed without effect. */
  ghost predicate RunEnd(j: Journal, pg: Program, rows: seq<StepRow>, result: Result)
    requires |pg.steps| == |rows|
    reads j
  {
    && EndsAs(Ending(pg, rows, 0, j.world), result, j.sys.sv.saga.state)
    && (Ending(pg, rows, 0, j.world) == Barred ==> FailedUnstarted(j.sys.sv.saga.rows, EndsAt(pg, rows, 0, j.world)))
  }

  /** One turn, as part of the loop over the rows the attempt found. */
  method StepAlong(j: Journal, pg: Program, snapshot: Saga, i: nat, ghost rows: seq<StepRow>)
    returns (snap: Saga, stop: Option<Result>)
    requires j.Valid() && j.Me().program == pg && j.Me().snap == snapshot && j.Me().pc == Head(i) && i < |pg.steps|
    requires |rows| == |pg.steps|
    modifies j
    ensures j.Valid()
    ensures stop.Some? ==> j.Me().pc == Done(stop.value)
    ensures stop.None? ==> j.Me().program == pg && j.Me().snap == snap && j.Me().pc == Head(i + 1)
    ensures old(j.Calm()) && CameTo(pg, rows, snapshot.rows, i, j.world) ==>
              && j.Calm()
              && if stop.None? then CameTo(pg, rows, snap.rows, i + 1, j.world)
                 else RunEnd(j, pg, rows, stop.value)
  {
    snap, stop := ExecuteStep(j, pg, snapshot, i);
    if old(j.Calm()) && CameTo(pg, rows, snapshot.rows, i, j.world) {
      ComesOn(pg, rows, snapshot.rows, snap.rows, i, j.world);
      if stop.Some? {
        EndState(j);
      }
    }
  }

  method RunSteps(j: Journal, pg: Program, snapshot: Saga) returns (result: Result)
    requires j.Valid() && j.Me().program == pg && j.Me().snap == snapshot && j.Me().pc == Head(0)
    requires |snapshot.rows| == |pg.steps|
    modifies j
    ensures j.Valid() && j.Me().pc == Done(result)
    ensures old(j.Calm()) ==> j.Calm() && RunEnd(j, pg, snapshot.rows, result)
  {
    var snap := snapshot;
    var i := 0;
    while i < |pg.steps|
      invariant i <= |pg.steps|
      invariant j.Valid() && j.Me().program == pg && j.Me().snap == snap && j.Me().pc == Head(i)
      invariant old(j.Calm()) ==> j.Calm() && CameTo(pg, snapshot.rows, snap.rows, i, j.world)
    {
      var next, stop := StepAlong(j, pg, snap, i, snapshot.rows);
      if stop.Some? {
        return stop.value;
      }
      snap := next;
      i := i + 1;
    }
    j.Turn(false);
    result := Nil;
    if old(j.Calm()) {
      EndState(j);
    }
  }

  /** The rows of a bound attempt are those of its program. */
  lemma RowsInRange(j: Journal)
    requires j.Valid() && j.Me().pc.Head?
    ensures |j.Me().snap.rows| == |j.Me().program.steps|
  {
    j.Facts();
  }

  // ---- a cancelled saga ----------------------------------------------------------------------------

  /** The state of the saga once the plan is bound. */
  function StateAtBind(saga: Saga): SagaState {
    if saga.plan.None? then SRunning else saga.state
  }

  /** The state the attempt is told: that of the snapshot that came with the lease, if the plan was bound by then. */
  function StateTold(at: Attempt): SagaState {
    if at.snap.plan.None? then SRunning else at.snap.state
  }

  /** Result and saga state at the end of an undisturbed attempt on a cancelled saga. */
  predicate CancelledEnd(rows: seq<StepRow>, bound: SagaState, result: Result, state: SagaState) {
    match PassFrom(rows, |rows| - 1)
    case Loses => result == ErrUnknown && state == SUnknown
    case Blocks => (result == ErrUnknown || result == JournalError) && (state == bound || state == SCancelling)
    case _ => result == Cause(CancelSeen, |rows| - 1) && state == if AllCompensated(rows) then bound else SCompensated
  }

  lemma {:induction false} PassUndoes(rows: seq<StepRow>, k: int)
    requires k < |rows| && PassFrom(rows, k) != Loses && PassFrom(rows, k) != Blocks
    ensures UndoesAny(rows, 0, k) <==> exists l :: 0 <= l <= k && Eligible(rows[l]) && rows[l].comp != CDone
    decreases k
  {
    if k >= 0 {
      PassUndoes(rows, k - 1);
    }
  }

  /**
   * With no outcome unknown, an attempt on a cancelled and unsettled saga settles it if and only if it found a started,
   * compensatable effect not yet compensated.
   */
  lemma CancelSettlesExactly(rows: seq<StepRow>, bound: SagaState, result: Result, state: SagaState)
    requires CancelledEnd(rows, bound, result, state) && ExecRows(rows) && !AnyUnknown(rows)
    requires bound != SCompensated && bound != SUnknown
    ensures state == SCompensated || state == SUnknown <==>
            exists k :: 0 <= k < |rows| && Eligible(rows[k]) && rows[k].comp != CDone
    ensures state == SCompensated || state == SUnknown || state == bound
  {
    KnownIsNotBlocked(rows, |rows| - 1);
    LosesSomething(rows, |rows| - 1);
  }

  lemma {:induction false} LosesSomething(rows: seq<StepRow>, k: int)
    requires k < |rows|
    ensures PassFrom(rows, k) == Loses ==> exists l :: 0 <= l <= k && UndoOf(rows[l]) == Loses
    decreases k
  {
    if k >= 0 {
      LosesSomething(rows, k - 1);
    }
  }

  /** The whole compensation pass of a cancelled saga. */
  method UndoAll(j: Journal, pg: Program, snapshot: Saga) returns (result: Result)
    requires j.Valid() && j.Me().program == pg && j.Me().snap == snapshot
    requires j.Me().pc == CompHead(|pg.steps| - 1, |pg.steps| - 1, CancelSeen)
    modifies j
    ensures j.Valid() && j.Me().pc == Done(result)
    ensures old(j.Quiet() && j.sys.sv.saga.cancelRequested) && |snapshot.rows| == |pg.steps| ==>
              CancelledEnd(snapshot.rows, old(j.sys.sv.saga.state), result, j.sys.sv.saga.state)
  {
    result := CompensateRecoverable(j, pg, snapshot, |pg.steps| - 1, CancelSeen);
    if old(j.Quiet() && j.sys.sv.saga.cancelRequested) && |snapshot.rows| == |pg.steps| {
      CancelledPassEnd(j, old(j.sys.sv), snapshot.rows, result);
    }
  }

  /** A finished pass leaves everything undone, and says so if it undid anything. */
  lemma FinishedPass(rows: seq<StepRow>, before: SagaState, saga: Saga)
    requires PassFrom(rows, |rows| - 1) != Loses && PassFrom(rows, |rows| - 1) != Blocks
    requires saga.cancelRequested && AllCompensated(saga.rows)
    requires if UndoesAny(rows, 0, |rows| - 1) then Refreshed(saga) else saga.state == before
    ensures saga.state == if AllCompensated(rows) then before else SCompensated
  {
    PassUndoes(rows, |rows| - 1);
  }

  lemma CancelledPassEnd(j: Journal, start: Brain.Server, rows: seq<StepRow>, result: Result)
    requires j.Valid() && j.Me().pc == Done(result) && start.saga.cancelRequested
    requires PassEnd(j, start, rows, |rows| - 1, CancelSeen, result)
    ensures CancelledEnd(rows, start.saga.state, result, j.sys.sv.saga.state)
  {
    if result.Cause? {
      AllUndone(j, result);
      FinishedPass(rows, start.saga.state, j.sys.sv.saga);
    }
  }

  lemma AllUndone(j: Journal, result: Result)
    requires j.Valid() && j.Quiet() && j.Me().pc == Done(result) && result.Cause? && result.why != ContextDone
    ensures AllCompensated(j.sys.sv.saga.rows)
  {
    j.Facts();
    SagaTheorems.PassIsComplete(j.Me(), j.sys.sv.saga);
  }

  /** What an undisturbed bind of an acceptable plan leaves at the attempt and at the server. */
  ghost predicate BindEnd(j: Journal, pg: Program, at: Attempt, saga: Saga, reply: Option<Saga>)
    reads j
  {
    && j.Quiet() && j.sys.sv.saga.cancelRequested == saga.cancelRequested && j.sys.sv.saga.state == StateAtBind(saga)
    && reply.Some? && reply.value.plan == PlanFor(pg.steps) && reply.value.rows == RowsAtBind(pg, saga)
    && |reply.value.rows| == |pg.steps|
    && reply.value.state == StateTold(at)
    && (reply.value.cancelRequested ==> saga.cancelRequested)
    && (Forewarned(at) && saga.cancelRequested ==> reply.value.cancelRequested)
    && (!saga.cancelRequested ==> (reply.value.state == SUnknown <==> saga.state == SUnknown))
    && at.snap.plan == saga.plan && (saga.plan.Some? ==> j.sys.sv.saga == saga)
  }

  method BindSaga(j: Journal, pg: Program) returns (reply: Option<Saga>)
    requires j.Valid() && j.Me().program == pg && j.Me().pc.Init? && PlanFor(pg.steps).Some?
    modifies j
    ensures j.Valid()
    ensures reply.Some? ==> j.Me() == AfterReply(old(j.Me()), reply.value)
    ensures reply.None? ==> j.Me() == old(j.Me()).(pc := Done(JournalError))
    ensures old(j.Quiet() && Acceptable(pg, j.sys.sv.saga)) ==>
              BindEnd(j, pg, old(j.Me()), old(j.sys.sv.saga), reply)
  {
    if j.Quiet() && Acceptable(pg, j.sys.sv.saga) {
      j.Facts();
      UndisturbedBind(j.sys, j.a);
      BoundRows(pg, j.sys.sv.saga);
    }
    reply := j.Exchange();
  }

  lemma BoundRows(pg: Program, saga: Saga)
    requires SagaInv(saga) && Acceptable(pg, saga)
    ensures |RowsAtBind(pg, saga)| == |pg.steps|
  {
  }

  /**
   * The whole attempt. Left to itself, with a plan the journal takes and compensators that work, it ends in
   * `ready`, `compensated` or `outcome_unknown` if and only if no step sticks: none meets a guard digest other
   * than its own, none fails with an error text over the size limit, and at none does the context end (unless a
   * compensator below is lost). On a saga cancelled before the attempt bound its plan it ends as `CancelledEnd` says.
   */
  method ExecuteRecoverable(j: Journal, pg: Program) returns (result: Result)
    requires j.Valid() && j.Me().program == pg && j.Me().pc.Init?
    modifies j
    ensures j.Valid() && j.Me().pc == Done(result)
    ensures old(j.Calm() && Acceptable(pg, j.sys.sv.saga)) ==>
              var rows := RowsAtBind(pg, old(j.sys.sv.saga));
              && |rows| == |pg.steps|
              && if old(j.sys.sv.saga.state) == SUnknown
                 then result == ErrUnknown && j.sys.sv.saga.state == SUnknown
                 else RunEnd(j, pg, rows, result)
    ensures old(j.Quiet() && Acceptable(pg, j.sys.sv.saga) && j.sys.sv.saga.cancelRequested && Forewarned(j.Me())) ==>
              if old(StateTold(j.Me())) == SUnknown then result == ErrUnknown && j.sys.sv.saga == old(j.sys.sv.saga)
              else CancelledEnd(RowsAtBind(pg, old(j.sys.sv.saga)), StateAtBind(old(j.sys.sv.saga)), result, j.sys.sv.saga.state)
  {
    var plan := BuildSagaPlan(pg.steps);
    if plan.None? {
      j.Turn(false);
      return PlanRefused;
    }
    var reply := BindSaga(j, pg);
    if reply.None? {
      return JournalError;
    }
    var snapshot := reply.value;
    if snapshot.plan != plan {
      return PlanRefused;
    }
    if snapshot.state == SUnknown {
      if j.Calm() {
        EndState(j);
      }
      return ErrUnknown;
    }
    if snapshot.cancelRequested {
      result := UndoAll(j, pg, snapshot);
      return;
    }
    RowsInRange(j);
    result := RunSteps(j, pg, snapshot);
  }
}
