/** Every event is a legal move, so every reachable state of the protocol satisfies the invariant. */
module ProtocolEvents {
  import opened Text
  import opened SagaJournal
  import opened Attempts
  import opened AttemptInvariants
  import opened Protocol
  import opened ProtocolSteps
  import Brain

  /** What the invariant says about one attempt. */
  predicate Known(s: Sys, a: nat) {
    && a < |s.attempts|
    && Brain.Inv(s.sv) && ExecRows(s.sv.saga.rows)
    && AttemptInv(s.attempts[a]) && SagaLeq(s.attempts[a].snap, s.sv.saga)
    && s.sv.item.lease.epoch == |s.attempts|
    && s.attempts[a].lease.epoch == a + 1
    && (a == |s.attempts| - 1 ==> s.attempts[a].lease == s.sv.item.lease && Fresh(s.attempts[a], s.sv.saga))
  }

  lemma Know(s: Sys, a: nat)
    requires Inv(s) && a < |s.attempts|
    ensures Known(s, a)
  {
  }

  // ---- the server alone -------------------------------------------------------------------------

  lemma QuietLegal(s: Sys, e: Brain.Event)
    requires Brain.Inv(s.sv) && !e.Grant? && !e.Report?
    ensures Legal(s, ServerMove(Brain.Step(s.sv, e)))
  {
    Brain.StepKeepsInv(s.sv, e);
  }

  lemma GrantLegal(s: Sys, worker: string, id: string, program: Program)
    requires Brain.Inv(s.sv) && Brain.Grantable(s.sv)
    ensures var sv := Brain.Step(s.sv, Brain.Grant(worker, id));
            Legal(s, Join(Attempt(sv.item.lease, program, sv.saga, Init, true), sv))
  {
    Brain.StepKeepsInv(s.sv, Brain.Grant(worker, id));
  }

  // ---- loop heads, crashes, deeds ---------------------------------------------------------------

  /** A loop head resumes a crossed effect boundary only for a replayable deed. */
  lemma ThinkResumesReplayable(at: Attempt, contextDone: bool)
    ensures var due := Due(Think(at, contextDone).pc);
            due.Some? && due != Due(at.pc) ==>
              && 0 <= due.value.i < |at.snap.rows|
              && !Once(at.snap.rows, due.value)
              && (if due.value.kind == Action then at.snap.rows[due.value.i].action == Effect
                  else at.snap.rows[due.value.i].comp == CEffect)
  {
  }

  lemma ThinkDue(at: Attempt, contextDone: bool, rows: seq<StepRow>)
    requires (forall k :: 0 <= k < |at.snap.rows| ==> RowInv(at.snap.rows[k])) && RowsLeq(at.snap.rows, rows)
    ensures DueMoves(rows, rows, at.pc, Think(at, contextDone).pc)
  {
    ThinkResumesReplayable(at, contextDone);
    var due := Due(Think(at, contextDone).pc);
    if due.Some? && due != Due(at.pc) {
      assert RowInv(at.snap.rows[due.value.i]) && RowLeq(at.snap.rows[due.value.i], rows[due.value.i]);
    }
  }

  lemma ThinkPasses(at: Attempt, contextDone: bool)
    ensures forall act :: Passed(at.pc, act) ==> Passed(Think(at, contextDone).pc, act)
  {
  }

  lemma TurnLegal(s: Sys, a: nat, contextDone: bool)
    requires Known(s, a)
    ensures Legal(s, AttemptMove(a, Think(s.attempts[a], contextDone), s.sv))
  {
    var at := s.attempts[a];
    ThinkKeeps(at, contextDone);
    ThinkDue(at, contextDone, s.sv.saga.rows);
    ThinkPasses(at, contextDone);
    SagaLeqReflexive(s.sv.saga);
    ThinkFrame(at, contextDone, s.sv.saga);
    MoveLegal(s, a, Think(at, contextDone));
  }

  lemma ThinkFrame(at: Attempt, contextDone: bool, saga: Saga)
    ensures Think(at, contextDone).lease == at.lease && Think(at, contextDone).snap == at.snap
    ensures Fresh(at, saga) ==> Fresh(Think(at, contextDone), saga)
  {
  }

  /** A move that leaves the server as it is. */
  lemma MoveLegal(s: Sys, a: nat, at: Attempt)
    requires Known(s, a) && AttemptInv(at) && at.lease == s.attempts[a].lease && at.snap == s.attempts[a].snap
    requires Fresh(s.attempts[a], s.sv.saga) ==> Fresh(at, s.sv.saga)
    requires forall act :: Passed(s.attempts[a].pc, act) ==> Passed(at.pc, act)
    requires DueMoves(s.sv.saga.rows, s.sv.saga.rows, s.attempts[a].pc, at.pc) && SagaLeq(s.sv.saga, s.sv.saga)
    ensures Legal(s, AttemptMove(a, at, s.sv))
  {
  }

  lemma CrashLegal(s: Sys, a: nat)
    requires Known(s, a)
    ensures Legal(s, AttemptMove(a, s.attempts[a].(alive := false), s.sv))
  {
    SagaLeqReflexive(s.sv.saga);
  }

  lemma GiveUpKeeps(at: Attempt)
    requires AttemptInv(at)
    ensures AttemptInv(at.(pc := Done(JournalError)))
  {
  }

  lemma GiveUpLegal(s: Sys, a: nat)
    requires Known(s, a)
    ensures Legal(s, AttemptMove(a, s.attempts[a].(pc := Done(JournalError)), s.sv))
  {
    SagaLeqReflexive(s.sv.saga);
    GiveUpKeeps(s.attempts[a]);
  }

  lemma PerformPasses(at: Attempt, error: Option<string>)
    requires Due(at.pc).Some?
    ensures Passed(AfterAction(at, error).pc, Due(at.pc).value) && Due(AfterAction(at, error).pc).None?
    ensures forall act :: Passed(at.pc, act) ==> Passed(AfterAction(at, error).pc, act)
  {
  }

  lemma PerformLegal(s: Sys, a: nat, error: Option<string>)
    requires Known(s, a) && Due(s.attempts[a].pc).Some?
    ensures Legal(s, DeedMove(a, AfterAction(s.attempts[a], error)))
  {
    AfterActionKeeps(s.attempts[a], error);
    PerformPasses(s.attempts[a], error);
  }

  // ---- journal calls ----------------------------------------------------------------------------

  function ReplyTo(s: Sys, a: nat): Reply
    requires a < |s.attempts| && NextCall(s.attempts[a]).Some?
  {
    Brain.ReportReply(s.sv, s.attempts[a].lease, NextCall(s.attempts[a]).value)
  }

  /** Only the lease holder is answered, and its call keeps the journal an executor's journal. */
  lemma BindStaysExec(s: Saga, plan: Plan)
    requires ExecSaga(s)
    ensures Bind(s, plan).Ok? ==> ExecSaga(Bind(s, plan).saga)
  {
    BindKeeps(s, plan);
  }

  lemma ServerAnswerKeeps(sv: Brain.Server, lease: Brain.Lease, request: Brain.Request)
    requires Brain.Inv(sv) && Brain.ReportReply(sv, lease, request).Ok?
    ensures var t := Brain.ReportReply(sv, lease, request).saga;
            Brain.Inv(sv.(saga := t)) && SagaLeq(sv.saga, t)
  {
    Brain.ReportKeepsInv(sv, lease, request);
  }

  lemma HolderAnswerKeeps(at: Attempt, saga: Saga)
    requires AttemptInv(at) && NextCall(at).Some? && ExecSaga(saga)
    requires !at.pc.Init? ==> UpToDate(at, saga) && saga.state != SUnknown
    ensures match NextCall(at).value
            case BindReq(plan) => Bind(saga, plan).Ok? ==> ExecSaga(Bind(saga, plan).saga)
            case RecordReq(r) => Record(saga, r).Ok? ==> ExecSaga(Record(saga, r).saga)
  {
    if at.pc.Init? {
      BindStaysExec(saga, NextCall(at).value.plan);
    } else {
      ReplyStaysExec(at, saga);
    }
  }

  lemma AnswerKeeps(s: Sys, a: nat)
    requires Known(s, a) && NextCall(s.attempts[a]).Some? && ReplyTo(s, a).Ok?
    ensures a == |s.attempts| - 1
    ensures var t := ReplyTo(s, a).saga;
            Brain.Inv(s.sv.(saga := t)) && ExecSaga(t) && SagaLeq(s.sv.saga, t)
  {
    var at := s.attempts[a];
    ServerAnswerKeeps(s.sv, at.lease, NextCall(at).value);
    HolderAnswerKeeps(at, s.sv.saga);
  }

  /** An attempt that gave up stands where anyone may stand. */
  lemma GaveUp(s: Sys, a: nat, saga: Saga)
    requires a < |s.attempts| && AttemptInv(s.attempts[a]) && SagaLeq(s.attempts[a].snap, saga)
    requires a == |s.attempts| - 1 || saga == s.sv.saga
    ensures LegalAttempt(s, a, s.attempts[a].(pc := Done(JournalError)), saga)
  {
  }

  lemma LateLegal(s: Sys, a: nat)
    requires Known(s, a) && NextCall(s.attempts[a]).Some? && ReplyTo(s, a).Ok?
    ensures Legal(s, AttemptMove(a, s.attempts[a].(pc := Done(JournalError)), s.sv.(saga := ReplyTo(s, a).saga)))
  {
    AnswerKeeps(s, a);
    SagaLeqTransitive(s.attempts[a].snap, s.sv.saga, ReplyTo(s, a).saga);
    GaveUp(s, a, ReplyTo(s, a).saga);
  }

  lemma CachedBindLegal(s: Sys, a: nat)
    requires Known(s, a) && s.attempts[a].pc.Init? && NextCall(s.attempts[a]).Some?
    ensures Legal(s, AttemptMove(a, AfterReply(s.attempts[a], s.attempts[a].snap), s.sv))
  {
    var at := s.attempts[a];
    AfterBindKeeps(at.program, at.snap);
    SagaLeqReflexive(s.sv.saga);
  }

  lemma BindLegal(s: Sys, a: nat)
    requires Known(s, a) && s.attempts[a].pc.Init? && NextCall(s.attempts[a]).Some? && ReplyTo(s, a).Ok?
    requires s.attempts[a].snap.plan != PlanFor(s.attempts[a].program.steps)
    ensures var t := ReplyTo(s, a).saga;
            Legal(s, AttemptMove(a, AfterReply(s.attempts[a], t), s.sv.(saga := t)))
  {
    AnswerKeeps(s, a);
    AfterBindKeeps(s.attempts[a].program, ReplyTo(s, a).saga);
    SagaLeqReflexive(ReplyTo(s, a).saga);
  }

  lemma ReplyPasses(at: Attempt, t: Saga)
    requires Outgoing(at.pc).Wire?
    ensures forall act :: Passed(at.pc, act) ==> Passed(AfterReply(at, t).pc, act)
  {
  }

  /** A call makes a deed due exactly when it recorded that deed's effect boundary. */
  lemma AnswerDue(at: Attempt, saga: Saga)
    requires Outgoing(at.pc).Wire? && 0 <= Outgoing(at.pc).i < |saga.rows| == |at.program.steps|
    requires Ready(at.pc, saga.rows[Outgoing(at.pc).i], GuardAt(at.program, Outgoing(at.pc).i))
    requires AnswerTo(at, saga).Ok?
    ensures var t := AnswerTo(at, saga).saga;
            DueMoves(saga.rows, t.rows, at.pc, AfterReply(at, t).pc)
  {
  }

  lemma AnswerFresh(at: Attempt, saga: Saga)
    requires Outgoing(at.pc).Wire? && 0 <= Outgoing(at.pc).i < |saga.rows| == |at.program.steps|
    requires AnswerTo(at, saga).Ok?
    ensures Fresh(AfterReply(at, AnswerTo(at, saga).saga), AnswerTo(at, saga).saga)
  {
  }

  lemma RecordFreshAndDue(s: Sys, a: nat)
    requires Known(s, a) && Outgoing(s.attempts[a].pc).Wire? && NextCall(s.attempts[a]).Some? && ReplyTo(s, a).Ok?
    ensures var t := ReplyTo(s, a).saga;
            var at' := AfterReply(s.attempts[a], t);
            Fresh(at', t) && DueMoves(s.sv.saga.rows, t.rows, s.attempts[a].pc, at'.pc)
  {
    HolderCall(s.attempts[a], s.sv.saga);
    InFocus(s.attempts[a]);
    AnswerFresh(s.attempts[a], s.sv.saga);
    AnswerDue(s.attempts[a], s.sv.saga);
  }

  lemma RecordLegal(s: Sys, a: nat)
    requires Known(s, a) && Outgoing(s.attempts[a].pc).Wire? && NextCall(s.attempts[a]).Some? && ReplyTo(s, a).Ok?
    ensures var t := ReplyTo(s, a).saga;
            Legal(s, AttemptMove(a, AfterReply(s.attempts[a], t), s.sv.(saga := t)))
  {
    AnswerKeeps(s, a);
    AfterReplyKeeps(s.attempts[a], s.sv.saga);
    RecordFreshAndDue(s, a);
    ReplyPasses(s.attempts[a], ReplyTo(s, a).saga);
    SagaLeqReflexive(ReplyTo(s, a).saga);
  }

  lemma CallLegal(s: Sys, a: nat) returns (m: Move)
    requires Known(s, a) && NextCall(s.attempts[a]).Some?
    ensures Legal(s, m) && Called(s, a) == Apply(s, m)
  {
    var at := s.attempts[a];
    if at.pc.Init? && at.snap.plan == PlanFor(at.program.steps) {
      CachedBindLegal(s, a);
      m := AttemptMove(a, AfterReply(at, at.snap), s.sv);
    } else if ReplyTo(s, a).Ok? {
      var t := ReplyTo(s, a).saga;
      if at.pc.Init? {
        BindLegal(s, a);
      } else {
        RecordLegal(s, a);
      }
      m := AttemptMove(a, AfterReply(at, t), s.sv.(saga := t));
    } else {
      GiveUpLegal(s, a);
      m := AttemptMove(a, at.(pc := Done(JournalError)), s.sv);
    }
  }

  lemma ReportEffect(sv: Brain.Server, lease: Brain.Lease, request: Brain.Request)
    ensures var reply := Brain.ReportReply(sv, lease, request);
            Brain.Step(sv, Brain.Report(lease, request)) == if reply.Ok? then sv.(saga := reply.saga) else sv
  {
  }

  lemma LateMoveLegal(s: Sys, a: nat)
    requires Known(s, a) && NextCall(s.attempts[a]).Some?
    ensures var at := s.attempts[a];
            Legal(s, AttemptMove(a, at.(pc := Done(JournalError)), Brain.Step(s.sv, Brain.Report(at.lease, NextCall(at).value))))
  {
    var at := s.attempts[a];
    ReportEffect(s.sv, at.lease, NextCall(at).value);
    if ReplyTo(s, a).Ok? {
      LateLegal(s, a);
    } else {
      GiveUpLegal(s, a);
    }
  }

  lemma LateCallLegal(s: Sys, a: nat) returns (m: Move)
    requires Known(s, a) && NextCall(s.attempts[a]).Some?
    ensures Legal(s, m) && CalledLate(s, a) == Apply(s, m)
  {
    var at := s.attempts[a];
    LateMoveLegal(s, a);
    m := AttemptMove(a, at.(pc := Done(JournalError)), Brain.Step(s.sv, Brain.Report(at.lease, NextCall(at).value)));
  }

  // ---- every event, every run -------------------------------------------------------------------

  /** An event of one attempt's process, or of a call it made. */
  predicate OfAttempt(e: Event) {
    e.Turn? || e.Call? || e.Crash? || e.Late? || e.Perform?
  }

  /** What the server does on its own, for a user, or for a lease holder. */
  lemma ServerEventLegal(s: Sys, e: Event) returns (m: Move)
    requires Brain.Inv(s.sv) && !OfAttempt(e) && !e.Grant? && Next(s, e) != s
    ensures Legal(s, m) && Next(s, e) == Apply(s, m)
  {
    var be :=
      match e
      case Tick(elapsed) => Brain.Tick(elapsed)
      case CancelRun(modelEffects) => Brain.Cancel(modelEffects)
      case ExtendLease(a) => Brain.Extend(s.attempts[a].lease)
      case CompleteWork(a) => Brain.Complete(s.attempts[a].lease)
      case FailWork(a) => Brain.FailWork(s.attempts[a].lease)
      case _ => Brain.ExpireDeadline;
    QuietLegal(s, be);
    m := ServerMove(Brain.Step(s.sv, be));
  }

  lemma GrantEventLegal(s: Sys, worker: string, id: string, program: Program) returns (m: Move)
    requires Brain.Inv(s.sv) && Brain.Grantable(s.sv)
    ensures Legal(s, m) && Next(s, Grant(worker, id, program)) == Apply(s, m)
  {
    GrantLegal(s, worker, id, program);
    var sv := Brain.Step(s.sv, Brain.Grant(worker, id));
    m := Join(Attempt(sv.item.lease, program, sv.saga, Init, true), sv);
  }

  /** A loop head, or a crash. */
  lemma LoopEventLegal(s: Sys, e: Event) returns (m: Move)
    requires (e.Turn? || e.Crash?) && Known(s, e.a) && Next(s, e) != s
    ensures Legal(s, m) && Next(s, e) == Apply(s, m)
  {
    if e.Turn? {
      TurnLegal(s, e.a, e.contextDone);
      m := AttemptMove(e.a, Think(s.attempts[e.a], e.contextDone), s.sv);
    } else {
      CrashLegal(s, e.a);
      m := AttemptMove(e.a, s.attempts[e.a].(alive := false), s.sv);
    }
  }

  /** A journal call, in time or late. */
  lemma CallEventLegal(s: Sys, e: Event) returns (m: Move)
    requires (e.Call? || e.Late?) && Known(s, e.a) && Next(s, e) != s
    ensures Legal(s, m) && Next(s, e) == Apply(s, m)
  {
    if e.Call? {
      m := CallLegal(s, e.a);
    } else {
      m := LateCallLegal(s, e.a);
    }
  }

  /** An action or a compensator. */
  lemma DeedEventLegal(s: Sys, e: Event) returns (m: Move)
    requires e.Perform? && Known(s, e.a) && Next(s, e) != s
    ensures Legal(s, m) && Next(s, e) == Apply(s, m)
  {
    var error := ActionError(s.attempts[e.a], e.error);
    PerformLegal(s, e.a, error);
    m := DeedMove(e.a, AfterAction(s.attempts[e.a], error));
  }

  /** The parts of the invariant an event needs. */
  lemma PartsFor(s: Sys, e: Event)
    requires Inv(s) && Next(s, e) != s
    ensures Brain.Inv(s.sv)
    ensures OfAttempt(e) ==> Known(s, e.a)
    ensures e.Grant? ==> Brain.Grantable(s.sv)
  {
    if OfAttempt(e) {
      Know(s, e.a);
    }
  }

  lemma AnyEventLegal(s: Sys, e: Event) returns (m: Move)
    requires Brain.Inv(s.sv) && (OfAttempt(e) ==> Known(s, e.a)) && (e.Grant? ==> Brain.Grantable(s.sv)) && Next(s, e) != s
    ensures Legal(s, m) && Next(s, e) == Apply(s, m)
  {
    if e.Turn? || e.Crash? {
      m := LoopEventLegal(s, e);
    } else if e.Call? || e.Late? {
      m := CallEventLegal(s, e);
    } else if e.Perform? {
      m := DeedEventLegal(s, e);
    } else if e.Grant? {
      m := GrantEventLegal(s, e.worker, e.id, e.program);
    } else {
      m := ServerEventLegal(s, e);
    }
  }

  lemma EventLegal(s: Sys, e: Event) returns (m: Move)
    requires Inv(s) && Next(s, e) != s
    ensures Legal(s, m) && Next(s, e) == Apply(s, m)
  {
    PartsFor(s, e);
    m := AnyEventLegal(s, e);
  }

  lemma NextKeepsInv(s: Sys, e: Event)
    requires Inv(s)
    ensures Inv(Next(s, e))
  {
    if Next(s, e) != s {
      var m := EventLegal(s, e);
      MoveKeepsInv(s, m);
    }
  }

  lemma {:induction false} ExecKeepsInv(s: Sys, es: seq<Event>)
    requires Inv(s)
    ensures Inv(Exec(s, es))
  {
    if es != [] {
      ExecKeepsInv(s, es[..|es| - 1]);
      NextKeepsInv(Exec(s, es[..|es| - 1]), es[|es| - 1]);
    }
  }

  lemma StartInv(runDeadline: Option<int>, now: int)
    ensures Inv(Start(runDeadline, now))
  {
  }
}
