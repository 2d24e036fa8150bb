/**
 * The server side of one work item (lib/brain/agent_run.go): lease columns, run state, saga journal and
 * the transactions on them. Every transaction is one atomic step; any lease holder may send any request.
 */
module Brain {
  import opened Text
  import opened SagaJournal

  datatype WorkStatus = WPending | WLeased | WSucceeded | WFailed | WCancelled
  datatype RunState = RPending | RRunning | RCancelling | RSucceeded | RFailed | RCancelled | RUnknown

  datatype Lease = Lease(worker: string, id: string, epoch: nat)

  datatype Item = Item(status: WorkStatus, lease: Lease, deadline: Option<int>)

  /** History: which transaction closed the work item. */
  datatype Closing = Open | ByComplete | ByFail | ByCancel | ByDeadline

  datatype Server = Server(
    saga: Saga, item: Item, run: RunState, runDeadline: Option<int>, now: int, closing: Closing)

  datatype Request = BindReq(plan: Plan) | RecordReq(receipt: Receipt)

  datatype Event =
    | Tick(elapsed: nat)
    | Grant(worker: string, id: string)
    | Extend(lease: Lease)
    | Report(lease: Lease, request: Request)
    | Complete(lease: Lease)
    | FailWork(lease: Lease)
    | Cancel(modelEffects: bool)
    | ExpireDeadline

  /** Lease duration in seconds (kernel.CapabilityTokenMaxTTL). */
  const LEASE_TTL := 900

  function NewServer(runDeadline: Option<int>, now: int): Server {
    Server(NEW_SAGA, Item(WPending, Lease("", "", 0), None), RPending, runDeadline, now, Open)
  }

  predicate Live(sv: Server, lease: Lease) {
    && sv.item.status == WLeased
    && sv.item.lease == lease
    && sv.item.deadline.Some?
    && sv.now < sv.item.deadline.value
  }

  predicate RunTerminal(run: RunState) {
    run == RSucceeded || run == RFailed || run == RCancelled || run == RUnknown
  }

  predicate DeadlinePassed(sv: Server) {
    sv.runDeadline.Some? && sv.runDeadline.value <= sv.now
  }

  // ---- the transactions -------------------------------------------------------------------------

  predicate Grantable(sv: Server) {
    && (|| sv.item.status == WPending
        || (sv.item.status == WLeased && sv.item.deadline.Some? && sv.item.deadline.value < sv.now))
    && !DeadlinePassed(sv)
    && !RunTerminal(sv.run)
  }

  /** ReportProgress: the lease check and the journal transaction share one lock. */
  function ReportReply(sv: Server, lease: Lease, request: Request): Reply {
    if !Live(sv, lease) then Refused(NoLease)
    else
      match request
      case BindReq(plan) => Bind(sv.saga, plan)
      case RecordReq(receipt) => Record(sv.saga, receipt)
  }

  /** ensureRunSagaTerminal with complete=false. */
  predicate SettledForFailure(saga: Saga) {
    || (saga.state == SPending && saga.plan.None?)
    || saga.state == SCompensated
    || saga.state == SUnknown
  }

  predicate HasSagaEffects(rows: seq<StepRow>) {
    exists k :: 0 <= k < |rows| && (rows[k].effectStarted || rows[k].action == Unknown)
  }

  function Step(sv: Server, e: Event): Server {
    match e
    case Tick(elapsed) => sv.(now := sv.now + elapsed)
    case Grant(worker, id) =>
      if !Grantable(sv) then sv
      else sv.(item := Item(WLeased, Lease(worker, id, sv.item.lease.epoch + 1), Some(sv.now + LEASE_TTL)),
               run := if sv.run == RCancelling then RCancelling else RRunning)
    case Extend(lease) =>
      if !Live(sv, lease) || DeadlinePassed(sv) then sv
      else sv.(item := sv.item.(deadline := Some(sv.now + LEASE_TTL)))
    case Report(lease, request) =>
      var reply := ReportReply(sv, lease, request);
      if reply.Ok? then sv.(saga := reply.saga) else sv
    case Complete(lease) =>
      if DeadlinePassed(sv) || !Live(sv, lease) || sv.saga.state != SReady || sv.saga.cancelRequested then sv
      else sv.(item := sv.item.(status := WSucceeded), run := RSucceeded, closing := ByComplete)
    case FailWork(lease) =>
      if DeadlinePassed(sv) || !Live(sv, lease) || !SettledForFailure(sv.saga) then sv
      else
        var saga := if sv.saga.state == SPending then sv.saga.(state := SCompensated) else sv.saga;
        var closed := sv.(saga := saga, closing := ByFail);
        if saga.state == SUnknown then closed.(item := sv.item.(status := WFailed), run := RUnknown)
        else if saga.cancelRequested then closed.(item := sv.item.(status := WCancelled), run := RCancelled)
        else closed.(item := sv.item.(status := WFailed), run := RFailed)
    case Cancel(modelEffects) =>
      if RunTerminal(sv.run) then sv
      else if HasSagaEffects(sv.saga.rows) || modelEffects then
        sv.(saga := sv.saga.(cancelRequested := true, state := SCancelling), run := RCancelling)
      else
        sv.(saga := sv.saga.(cancelRequested := true, state := SCompensated), run := RCancelled,
            item := sv.item.(status := WCancelled), closing := ByCancel)
    case ExpireDeadline =>
      if RunTerminal(sv.run) || !DeadlinePassed(sv) then sv
      else sv.(item := sv.item.(status := WFailed), run := RFailed, closing := ByDeadline)
  }

  function Exec(sv: Server, es: seq<Event>): Server {
    if es == [] then sv else Step(Exec(sv, es[..|es| - 1]), es[|es| - 1])
  }

  // ---- the invariant of every run ---------------------------------------------------------------

  /** Settled as the documentation promises: nothing started and compensatable is left standing. */
  predicate Settled(saga: Saga) {
    saga.plan.None? || AllCompensated(saga.rows) || AnyUnknown(saga.rows)
  }

  /** The run's own state, as the item and the saga stand. */
  predicate RunFollows(sv: Server) {
    && (sv.run == RSucceeded <==> sv.item.status == WSucceeded)
    && (sv.run == RCancelled <==> sv.item.status == WCancelled)
    && (sv.run == RUnknown <==> sv.closing == ByFail && sv.saga.state == SUnknown)
    && (sv.run == RFailed <==> sv.item.status == WFailed && !(sv.closing == ByFail && sv.saga.state == SUnknown))
    && (sv.run == RCancelling <==> sv.closing == Open && sv.saga.cancelRequested)
    && (sv.run == RPending <==> sv.item.status == WPending && !sv.saga.cancelRequested)
    && (sv.run == RRunning <==> sv.item.status == WLeased && !sv.saga.cancelRequested)
  }

  predicate Inv(sv: Server) {
    && SagaInv(sv.saga)
    && RunFollows(sv)
    && (sv.closing == Open && sv.saga.plan.None? && !sv.saga.cancelRequested ==> sv.saga.state == SPending)
    && (sv.saga.cancelRequested ==> sv.saga.state != SPending)
    && (sv.item.status == WLeased ==> sv.item.deadline.Some?)
    && (sv.closing == Open && sv.item.lease.epoch > 0 ==> sv.item.status == WLeased)
    && (sv.closing == Open <==> sv.item.status == WPending || sv.item.status == WLeased)
    && (sv.closing == Open <==> !RunTerminal(sv.run))
    && (sv.item.status == WPending <== sv.item.lease.epoch == 0 && sv.closing == Open)
    && (sv.item.status == WPending ==> sv.item.lease.epoch == 0)
    && (sv.closing == Open && sv.saga.state == SCompensated ==> sv.saga.plan.Some?)
    && (sv.item.status == WSucceeded ==>
          && sv.saga.plan.Some? && AllSucceeded(sv.saga.rows) && !sv.saga.cancelRequested)
    && (sv.item.status == WCancelled ==> sv.saga.cancelRequested)
    && (sv.closing == ByFail || sv.closing == ByCancel ==> Settled(sv.saga))
    && (sv.closing == ByDeadline ==> DeadlinePassed(sv) && sv.item.status == WFailed)
    && (sv.closing == ByComplete <==> sv.item.status == WSucceeded)
  }

  lemma ReportKeepsInv(sv: Server, lease: Lease, request: Request)
    requires Inv(sv)
    ensures var sv' := Step(sv, Report(lease, request));
            Inv(sv') && SagaLeq(sv.saga, sv'.saga)
  {
    match request
    case BindReq(plan) => BindKeeps(sv.saga, plan);
    case RecordReq(receipt) => RecordKeeps(sv.saga, receipt);
  }

  lemma CancelKeepsInv(sv: Server, modelEffects: bool)
    requires Inv(sv)
    ensures var sv' := Step(sv, Cancel(modelEffects));
            Inv(sv') && SagaLeq(sv.saga, sv'.saga)
  {
    if !HasSagaEffects(sv.saga.rows) {
      assert AllCompensated(sv.saga.rows);
    }
  }

  /** What a failure leaves of the saga: settled, with its rows as they were. */
  lemma FailSettles(saga: Saga)
    requires SagaInv(saga) && SettledForFailure(saga)
    ensures var next := if saga.state == SPending then saga.(state := SCompensated) else saga;
            SagaInv(next) && Settled(next) && SagaLeq(saga, next)
  {
  }

  lemma FailKeepsInv(sv: Server, lease: Lease)
    requires Inv(sv)
    ensures var sv' := Step(sv, FailWork(lease));
            Inv(sv') && SagaLeq(sv.saga, sv'.saga)
  {
    if SettledForFailure(sv.saga) {
      FailSettles(sv.saga);
    }
    SagaLeqReflexive(sv.saga);
  }

  lemma LeasingKeepsInv(sv: Server, e: Event)
    requires Inv(sv) && (e.Tick? || e.Grant? || e.Extend?)
    ensures Inv(Step(sv, e)) && Step(sv, e).saga == sv.saga
  {
  }

  lemma ClosingKeepsInv(sv: Server, e: Event)
    requires Inv(sv) && (e.Complete? || e.ExpireDeadline?)
    ensures Inv(Step(sv, e)) && Step(sv, e).saga == sv.saga
  {
  }

  lemma StepKeepsInv(sv: Server, e: Event)
    requires Inv(sv)
    ensures Inv(Step(sv, e))
    ensures SagaLeq(sv.saga, Step(sv, e).saga)
  {
    SagaLeqReflexive(sv.saga);
    match e
    case Report(lease, request) => ReportKeepsInv(sv, lease, request);
    case Cancel(modelEffects) => CancelKeepsInv(sv, modelEffects);
    case FailWork(lease) => FailKeepsInv(sv, lease);
    case Complete(_) => ClosingKeepsInv(sv, e);
    case ExpireDeadline => ClosingKeepsInv(sv, e);
    case _ => LeasingKeepsInv(sv, e);
  }

  lemma {:induction false} ExecKeepsInv(sv: Server, es: seq<Event>)
    requires Inv(sv)
    ensures Inv(Exec(sv, es))
  {
    if es != [] {
      ExecKeepsInv(sv, es[..|es| - 1]);
      StepKeepsInv(Exec(sv, es[..|es| - 1]), es[|es| - 1]);
    }
  }

  // ---- main results -----------------------------------------------------------------------------

  /**
   * Settlement gates, for every interleaving of binds, receipts, cancels, completions, failures, leases,
   * clock steps and deadline expiries, whatever the lease holder sends.
   */
  lemma SettlementGates(runDeadline: Option<int>, now: int, es: seq<Event>)
    ensures var sv := Exec(NewServer(runDeadline, now), es);
            && (sv.item.status == WSucceeded ==>
                  sv.saga.plan.Some? && AllSucceeded(sv.saga.rows) && !sv.saga.cancelRequested)
            && (sv.item.status == WFailed || sv.item.status == WCancelled ==>
                  Settled(sv.saga) || (sv.closing == ByDeadline && DeadlinePassed(sv)))
            && (sv.item.status == WCancelled ==> sv.saga.cancelRequested)
            && RunFollows(sv)
  {
    ExecKeepsInv(NewServer(runDeadline, now), es);
  }

  /** The saga is ready exactly if it is bound and uncancelled, every step succeeded, and no compensation is unknown. */
  lemma ReadyExactly(saga: Saga)
    requires SagaInv(saga)
    ensures saga.state == SReady <==>
            saga.plan.Some? && AllSucceeded(saga.rows) && !AnyUnknown(saga.rows) && !saga.cancelRequested
  {
    if saga.plan.Some? && AllSucceeded(saga.rows) {
      assert !AnyFailed(saga.rows);
    }
    if saga.state == SReady {
      assert AllSucceeded(saga.rows);
    }
  }

  /** An open item completes exactly under a live lease, before its deadline, with every step succeeded and no cancel. */
  lemma CompletesExactly(sv: Server, lease: Lease)
    requires Inv(sv) && sv.closing == Open
    ensures var next := Step(sv, Complete(lease));
            if Live(sv, lease) && !DeadlinePassed(sv) && sv.saga.plan.Some? && AllSucceeded(sv.saga.rows)
               && !AnyUnknown(sv.saga.rows) && !sv.saga.cancelRequested
            then next.item.status == WSucceeded && next.saga == sv.saga && next.item.lease == sv.item.lease
            else next == sv
  {
    ReadyExactly(sv.saga);
  }

  /** Nothing is left to undo, as far as the rows of an uncancelled saga say. */
  predicate Undone(saga: Saga) {
    saga.plan.None? || AnyUnknown(saga.rows) || (AnyFailed(saga.rows) && AllCompensated(saga.rows))
  }

  /**
   * An open item fails exactly under a live lease, before its deadline, with nothing left to undo: for an uncancelled saga
   * its rows decide, for a cancelled one the state column. It ends cancelled exactly if it was cancelled and nothing is
   * unknown, and failed otherwise; the rows stay as they were.
   */
  lemma FailsExactly(sv: Server, lease: Lease)
    requires Inv(sv) && sv.closing == Open
    ensures var next := Step(sv, FailWork(lease));
            var settled := if sv.saga.cancelRequested then sv.saga.state in {SCompensated, SUnknown} else Undone(sv.saga);
            if Live(sv, lease) && !DeadlinePassed(sv) && settled
            then
              && next.closing == ByFail && next.saga.rows == sv.saga.rows && next.item.lease == sv.item.lease
              && (next.item.status == WCancelled <==> sv.saga.cancelRequested && sv.saga.state != SUnknown)
              && (next.item.status == WFailed <==> !(sv.saga.cancelRequested && sv.saga.state != SUnknown))
            else next == sv
  {
  }

  /** A cancel closes an open item exactly if nothing was started; otherwise it leaves the item to the lease holder. */
  lemma CancelsExactly(sv: Server, modelEffects: bool)
    requires Inv(sv) && sv.closing == Open
    ensures var next := Step(sv, Cancel(modelEffects));
            && next.saga.cancelRequested && next.saga.rows == sv.saga.rows && next.item.lease == sv.item.lease
            && if modelEffects || exists k :: 0 <= k < |sv.saga.rows| && sv.saga.rows[k].effectStarted
               then next.item == sv.item && next.saga.state == SCancelling && next.closing == Open
               else next.item.status == WCancelled && next.saga.state == SCompensated
  {
    forall k | 0 <= k < |sv.saga.rows|
      ensures sv.saga.rows[k].action == Unknown ==> sv.saga.rows[k].effectStarted
    {
      assert RowInv(sv.saga.rows[k]);
    }
  }

  /** An open item expires exactly from its deadline on. */
  lemma ExpiresExactly(sv: Server)
    requires Inv(sv) && sv.closing == Open
    ensures var next := Step(sv, ExpireDeadline);
            if sv.runDeadline.Some? && sv.now >= sv.runDeadline.value
            then next.item.status == WFailed && next.closing == ByDeadline && next.saga == sv.saga
            else next == sv
  {
  }

  /** An open item is granted exactly if its lease, if any, has run out and its run's deadline is not reached. */
  lemma GrantsExactly(sv: Server, worker: string, id: string)
    requires Inv(sv) && sv.closing == Open
    ensures var next := Step(sv, Grant(worker, id));
            if (sv.item.lease.epoch == 0 || sv.now > sv.item.deadline.value) && !(sv.runDeadline.Some? && sv.now >= sv.runDeadline.value)
            then next.item.lease == Lease(worker, id, sv.item.lease.epoch + 1) && Live(next, next.item.lease) && next.saga == sv.saga
            else next == sv
  {
  }

  /** A grant, or an extension under a live lease, makes the lease last exactly 900 seconds; nothing else moves its end. */
  lemma LeaseLasts(sv: Server, e: Event, elapsed: nat)
    requires Inv(sv) && sv.closing == Open
    requires (e.Grant? && Grantable(sv)) || (e.Extend? && Live(sv, e.lease) && !DeadlinePassed(sv))
    ensures var next := Step(sv, e);
            Live(Step(next, Tick(elapsed)), next.item.lease) <==> elapsed < 900
  {
  }

  /** A lease is extended exactly while it is live and its run's deadline is not reached; otherwise nothing changes. */
  lemma ExtendsExactly(sv: Server, lease: Lease)
    ensures var next := Step(sv, Extend(lease));
            if Live(sv, lease) && !(sv.runDeadline.Some? && sv.now >= sv.runDeadline.value)
            then next == sv.(item := sv.item.(deadline := Some(sv.now + 900)))
            else next == sv
  {
  }

  lemma LeaseEndStays(sv: Server, e: Event)
    requires !e.Grant? && !e.Extend?
    ensures Step(sv, e).item.deadline == sv.item.deadline && Step(sv, e).item.lease == sv.item.lease
  {
  }

  /** Nothing the journal ever accepted is taken back later in the run. */
  lemma {:induction false} JournalIsMonotone(runDeadline: Option<int>, now: int, es: seq<Event>, k: nat)
    requires k <= |es|
    ensures SagaLeq(Exec(NewServer(runDeadline, now), es[..k]).saga, Exec(NewServer(runDeadline, now), es).saga)
  {
    var sv := NewServer(runDeadline, now);
    if k == |es| {
      assert es[..k] == es;
    } else {
      var before := es[..|es| - 1];
      assert before[..k] == es[..k];
      JournalIsMonotone(runDeadline, now, before, k);
      ExecKeepsInv(sv, before);
      StepKeepsInv(Exec(sv, before), es[|es| - 1]);
      SagaLeqTransitive(Exec(sv, es[..k]).saga, Exec(sv, before).saga, Exec(sv, es).saga);
    }
  }

  /** A closed work item never changes again: no lease, no receipt, no cancel, no second outcome. */
  lemma {:induction false} ClosedIsFinal(runDeadline: Option<int>, now: int, es: seq<Event>, k: nat)
    requires k <= |es|
    requires Exec(NewServer(runDeadline, now), es[..k]).closing != Open
    ensures var closed := Exec(NewServer(runDeadline, now), es[..k]);
            var final := Exec(NewServer(runDeadline, now), es);
            final == closed.(now := final.now)
  {
    var sv := NewServer(runDeadline, now);
    if k == |es| {
      assert es[..k] == es;
    } else {
      var before := es[..|es| - 1];
      assert before[..k] == es[..k];
      ClosedIsFinal(runDeadline, now, before, k);
      ExecKeepsInv(sv, before);
    }
  }

  /** A started, compensatable effect is on record, neither compensated nor given up as unknown. */
  predicate Standing(saga: Saga) {
    && saga.plan.Some? && !AnyUnknown(saga.rows)
    && exists k :: 0 <= k < |saga.rows| && Eligible(saga.rows[k]) && saga.rows[k].comp != CDone
  }

  /** Of all transactions that close an item without success, only expiry can leave an effect standing, and does if one is. */
  lemma OnlyExpiryLeavesStanding(sv: Server, e: Event)
    requires Inv(sv) && sv.closing == Open
    requires Step(sv, e).item.status == WFailed || Step(sv, e).item.status == WCancelled
    ensures !Settled(Step(sv, e).saga) <==> e.ExpireDeadline? && Standing(sv.saga)
  {
    StepKeepsInv(sv, e);
  }

  /** Event k of the run is an expiry that finds the item open and an effect standing. */
  predicate ExpiresStanding(sv: Server, es: seq<Event>, k: int) {
    && 0 <= k < |es| && es[k].ExpireDeadline?
    && var before := Exec(sv, es[..k]);
       before.closing == Open && DeadlinePassed(before) && Standing(before.saga)
  }

  /** The event that closed a closed item. */
  lemma {:induction false} ClosingEvent(sv: Server, es: seq<Event>) returns (k: nat)
    requires sv.closing == Open && Exec(sv, es).closing != Open
    ensures k < |es| && Exec(sv, es[..k]).closing == Open && Exec(sv, es[..k + 1]).closing != Open
    ensures Exec(sv, es[..k + 1]) == Step(Exec(sv, es[..k]), es[k])
  {
    var n := |es| - 1;
    if Exec(sv, es[..n]).closing != Open {
      k := ClosingEvent(sv, es[..n]);
      assert es[..n][..k] == es[..k] && es[..n][..k + 1] == es[..k + 1];
    } else {
      k := n;
      assert es[..n + 1] == es;
    }
  }

  /**
   * In every run, an item that failed or was cancelled has an effect left standing if and only if it was closed by the
   * expiry of its deadline while one was.
   */
  lemma UnsettledExactly(runDeadline: Option<int>, now: int, es: seq<Event>)
    requires Exec(NewServer(runDeadline, now), es).item.status in {WFailed, WCancelled}
    ensures !Settled(Exec(NewServer(runDeadline, now), es).saga) <==>
            exists k :: ExpiresStanding(NewServer(runDeadline, now), es, k)
  {
    if !Settled(Exec(NewServer(runDeadline, now), es).saga) {
      var k := UnsettledByExpiry(runDeadline, now, es);
    }
    forall k | ExpiresStanding(NewServer(runDeadline, now), es, k)
      ensures !Settled(Exec(NewServer(runDeadline, now), es).saga)
    {
      ExpiryUnsettles(runDeadline, now, es, k);
    }
  }

  lemma UnsettledByExpiry(runDeadline: Option<int>, now: int, es: seq<Event>) returns (k: nat)
    requires var sv := Exec(NewServer(runDeadline, now), es);
             sv.item.status in {WFailed, WCancelled} && !Settled(sv.saga)
    ensures ExpiresStanding(NewServer(runDeadline, now), es, k)
  {
    var sv := NewServer(runDeadline, now);
    StaysClosed(sv, es);
    k := ClosingEvent(sv, es);
    ExecKeepsInv(sv, es[..k]);
    ClosedIsFinal(runDeadline, now, es, k + 1);
    OnlyExpiryLeavesStanding(Exec(sv, es[..k]), es[k]);
  }

  lemma StaysClosed(sv: Server, es: seq<Event>)
    requires Inv(sv) && Exec(sv, es).item.status in {WFailed, WCancelled}
    ensures Exec(sv, es).closing != Open
  {
    ExecKeepsInv(sv, es);
  }

  lemma ExpiryUnsettles(runDeadline: Option<int>, now: int, es: seq<Event>, k: nat)
    requires ExpiresStanding(NewServer(runDeadline, now), es, k)
    ensures !Settled(Exec(NewServer(runDeadline, now), es).saga)
  {
    var sv := NewServer(runDeadline, now);
    var before := Exec(sv, es[..k]);
    assert es[..k + 1][..k] == es[..k];
    ExecKeepsInv(sv, es[..k]);
    Expires(before);
    ClosedIsFinal(runDeadline, now, es, k + 1);
  }

  /** Expiry fails an open item past its deadline and does not look at the journal. */
  lemma Expires(sv: Server)
    requires !RunTerminal(sv.run) && DeadlinePassed(sv)
    ensures var after := Step(sv, ExpireDeadline);
            after.item.status == WFailed && after.closing == ByDeadline && after.saga == sv.saga
  {
  }

  /** One more event of a run. */
  lemma Extended(start: Server, es: seq<Event>, e: Event) returns (after: Server, es': seq<Event>)
    ensures es' == es + [e] && after == Exec(start, es') == Step(Exec(start, es), e)
  {
    es' := es + [e];
    assert es'[..|es|] == es;
    after := Exec(start, es');
  }

  lemma Reported(start: Server, es: seq<Event>, lease: Lease, request: Request, saga: Saga)
    returns (after: Server, es': seq<Event>)
    requires ReportReply(Exec(start, es), lease, request) == Ok(saga)
    ensures es' == es + [Report(lease, request)] && after == Exec(start, es') == Exec(start, es).(saga := saga)
  {
    after, es' := Extended(start, es, Report(lease, request));
  }

  const LONE := StepPlan(1, "a", Safe, true, Safe)

  /** The saga of a one-step plan, its only row as given. */
  function LoneSaga(row: StepRow): Saga {
    Saga(Some([LONE]), SRunning, false, [row])
  }

  function LoneReceipt(phase: Phase): Receipt {
    Receipt(1, "a", phase, None, "", "")
  }

  lemma LoneBinds()
    ensures Bind(NEW_SAGA, [LONE]) == Ok(LoneSaga(FreshRow(LONE)))
    ensures !Blank("a")
  {
    assert "a"[1..] == "" && !IsSpace("a"[0]);
    assert FreshRows([LONE]) == [FreshRow(LONE)];
  }

  lemma LoneAdvances(row: StepRow, phase: Phase)
    requires row.plan == LONE && Admits(row, phase) && !CurrentPhaseMatches(phase, row)
    requires phase == ActIntent || phase == ActEffect
    ensures Record(LoneSaga(row), LoneReceipt(phase)) == Ok(LoneSaga(Advance(row, phase, None)))
  {
    LoneBinds();
    var next := Advance(row, phase, None);
    assert [row][0 := next] == [next];
    assert [next][0].action != Succeeded && [next][0].action != Failed;
  }

  /** The receipts of one attempt start a compensatable effect. */
  lemma StartsEffect() returns (es: seq<Event>)
    ensures var sv := Exec(NewServer(Some(10), 0), es);
            && sv.run == RRunning && sv.now == 0 && sv.runDeadline == Some(10)
            && sv.saga == LoneSaga(StepRow(LONE, Effect, CPending, None, true))
  {
    var start, lease := NewServer(Some(10), 0), Lease("w", "l", 1);
    var sv;
    sv, es := Extended(start, [], Grant("w", "l"));
    LoneBinds();
    sv, es := Reported(start, es, lease, BindReq([LONE]), LoneSaga(FreshRow(LONE)));
    var intended := Advance(FreshRow(LONE), ActIntent, None);
    LoneAdvances(FreshRow(LONE), ActIntent);
    sv, es := Reported(start, es, lease, RecordReq(LoneReceipt(ActIntent)), LoneSaga(intended));
    LoneAdvances(intended, ActEffect);
    sv, es := Reported(start, es, lease, RecordReq(LoneReceipt(ActEffect)), LoneSaga(Advance(intended, ActEffect, None)));
  }

  /** The deadline is the one way round the gate: a started, compensatable effect can be left standing. */
  lemma DeadlineBypassesGate() returns (es: seq<Event>)
    ensures var sv := Exec(NewServer(Some(10), 0), es);
            sv.item.status == WFailed && !Settled(sv.saga)
  {
    var start := NewServer(Some(10), 0);
    es := StartsEffect();
    var sv;
    sv, es := Extended(start, es, Tick(10));
    Expires(sv);
    sv, es := Extended(start, es, ExpireDeadline);
    assert Eligible(sv.saga.rows[0]) && sv.saga.rows[0].comp != CDone;
  }
}
