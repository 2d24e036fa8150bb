/**
 * The journal transactions as the server runs them: row by row, inside one locked transaction.
 * Each is proved to do exactly what the journal's specification says.
 */
module SagaTables {
  import opened Text
  import opened SagaJournal

  class RunSaga {
    var plan: Option<Plan>
    var state: SagaState
    var cancelRequested: bool
    var rows: seq<StepRow>

    constructor ()
      ensures View() == NEW_SAGA
    {
      plan, state, cancelRequested, rows := None, SPending, false, [];
    }

    function View(): Saga
      reads this
    {
      Saga(plan, state, cancelRequested, rows)
    }

    method BindRunSaga(p: Plan) returns (reply: Reply)
      modifies this
      ensures reply == Bind(old(View()), p)
      ensures View() == if reply.Ok? then reply.saga else old(View())
    {
      if |p| == 0 || |p| > MAX_STEPS {
        return Refused(BadPlan);
      }
      var seen: set<string> := {};
      for i := 0 to |p|
        invariant seen == set k | 0 <= k < i :: p[k].key
        invariant forall k :: 0 <= k < i ==>
                    p[k].sequence == k + 1 && !Blank(p[k].key) && Size(p[k].key) <= MAX_KEY
        invariant forall k, l :: 0 <= k < l < i ==> p[k].key != p[l].key
        invariant View() == old(View())
      {
        if p[i].sequence != i + 1 || Blank(p[i].key) || Size(p[i].key) > MAX_KEY || p[i].key in seen {
          return Refused(BadPlan);
        }
        seen := seen + {p[i].key};
      }
      if plan.Some? && plan.value != p {
        return Refused(OtherPlan);
      }
      if plan.None? {
        rows := [];
        for i := 0 to |p|
          invariant rows == FreshRows(p)[..i]
          invariant plan == old(plan) && state == old(state) && cancelRequested == old(cancelRequested)
        {
          rows := rows + [FreshRow(p[i])];
        }
        plan, state := Some(p), SRunning;
      }
      reply := Ok(View());
    }

    /** One pass over the steps, four flags. */
    method RefreshRunSagaState()
      modifies this`state
      ensures state == StateOf(rows, cancelRequested)
    {
      var allSucceeded, failed, needsCompensation, compensationComplete := true, false, false, true;
      for i := 0 to |rows|
        invariant allSucceeded == AllSucceeded(rows[..i])
        invariant failed == AnyFailed(rows[..i])
        invariant needsCompensation == exists k :: 0 <= k < i && Eligible(rows[k])
        invariant compensationComplete == AllCompensated(rows[..i])
      {
        var row := rows[i];
        assert rows[..i + 1] == rows[..i] + [row];
        if row.action != Succeeded {
          allSucceeded := false;
        }
        if row.action == Failed {
          failed := true;
        }
        if row.plan.hasCompensation && row.effectStarted {
          needsCompensation := true;
          if row.comp != CDone {
            compensationComplete := false;
          }
        }
      }
      assert rows[..|rows|] == rows;
      if cancelRequested && (!needsCompensation || compensationComplete) {
        state := SCompensated;
      } else if cancelRequested {
        state := SCancelling;
      } else if failed && (!needsCompensation || compensationComplete) {
        state := SCompensated;
      } else if failed {
        state := SCompensating;
      } else if allSucceeded {
        state := SReady;
      } else {
        state := SRunning;
      }
    }

    method RecordRunSaga(r: Receipt) returns (reply: Reply)
      modifies this`rows, this`state
      ensures reply == Record(old(View()), r)
      ensures View() == if reply.Ok? then reply.saga else old(View())
    {
      if r.sequence <= 0 || Blank(r.key) || r.phase == Unspecified {
        return Refused(Malformed);
      }
      if Size(r.receiptRef) > MAX_TEXT || Size(r.error) > MAX_TEXT {
        return Refused(TooLarge);
      }
      if plan.None? {
        return Refused(NotBound);
      }
      if state == SUnknown {
        return Ok(View());
      }
      if r.sequence > |rows| {
        return Refused(NoSuchStep);
      }
      var row := rows[r.sequence - 1];
      if row.plan.key != r.key {
        return Refused(KeyMismatch);
      }
      if row.guard.Some? && r.guard.Some? && row.guard != r.guard {
        return Refused(GuardChanged);
      }
      if CurrentPhaseMatches(r.phase, row) {
        return Ok(View());
      }
      if !Admits(row, r.phase) {
        return Refused(InvalidTransition);
      }
      rows := rows[r.sequence - 1 := Advance(row, r.phase, r.guard)];
      if r.phase == OutcomeUnknown {
        state := SUnknown;
      } else {
        RefreshRunSagaState();
      }
      reply := Ok(View());
    }
  }
}
