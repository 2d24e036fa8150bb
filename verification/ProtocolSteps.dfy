/**
 * Every event of the protocol keeps its invariant. Events come down to four kinds of move; each kind is
 * shown to keep each part of the invariant on its own.
 */
module ProtocolSteps {
  import opened Text
  import opened SagaJournal
  import opened Attempts
  import opened AttemptInvariants
  import opened Protocol
  import Brain

  datatype Move =
    | ServerMove(sv: Brain.Server)
    | Join(at: Attempt, sv: Brain.Server)
    | AttemptMove(a: nat, at: Attempt, sv: Brain.Server)
    | DeedMove(a: nat, at: Attempt)

  function Apply(s: Sys, m: Move): Sys
    requires m.AttemptMove? || m.DeedMove? ==> m.a < |s.attempts|
    requires m.DeedMove? ==> Due(s.attempts[m.a].pc).Some?
  {
    match m
    case ServerMove(sv) => Sys(sv, s.attempts, s.log)
    case Join(at, sv) => Sys(sv, s.attempts + [at], s.log)
    case AttemptMove(a, at, sv) => Sys(sv, s.attempts[a := at], s.log)
    case DeedMove(a, at) =>
      Sys(s.sv, s.attempts[a := at],
          s.log + [Deed(s.attempts[a].lease.epoch, Due(s.attempts[a].pc).value)])
  }

  /** The journal after the move, and whether the moved attempt may stand where it now stands. */
  ghost predicate LegalAttempt(s: Sys, a: nat, at: Attempt, saga: Saga)
    requires a < |s.attempts|
  {
    && AttemptInv(at)
    && at.lease == s.attempts[a].lease
    && SagaLeq(at.snap, saga)
    && (if a == |s.attempts| - 1 then Fresh(at, saga) else saga == s.sv.saga)
    && (forall act :: Passed(s.attempts[a].pc, act) ==> Passed(at.pc, act))
  }

  /** A never-replay deed becomes due only by crossing its effect boundary in the same move. */
  predicate DueMoves(rows: seq<StepRow>, rows': seq<StepRow>, pc: Pc, pc': Pc) {
    || Due(pc').None?
    || Due(pc') == Due(pc)
    || (Committed(rows', Due(pc').value) && !Once(rows', Due(pc').value))
    || (Committed(rows', Due(pc').value) && !Committed(rows, Due(pc').value))
  }

  ghost predicate Legal(s: Sys, m: Move) {
    match m
    case ServerMove(sv) =>
      && Brain.Inv(sv) && SagaLeq(s.sv.saga, sv.saga)
      && sv.item.lease == s.sv.item.lease
      && sv.saga.rows == s.sv.saga.rows && sv.saga.plan == s.sv.saga.plan
      && (sv.saga.state == SUnknown ==> s.sv.saga.state == SUnknown)
    case Join(at, sv) =>
      && Brain.Inv(sv) && sv.saga == s.sv.saga
      && sv.item.lease.epoch == s.sv.item.lease.epoch + 1
      && at.lease == sv.item.lease && at.snap == sv.saga && at.pc.Init?
    case AttemptMove(a, at, sv) =>
      && a < |s.attempts|
      && Brain.Inv(sv) && ExecRows(sv.saga.rows) && SagaLeq(s.sv.saga, sv.saga)
      && sv.item.lease == s.sv.item.lease
      && LegalAttempt(s, a, at, sv.saga)
      && DueMoves(s.sv.saga.rows, sv.saga.rows, s.attempts[a].pc, at.pc)
    case DeedMove(a, at) =>
      && a < |s.attempts|
      && Due(s.attempts[a].pc).Some? && Due(at.pc).None?
      && LegalAttempt(s, a, at, s.sv.saga)
      && Passed(at.pc, Due(s.attempts[a].pc).value)
  }

  // ---- each move keeps each part ----------------------------------------------------------------

  lemma ServerMoveAttempts(s: Sys, sv: Brain.Server)
    requires LeasesInv(s) && AttemptsInv(s) && HolderInv(s) && Legal(s, ServerMove(sv))
    ensures var s' := Sys(sv, s.attempts, s.log);
            LeasesInv(s') && AttemptsInv(s') && HolderInv(s')
  {
    forall a | 0 <= a < |s.attempts|
      ensures SagaLeq(s.attempts[a].snap, sv.saga)
    {
      SagaLeqTransitive(s.attempts[a].snap, s.sv.saga, sv.saga);
    }
  }

  lemma SameRowsSameLog(s: Sys, sv: Brain.Server)
    requires OnceInv(s) && OrderInv(s) && sv.saga.rows == s.sv.saga.rows
    ensures OnceInv(Sys(sv, s.attempts, s.log)) && OrderInv(Sys(sv, s.attempts, s.log))
  {
  }

  lemma ServerMoveKeeps(s: Sys, sv: Brain.Server)
    requires Inv(s) && Legal(s, ServerMove(sv))
    ensures Inv(Sys(sv, s.attempts, s.log))
  {
    ServerMoveAttempts(s, sv);
    SameRowsSameLog(s, sv);
  }

  lemma NewcomerDidNothing(s: Sys, at: Attempt, sv: Brain.Server)
    requires OnceInv(s) && OrderInv(s) && sv.saga.rows == s.sv.saga.rows && at.pc.Init?
    ensures OnceInv(Sys(sv, s.attempts + [at], s.log)) && OrderInv(Sys(sv, s.attempts + [at], s.log))
  {
  }

  lemma NewcomerIsHolder(s: Sys, at: Attempt, sv: Brain.Server)
    requires LeasesInv(s) && AttemptsInv(s) && sv.saga == s.sv.saga && sv.item.lease.epoch == |s.attempts| + 1
    requires at.lease == sv.item.lease && at.snap == s.sv.saga && at.pc.Init? && ExecSaga(at.snap)
    ensures var s' := Sys(sv, s.attempts + [at], s.log);
            LeasesInv(s') && AttemptsInv(s') && HolderInv(s')
  {
    assert AttemptInv(at);
  }

  lemma JoinKeeps(s: Sys, at: Attempt, sv: Brain.Server)
    requires Inv(s) && Legal(s, Join(at, sv))
    ensures Inv(Sys(sv, s.attempts + [at], s.log))
  {
    NewcomerDidNothing(s, at, sv);
    NewcomerIsHolder(s, at, sv);
  }

  lemma MovedAttempts(s: Sys, a: nat, at: Attempt, sv: Brain.Server, log: seq<Deed>)
    requires LeasesInv(s) && AttemptsInv(s) && HolderInv(s) && a < |s.attempts|
    requires SagaLeq(s.sv.saga, sv.saga) && sv.item.lease == s.sv.item.lease
    requires LegalAttempt(s, a, at, sv.saga)
    ensures var s' := Sys(sv, s.attempts[a := at], log);
            LeasesInv(s') && AttemptsInv(s') && HolderInv(s')
  {
    forall b | 0 <= b < |s.attempts| && b != a
      ensures SagaLeq(s.attempts[b].snap, sv.saga)
    {
      SagaLeqTransitive(s.attempts[b].snap, s.sv.saga, sv.saga);
    }
  }

  lemma CommittedGrows(rows: seq<StepRow>, rows': seq<StepRow>, act: Act)
    requires RowsLeq(rows, rows') && Committed(rows, act)
    ensures Committed(rows', act) && (Once(rows', act) <==> Once(rows, act))
  {
    assert RowLeq(rows[act.i], rows'[act.i]);
  }

  lemma MovedOnce(s: Sys, a: nat, at: Attempt, sv: Brain.Server)
    requires OnceInv(s) && a < |s.attempts| && RowsLeq(s.sv.saga.rows, sv.saga.rows)
    requires DueMoves(s.sv.saga.rows, sv.saga.rows, s.attempts[a].pc, at.pc)
    ensures OnceInv(Sys(sv, s.attempts[a := at], s.log))
  {
    var rows, rows' := s.sv.saga.rows, sv.saga.rows;
    forall p | 0 <= p < |s.log|
      ensures Committed(rows', s.log[p].act) && (Once(rows', s.log[p].act) <==> Once(rows, s.log[p].act))
    {
      CommittedGrows(rows, rows', s.log[p].act);
    }
    forall b | 0 <= b < |s.attempts| && Due(s.attempts[b].pc).Some?
      ensures var due := Due(s.attempts[b].pc).value;
              Committed(rows', due) && (Once(rows', due) <==> Once(rows, due))
    {
      CommittedGrows(rows, rows', Due(s.attempts[b].pc).value);
    }
  }

  lemma MovedOrder(s: Sys, a: nat, at: Attempt, sv: Brain.Server)
    requires OrderInv(s) && a < |s.attempts|
    requires forall act :: Passed(s.attempts[a].pc, act) ==> Passed(at.pc, act)
    ensures OrderInv(Sys(sv, s.attempts[a := at], s.log))
  {
  }

  lemma AttemptMoveKeeps(s: Sys, a: nat, at: Attempt, sv: Brain.Server)
    requires Inv(s) && Legal(s, AttemptMove(a, at, sv))
    ensures Inv(Sys(sv, s.attempts[a := at], s.log))
  {
    MovedAttempts(s, a, at, sv, s.log);
    MovedOnce(s, a, at, sv);
    MovedOrder(s, a, at, sv);
  }

  lemma DeedOnce(s: Sys, a: nat, at: Attempt, deed: Deed)
    requires OnceInv(s) && a < |s.attempts| && Due(s.attempts[a].pc) == Some(deed.act) && Due(at.pc).None?
    ensures OnceInv(Sys(s.sv, s.attempts[a := at], s.log + [deed]))
  {
  }

  lemma DeedOrder(s: Sys, a: nat, at: Attempt, deed: Deed)
    requires OrderInv(s) && a < |s.attempts| && deed.epoch == a + 1 && Due(s.attempts[a].pc) == Some(deed.act)
    requires forall act :: Passed(s.attempts[a].pc, act) ==> Passed(at.pc, act)
    requires Passed(at.pc, deed.act)
    ensures OrderInv(Sys(s.sv, s.attempts[a := at], s.log + [deed]))
  {
    assert forall act :: Passed(s.attempts[a].pc, act) ==> Before(act, deed.act);
  }

  lemma DeedMoveKeeps(s: Sys, a: nat, at: Attempt, deed: Deed)
    requires Inv(s) && Legal(s, DeedMove(a, at))
    requires deed == Deed(s.attempts[a].lease.epoch, Due(s.attempts[a].pc).value)
    ensures Inv(Sys(s.sv, s.attempts[a := at], s.log + [deed]))
  {
    DeedOnce(s, a, at, deed);
    DeedOrder(s, a, at, deed);
    SagaLeqReflexive(s.sv.saga);
    MovedAttempts(s, a, at, s.sv, s.log + [deed]);
  }

  lemma MoveKeepsInv(s: Sys, m: Move)
    requires Inv(s) && Legal(s, m)
    ensures Inv(Apply(s, m))
  {
    match m
    case ServerMove(sv) => ServerMoveKeeps(s, sv);
    case Join(at, sv) => JoinKeeps(s, at, sv);
    case AttemptMove(a, at, sv) => AttemptMoveKeeps(s, a, at, sv);
    case DeedMove(a, at) => DeedMoveKeeps(s, a, at, Deed(s.attempts[a].lease.epoch, Due(s.attempts[a].pc).value));
  }
}
