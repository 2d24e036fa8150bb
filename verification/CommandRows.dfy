/** The command row and its step receipts as the server keeps them (lib/brain/command.go). */
module CommandRows {
  import opened Text

  /** Phases of a command step; NoPhase stands for no receipt row. */
  datatype StepPhase =
    | NoPhase | IntentRecorded | EffectStarted | StepSucceeded | StepFailed | CompensationStarted | Compensated
    | StepUnknown

  datatype Status = Queued | Leased | Running | CommandSucceeded | CommandFailed | CommandUnknown

  /** Sizes of a receipt's texts are in bytes. */
  datatype StepReceipt = StepReceipt(
    index: int, phase: StepPhase, outputSize: nat, validOutput: bool, errorSize: nat, refSize: nat, compRefSize: nat)

  /** `live` is the lease check: same unit, lease id and epoch, deadline in the future. */
  datatype Command = Command(steps: nat, live: bool, status: Status, receipts: map<int, StepPhase>)

  datatype Answer = Accepted(command: Command) | Declined

  const MAX_OUTPUT := 16384
  const MAX_ERROR := 2048
  const MAX_REF := 256

  predicate ValidTransition(current: StepPhase, next: StepPhase) {
    match current
    case NoPhase => next == IntentRecorded
    case IntentRecorded => next == EffectStarted || next == StepFailed
    case EffectStarted => next == StepSucceeded || next == StepFailed || next == StepUnknown
    case StepSucceeded => next == CompensationStarted
    case StepFailed => next == CompensationStarted
    case CompensationStarted => next == Compensated || next == StepUnknown
    case _ => false
  }

  function PhaseOf(receipts: map<int, StepPhase>, k: int): StepPhase {
    if k in receipts then receipts[k] else NoPhase
  }

  predicate WellFormed(c: Command, r: StepReceipt) {
    && 0 <= r.index < c.steps
    && r.outputSize <= MAX_OUTPUT && r.validOutput
    && r.errorSize <= MAX_ERROR && r.refSize <= MAX_REF && r.compRefSize <= MAX_REF
    && r.phase != NoPhase
  }

  /** One receipt against the rows: the rows afterwards, or None when it is refused. */
  function Apply(c: Command, receipts: map<int, StepPhase>, r: StepReceipt): Option<map<int, StepPhase>> {
    if !WellFormed(c, r) then None
    else if PhaseOf(receipts, r.index) == r.phase then Some(receipts)
    else if !ValidTransition(PhaseOf(receipts, r.index), r.phase) then None
    else Some(receipts[r.index := r.phase])
  }

  function ApplyAll(c: Command, rs: seq<StepReceipt>): Option<map<int, StepPhase>> {
    if rs == [] then Some(c.receipts)
    else
      var rest := ApplyAll(c, rs[..|rs| - 1]);
      if rest.None? then None else Apply(c, rest.value, rs[|rs| - 1])
  }

  predicate Distinct(rs: seq<StepReceipt>) {
    forall j, k :: 0 <= j < k < |rs| ==> rs[j].index != rs[k].index
  }

  /** What the receipts add up to. */
  function StatusOf(steps: nat, receipts: map<int, StepPhase>): Status {
    if exists k :: k in receipts && receipts[k] == StepUnknown then CommandUnknown
    else if exists k :: k in receipts && receipts[k] in {StepFailed, Compensated} then CommandFailed
    else if forall k :: 0 <= k < steps ==> PhaseOf(receipts, k) == StepSucceeded then CommandSucceeded
    else Running
  }

  predicate Open(c: Command) {
    c.live && c.status in {Leased, Running, CommandFailed}
  }

  /** The ReportStep transaction. */
  function Report(c: Command, rs: seq<StepReceipt>): Answer {
    if !Open(c) || rs == [] || !Distinct(rs) || ApplyAll(c, rs).None? then Declined
    else
      var receipts := ApplyAll(c, rs).value;
      Accepted(c.(receipts := receipts, status := StatusOf(c.steps, receipts)))
  }

  /** Receipt rows belong to steps of the command. */
  predicate RowsInv(c: Command) {
    forall k :: k in c.receipts ==> 0 <= k < c.steps && c.receipts[k] != NoPhase
  }

  // ---- the transaction as the server runs it ------------------------------------------------------

  const ANY_PHASE := {IntentRecorded, EffectStarted, StepSucceeded, StepFailed, CompensationStarted, Compensated,
                      StepUnknown}

  /** Number of receipt rows below step n in one of the given phases. */
  function Count(receipts: map<int, StepPhase>, phases: set<StepPhase>, n: nat): (c: nat)
    ensures c <= n
  {
    if n == 0 then 0
    else Count(receipts, phases, n - 1) + if PhaseOf(receipts, n - 1) in phases then 1 else 0
  }

  lemma {:induction false} CountPositive(receipts: map<int, StepPhase>, phases: set<StepPhase>, n: nat)
    ensures Count(receipts, phases, n) > 0 <==> exists k :: 0 <= k < n && PhaseOf(receipts, k) in phases
  {
    if n > 0 {
      CountPositive(receipts, phases, n - 1);
    }
  }

  lemma {:induction false} CountAll(receipts: map<int, StepPhase>, phases: set<StepPhase>, n: nat)
    ensures Count(receipts, phases, n) == n <==> forall k :: 0 <= k < n ==> PhaseOf(receipts, k) in phases
  {
    if n > 0 {
      CountAll(receipts, phases, n - 1);
    }
  }

  /** The counting query computes what the receipts add up to. */
  lemma CountsGiveStatus(c: Command)
    requires RowsInv(c)
    ensures StatusOf(c.steps, c.receipts) ==
            if Count(c.receipts, {StepUnknown}, c.steps) > 0 then CommandUnknown
            else if Count(c.receipts, {StepFailed, Compensated}, c.steps) > 0 then CommandFailed
            else if Count(c.receipts, ANY_PHASE, c.steps) == c.steps && Count(c.receipts, {StepSucceeded}, c.steps) == c.steps
            then CommandSucceeded
            else Running
  {
    CountPositive(c.receipts, {StepUnknown}, c.steps);
    CountPositive(c.receipts, {StepFailed, Compensated}, c.steps);
    CountAll(c.receipts, ANY_PHASE, c.steps);
    CountAll(c.receipts, {StepSucceeded}, c.steps);
    assert forall k :: k in c.receipts ==> PhaseOf(c.receipts, k) == c.receipts[k];
  }

  class CommandTable {
    var row: Command

    constructor (c: Command)
      ensures row == c
    {
      row := c;
    }

    /** ReportStep: the loop over receipts works on the rows in place; a refusal rolls the transaction back. */
    method ReportStep(rs: seq<StepReceipt>) returns (ok: bool)
      requires RowsInv(row)
      modifies this
      ensures RowsInv(row)
      ensures ok == Report(old(row), rs).Accepted?
      ensures row == if ok then Report(old(row), rs).command else old(row)
    {
      if rs == [] || !row.live || (row.status != Leased && row.status != Running && row.status != CommandFailed) {
        return false;
      }
      var receipts := row.receipts;
      var seen: set<int> := {};
      for n := 0 to |rs|
        invariant ApplyAll(row, rs[..n]) == Some(receipts)
        invariant seen == set j | 0 <= j < n :: rs[j].index
        invariant Distinct(rs[..n])
        invariant RowsInv(row.(receipts := receipts))
        invariant row == old(row)
      {
        var r := rs[n];
        assert rs[..n + 1][..n] == rs[..n];
        if !(0 <= r.index < row.steps) || r.index in seen || r.outputSize > MAX_OUTPUT || r.errorSize > MAX_ERROR
           || r.refSize > MAX_REF || r.compRefSize > MAX_REF || !r.validOutput || r.phase == NoPhase {
          RefusedEarly(row, rs, n);
          return false;
        }
        seen := seen + {r.index};
        if PhaseOf(receipts, r.index) != r.phase {
          if !ValidTransition(PhaseOf(receipts, r.index), r.phase) {
            RefusedEarly(row, rs, n);
            return false;
          }
          receipts := receipts[r.index := r.phase];
        }
      }
      assert rs[..|rs|] == rs;
      var succeeded := Count(receipts, {StepSucceeded}, row.steps);
      var failed := Count(receipts, {StepFailed, Compensated}, row.steps);
      var unknown := Count(receipts, {StepUnknown}, row.steps);
      var recorded := Count(receipts, ANY_PHASE, row.steps);
      var next := Running;
      if unknown > 0 {
        next := CommandUnknown;
      } else if failed > 0 {
        next := CommandFailed;
      } else if recorded == row.steps && succeeded == row.steps {
        next := CommandSucceeded;
      }
      CountsGiveStatus(row.(receipts := receipts));
      row := row.(receipts := receipts, status := next);
      ok := true;
    }
  }

  /** A bad receipt anywhere in the batch refuses the batch. */
  lemma RefusedEarly(c: Command, rs: seq<StepReceipt>, n: nat)
    requires n < |rs| && ApplyAll(c, rs[..n]).Some?
    requires Apply(c, ApplyAll(c, rs[..n]).value, rs[n]).None? || exists j :: 0 <= j < n && rs[j].index == rs[n].index
    ensures Report(c, rs).Declined?
  {
    if !(exists j :: 0 <= j < n && rs[j].index == rs[n].index) {
      assert rs[..n + 1][..n] == rs[..n];
      StaysRefused(c, rs, n + 1);
    }
  }

  lemma {:induction false} StaysRefused(c: Command, rs: seq<StepReceipt>, n: nat)
    requires n <= |rs| && ApplyAll(c, rs[..n]).None?
    ensures ApplyAll(c, rs).None?
    decreases |rs|
  {
    if n == |rs| {
      assert rs[..n] == rs;
    } else {
      assert rs[..|rs| - 1][..n] == rs[..n];
      StaysRefused(c, rs[..|rs| - 1], n);
    }
  }

  // ---- over any sequence of reports --------------------------------------------------------------

  predicate Moves(a: StepPhase, b: StepPhase) {
    a == b || ValidTransition(a, b)
  }

  function AfterReports(c: Command, batches: seq<seq<StepReceipt>>): Command {
    if batches == [] then c
    else
      var before := AfterReports(c, batches[..|batches| - 1]);
      match Report(before, batches[|batches| - 1])
      case Accepted(after) => after
      case Declined => before
  }

  /** With distinct step indices each row is touched by at most one receipt of a batch. */
  lemma {:induction false} BatchMovesOnce(c: Command, rs: seq<StepReceipt>, k: int)
    requires RowsInv(c) && Distinct(rs) && ApplyAll(c, rs).Some?
    ensures RowsInv(c.(receipts := ApplyAll(c, rs).value))
    ensures Moves(PhaseOf(c.receipts, k), PhaseOf(ApplyAll(c, rs).value, k))
    ensures (forall j :: 0 <= j < |rs| ==> rs[j].index != k) ==> PhaseOf(ApplyAll(c, rs).value, k) == PhaseOf(c.receipts, k)
    decreases |rs|
  {
    if rs != [] {
      BatchMovesOnce(c, rs[..|rs| - 1], k);
    }
  }

  /** One report moves each step along the transition relation, at most one move. */
  lemma ReportMoves(c: Command, rs: seq<StepReceipt>)
    requires RowsInv(c) && Report(c, rs).Accepted?
    ensures var c' := Report(c, rs).command;
            RowsInv(c') && forall k :: Moves(PhaseOf(c.receipts, k), PhaseOf(c'.receipts, k))
  {
    BatchMovesOnce(c, rs, 0);
    var receipts := ApplyAll(c, rs).value;
    forall k
      ensures Moves(PhaseOf(c.receipts, k), PhaseOf(receipts, k))
    {
      BatchMovesOnce(c, rs, k);
    }
  }

  /** A command that succeeded, or whose outcome is unknown, never changes again, whatever is reported. */
  lemma {:induction false} SettledIsFinal(c: Command, batches: seq<seq<StepReceipt>>)
    requires c.status == CommandSucceeded || c.status == CommandUnknown
    ensures AfterReports(c, batches) == c
    decreases |batches|
  {
    if batches != [] {
      SettledIsFinal(c, batches[..|batches| - 1]);
    }
  }

  /** A failed command never becomes succeeded: a failed or compensated step never returns to success. */
  lemma {:induction false} FailureIsNeverUndone(c: Command, batches: seq<seq<StepReceipt>>, k: int)
    requires RowsInv(c) && PhaseOf(c.receipts, k) in {StepFailed, CompensationStarted, Compensated, StepUnknown}
    ensures var c' := AfterReports(c, batches);
            && RowsInv(c')
            && PhaseOf(c'.receipts, k) in {StepFailed, CompensationStarted, Compensated, StepUnknown}
            && (c' != c ==> c'.status != CommandSucceeded)
    decreases |batches|
  {
    if batches != [] {
      FailureIsNeverUndone(c, batches[..|batches| - 1], k);
      var before := AfterReports(c, batches[..|batches| - 1]);
      if Report(before, batches[|batches| - 1]).Accepted? {
        ReportMoves(before, batches[|batches| - 1]);
        var after := Report(before, batches[|batches| - 1]).command;
        assert Moves(PhaseOf(before.receipts, k), PhaseOf(after.receipts, k));
        assert PhaseOf(after.receipts, k) != StepSucceeded && 0 <= k < after.steps;
      }
    }
  }

  // ---- the life of one step -------------------------------------------------------------------------

  /** The phases of a step in the order they were recorded, from no receipt on. */
  predicate History(ps: seq<StepPhase>) {
    forall k :: 0 <= k < |ps| ==> FollowsAt(ps, k)
  }

  predicate FollowsAt(ps: seq<StepPhase>, k: nat)
    requires k < |ps|
  {
    ValidTransition(if k == 0 then NoPhase else ps[k - 1], ps[k])
  }

  /** A step with an effect ends succeeded, failed or unknown; what ended otherwise than unknown may be compensated. */
  const LIVES: seq<seq<StepPhase>> := [
    [IntentRecorded, EffectStarted, StepSucceeded, CompensationStarted, Compensated],
    [IntentRecorded, EffectStarted, StepSucceeded, CompensationStarted, StepUnknown],
    [IntentRecorded, EffectStarted, StepFailed, CompensationStarted, Compensated],
    [IntentRecorded, EffectStarted, StepFailed, CompensationStarted, StepUnknown],
    [IntentRecorded, EffectStarted, StepUnknown],
    [IntentRecorded, StepFailed, CompensationStarted, Compensated],
    [IntentRecorded, StepFailed, CompensationStarted, StepUnknown]]

  /** There are exactly seven lives of a step, and every history is the beginning of one. */
  lemma HistoriesExactly(ps: seq<StepPhase>)
    ensures History(ps) <==> exists k :: 0 <= k < |LIVES| && ps <= LIVES[k]
  {
    if History(ps) {
      var k := LifeOf(ps);
    }
    if exists k :: 0 <= k < |LIVES| && ps <= LIVES[k] {
      var k :| 0 <= k < |LIVES| && ps <= LIVES[k];
      LivesAreHistories(k);
      forall j | 0 <= j < |ps|
        ensures FollowsAt(ps, j)
      {
        assert FollowsAt(LIVES[k], j) && ps[j] == LIVES[k][j] && (j > 0 ==> ps[j - 1] == LIVES[k][j - 1]);
      }
    }
  }

  lemma LivesAreHistories(k: nat)
    requires k < |LIVES|
    ensures History(LIVES[k])
  {
    forall j | 0 <= j < |LIVES[k]|
      ensures FollowsAt(LIVES[k], j)
    {
      assert j == 0 || j == 1 || j == 2 || j == 3 || j == 4;
    }
  }

  lemma LifeOf(ps: seq<StepPhase>) returns (k: nat)
    requires History(ps)
    ensures k < |LIVES| && ps <= LIVES[k]
  {
    assert |ps| > 0 ==> FollowsAt(ps, 0);
    assert |ps| > 1 ==> FollowsAt(ps, 1);
    assert |ps| > 2 ==> FollowsAt(ps, 2);
    assert |ps| > 3 ==> FollowsAt(ps, 3);
    assert |ps| > 4 ==> FollowsAt(ps, 4);
    assert |ps| > 5 ==> FollowsAt(ps, 5);
    k := if |ps| <= 1 then 0
         else if ps[1] == StepFailed then (if |ps| > 3 && ps[3] == StepUnknown then 6 else 5)
         else if |ps| > 2 && ps[2] == StepUnknown then 4
         else if |ps| > 2 && ps[2] == StepFailed then (if |ps| > 4 && ps[4] == StepUnknown then 3 else 2)
         else if |ps| > 4 && ps[4] == StepUnknown then 1 else 0;
  }

  /**
   * A receipt alone in its batch is accepted exactly under a live lease of an unfinished command, for one of its steps, with
   * valid output of at most 16384 bytes, an error of at most 2048 and references of at most 256, if it repeats the step's
   * phase or follows it.
   */
  lemma ReportsExactly(c: Command, r: StepReceipt)
    ensures Report(c, [r]).Accepted? <==>
            && c.live && c.status != Queued && c.status != CommandSucceeded && c.status != CommandUnknown
            && 0 <= r.index < c.steps && r.phase != NoPhase
            && r.validOutput && r.outputSize <= 16384 && r.errorSize <= 2048 && r.refSize <= 256 && r.compRefSize <= 256
            && (PhaseOf(c.receipts, r.index) == r.phase || ValidTransition(PhaseOf(c.receipts, r.index), r.phase))
    ensures Report(c, [r]).Accepted? ==> Report(c, [r]).command.receipts == c.receipts[r.index := r.phase]
  {
    var rs := [r];
    assert rs[..0] == [];
    assert ApplyAll(c, rs) == Apply(c, c.receipts, rs[0]);
    assert Distinct(rs) && rs != [];
    assert Report(c, rs).Accepted? <==> Open(c) && Apply(c, c.receipts, r).Some?;
    assert c.status.Queued? || c.status.Leased? || c.status.Running? || c.status.CommandSucceeded?
        || c.status.CommandFailed? || c.status.CommandUnknown?;
    if PhaseOf(c.receipts, r.index) == r.phase != NoPhase {
      assert c.receipts[r.index := r.phase] == c.receipts;
    }
  }
}
