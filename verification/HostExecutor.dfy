/**
 * The host command executor (cmd/yufeng-host/executor.go) for one command: a write-ahead journal, one pass over
 * the steps, reverse-order restores. Execute may be called any number of times; the process may die at any
 * save, report, preparation, effect or restore, before or after it took hold. Every method only ever makes legal
 * moves of `HostRuns`, so what holds of every run there holds here.
 */
module HostExecutor {
  import opened Text
  import opened CommandRows
  import opened HostFiles
  import opened HostRuns

  /** Preparing, executing and context errors are causes; a failed save never is the same error as one of them. */
  datatype Error = SaveError | ServerError | TerminalStep | OtherError(id: nat, size: nat)

  datatype Outcome = Fine | Failed(error: Error) | Died

  /** What Execute returns: nil, the cause after a complete restore pass, or the error that stopped it. */
  datatype Result = Nil | Cause(error: Error) | NotCompensated(error: Error) | Stopped(error: Error) | Crashed

  /** How one operation on the outside goes; `done` says whether it took hold all the same. */
  datatype Fate = Works | Breaks(done: bool, id: nat, size: nat) | Kills(done: bool)

  /** What one call of Execute meets at each step; the context is looked at before and after preparing. */
  datatype Life = Life(
    contextDone: nat -> bool, prepare: nat -> Fate, contextDoneAfter: nat -> bool, effect: nat -> Fate, restore: nat -> Fate)

  /** Everything the executor cannot decide: saves and reports by their number, the rest by call of Execute and step. */
  datatype World = World(save: nat -> Fate, report: nat -> Fate, life: nat -> Life)

  const CONTEXT_DONE := OtherError(0, 25)
  const TOO_LARGE := OtherError(1, 40)
  const NOT_ALLOWED := OtherError(2, 24)
  const BAD_ARGUMENTS := OtherError(3, 64)
  const NOT_STAGED := OtherError(4, 30)
  const EXPIRED := OtherError(5, 28)
  const RESTARTED := 62

  predicate TakesHold(fate: Fate) {
    fate.Works? || fate.done
  }

  function OutcomeOf(fate: Fate): Outcome {
    match fate
    case Works => Fine
    case Breaks(_, id, size) => Failed(OtherError(id, size))
    case Kills(_) => Died
  }

  function StopFor(r: Outcome): Result
    requires !r.Fine?
  {
    if r.Died? then Crashed else Stopped(r.error)
  }

  /** boundedError */
  function BoundedError(e: Error): nat {
    if !e.OtherError? then 0 else if e.size > MAX_ERROR then MAX_ERROR else e.size
  }

  /** makeReceipt; receipt references are digests of 71 bytes or absent. */
  function ReceiptOf(k: int, e: Entry): StepReceipt {
    StepReceipt(k, e.phase, e.outputSize, true, e.errorSize, 71, 71)
  }

  // ---- the server in step with the journal ---------------------------------------------------------

  predicate NoUnknown(journal: Journal) {
    forall k :: k in journal ==> journal[k].phase != StepUnknown
  }

  predicate OutputsFit(journal: Journal) {
    forall k :: k in journal ==> journal[k].outputSize <= MAX_OUTPUT
  }

  /** Same phases, on a live lease. */
  ghost predicate InStep(c: Command, journal: Journal, n: nat) {
    && c.live && c.steps == n && RowsInv(c)
    && (forall k :: PhaseOf(c.receipts, k) == Step(journal, k).phase)
    && OutputsFit(journal)
    && (c.status == StatusOf(n, c.receipts) || (c.status == Leased && journal == map[]))
  }

  /** The server still takes receipts for a journal like this. */
  predicate OpenFor(journal: Journal, n: nat) {
    NoUnknown(journal) && exists j :: 0 <= j < n && Step(journal, j).phase != StepSucceeded
  }

  /** In step with the journal, the server takes exactly the valid next phases whose output is not too large. */
  lemma Accepts(c: Command, journal: Journal, n: nat, k: int, e: Entry)
    requires InStep(c, journal, n) && OpenFor(journal, n) && 0 <= k < n
    requires ValidTransition(Step(journal, k).phase, e.phase) && e.errorSize <= MAX_ERROR
    ensures var answer := Report(c, [ReceiptOf(k, e)]);
            && (answer.Accepted? <==> e.outputSize <= MAX_OUTPUT)
            && (answer.Accepted? ==> InStep(answer.command, journal[k := e], n))
  {
    assert forall j :: j in c.receipts ==> c.receipts[j] == Step(journal, j).phase;
    var rs := [ReceiptOf(k, e)];
    assert rs[..0] == [];
    assert ApplyAll(c, rs) == CommandRows.Apply(c, c.receipts, rs[0]);
    if e.outputSize <= MAX_OUTPUT {
      var journal' := journal[k := e];
      forall j
        ensures PhaseOf(c.receipts[k := e.phase], j) == Step(journal', j).phase
      {
        assert PhaseOf(c.receipts, j) == Step(journal, j).phase;
      }
    }
  }

  /** The server takes an unknown outcome of step i: it is open, and has itself seen the boundary. */
  predicate Takes(c: Command, i: nat, outputSize: nat) {
    && Open(c) && i < c.steps && outputSize <= MAX_OUTPUT
    && PhaseOf(c.receipts, i) in {EffectStarted, CompensationStarted, StepUnknown}
  }

  lemma TakesExactly(c: Command, i: nat, e: Entry)
    requires e.phase == StepUnknown && e.errorSize <= MAX_ERROR
    ensures Report(c, [ReceiptOf(i, e)]).Accepted? <==> Takes(c, i, e.outputSize)
  {
    var rs := [ReceiptOf(i, e)];
    assert rs[..0] == [];
    assert ApplyAll(c, rs) == CommandRows.Apply(c, c.receipts, rs[0]);
  }

  /** The server takes the refusal of step i: it is open and has seen at most the intent. */
  predicate TakesRefusal(c: Command, i: nat) {
    Open(c) && i < c.steps && PhaseOf(c.receipts, i) in {NoPhase, IntentRecorded}
  }

  lemma RefusalTaken(c: Command, i: nat)
    ensures Report(c, [ReceiptOf(i, INTENT)]).Accepted? <==> TakesRefusal(c, i)
    ensures TakesRefusal(c, i) && NoneUnknown(c) ==>
              && var c' := Report(c, [ReceiptOf(i, INTENT)]).command;
              && var answer := Report(c', [ReceiptOf(i, REFUSAL)]);
              && answer.Accepted? && answer.command.receipts == c.receipts[i := StepFailed]
              && answer.command.status == CommandFailed
  {
    var rs, rs' := [ReceiptOf(i, INTENT)], [ReceiptOf(i, REFUSAL)];
    assert rs[..0] == [] && rs'[..0] == [];
    assert ApplyAll(c, rs) == CommandRows.Apply(c, c.receipts, rs[0]);
    if TakesRefusal(c, i) && NoneUnknown(c) {
      var c' := Report(c, rs).command;
      assert c'.receipts == c.receipts[i := IntentRecorded];
      assert Open(c') by {
        assert PhaseOf(c'.receipts, i) != StepSucceeded;
      }
      assert ApplyAll(c', rs') == CommandRows.Apply(c', c'.receipts, rs'[0]);
      var receipts := c'.receipts[i := StepFailed];
      assert receipts == c.receipts[i := StepFailed];
      assert i in receipts && receipts[i] == StepFailed;
    }
  }

  predicate NoneUnknown(c: Command) {
    forall k :: k in c.receipts ==> c.receipts[k] != StepUnknown
  }

  /** The status the server shows for a journal it is in step with. */
  lemma ShownStatus(c: Command, journal: Journal, n: nat)
    requires InStep(c, journal, n) && journal != map[]
    ensures c.status ==
            if !NoUnknown(journal) then CommandUnknown
            else if exists k :: k in journal && journal[k].phase in {StepFailed, Compensated} then CommandFailed
            else if AllSucceededBelow(journal, n) then CommandSucceeded
            else Running
  {
    assert forall k :: k in c.receipts ==> c.receipts[k] == Step(journal, k).phase;
    forall k | k in journal && journal[k].phase != NoPhase
      ensures k in c.receipts && c.receipts[k] == journal[k].phase
    {
      assert PhaseOf(c.receipts, k) == Step(journal, k).phase;
    }
  }

  // ---- a server that missed a receipt --------------------------------------------------------------

  /** The server lacks one receipt only: the last one of step k, which is the last step with an entry. */
  ghost predicate Missed(c: Command, journal: Journal, n: nat, k: int) {
    && c.live && c.steps == n && RowsInv(c)
    && 0 <= k < n && k in journal && (forall l :: l > k ==> l !in journal)
    && ValidTransition(PhaseOf(c.receipts, k), journal[k].phase)
    && (forall j :: j != k ==> PhaseOf(c.receipts, j) == Step(journal, j).phase)
    && (forall j :: j in journal && (j != k || journal[j].phase != StepSucceeded) ==> journal[j].outputSize <= MAX_OUTPUT)
    && (c.status == StatusOf(n, c.receipts) || (c.status == Leased && c.receipts == map[]))
  }

  /** In step, but perhaps for the last receipt, of step i or a later one. */
  ghost predicate Follows(c: Command, journal: Journal, n: nat, i: nat) {
    InStep(c, journal, n) || exists k :: k >= i && Missed(c, journal, n, k)
  }

  /** A step failed, is being put back, or has an unknown outcome: no step will be started again. */
  predicate Spoils(p: StepPhase) {
    p in {StepFailed, CompensationStarted, Compensated, StepUnknown}
  }

  predicate Spoiled(journal: Journal) {
    exists k :: k in journal && Spoils(journal[k].phase)
  }

  ghost predicate Level(c: Command, journal: Journal, n: nat) {
    Spoiled(journal) || InStep(c, journal, n)
  }

  ghost predicate Trails(c: Command, journal: Journal, n: nat, i: nat) {
    Spoiled(journal) || Follows(c, journal, n, i)
  }

  lemma SpoiledStays(journal: Journal, k: int, e: Entry)
    requires ValidTransition(Step(journal, k).phase, e.phase)
    ensures Spoiled(journal) || Spoils(e.phase) ==> Spoiled(journal[k := e])
  {
    if Spoils(e.phase) {
      assert k in journal[k := e];
    } else if Spoiled(journal) {
      var j :| j in journal && Spoils(journal[j].phase);
      assert j in journal[k := e];
    }
  }

  /** Saved and not yet reported. */
  lemma SavedOnly(c: Command, journal: Journal, n: nat, k: int, e: Entry)
    requires InStep(c, journal, n) && 0 <= k < n && ValidTransition(Step(journal, k).phase, e.phase)
    requires forall l :: l > k ==> l !in journal
    requires e.phase == StepSucceeded || e.outputSize <= MAX_OUTPUT
    ensures Missed(c, journal[k := e], n, k)
  {
    var journal' := journal[k := e];
    forall j | j != k
      ensures PhaseOf(c.receipts, j) == Step(journal', j).phase
    {
      assert PhaseOf(c.receipts, j) == Step(journal, j).phase;
    }
    if journal == map[] {
      forall j
        ensures j !in c.receipts
      {
        assert PhaseOf(c.receipts, j) == Step(journal, j).phase;
      }
    }
    assert PhaseOf(c.receipts, k) == Step(journal, k).phase;
  }

  /** A phase on the way forward, of the last step with an entry. */
  predicate GoesNext(journal: Journal, k: int, e: Entry) {
    && (forall l :: l > k ==> l !in journal)
    && (e.phase == StepSucceeded || (!Spoils(e.phase) && e.outputSize <= MAX_OUTPUT))
  }

  /** A new entry, saved, and reported to a server that takes it. */
  lemma Spread(c: Command, journal: Journal, n: nat, k: int, e: Entry)
    requires InStep(c, journal, n) && 0 <= k < n && ValidTransition(Step(journal, k).phase, e.phase) && GoesNext(journal, k, e)
    requires e.errorSize <= MAX_ERROR
    ensures Follows(c, journal[k := e], n, 0)
    ensures var answer := CommandRows.Report(c, [ReceiptOf(k, e)]);
            answer.Accepted? ==> InStep(answer.command, journal[k := e], n)
  {
    SavedOnly(c, journal, n, k, e);
    var answer := CommandRows.Report(c, [ReceiptOf(k, e)]);
    if answer.Accepted? {
      TakenFits(c, k, e);
      CatchesUp(c, journal[k := e], n, k);
    }
  }

  /** A journal to go on with: the steps before `first` succeeded, `first` is at most started. */
  predicate Found(journal: Journal, first: nat) {
    && AllSucceededBelow(journal, first)
    && (forall l :: l > first ==> l !in journal)
    && Step(journal, first).phase in {NoPhase, IntentRecorded, EffectStarted}
  }

  /** A receipt the server has seen changes nothing. */
  lemma Repeats(c: Command, k: int, e: Entry)
    requires Open(c) && 0 <= k < c.steps && c.status == StatusOf(c.steps, c.receipts)
    requires k in c.receipts && c.receipts[k] == e.phase && e.phase != NoPhase
    requires e.outputSize <= MAX_OUTPUT && e.errorSize <= MAX_ERROR
    ensures CommandRows.Report(c, [ReceiptOf(k, e)]) == Accepted(c)
  {
    var rs := [ReceiptOf(k, e)];
    assert rs[..0] == [];
    assert ApplyAll(c, rs) == CommandRows.Apply(c, c.receipts, rs[0]);
  }

  /** The missed receipt, sent again, puts the server in step, unless its output is too large. */
  lemma CatchesUp(c: Command, journal: Journal, n: nat, k: int)
    requires Missed(c, journal, n, k) && Open(c) && journal[k].errorSize <= MAX_ERROR
    ensures var answer := CommandRows.Report(c, [ReceiptOf(k, journal[k])]);
            && (answer.Accepted? <==> journal[k].outputSize <= MAX_OUTPUT)
            && (answer.Accepted? ==> InStep(answer.command, journal, n))
  {
    var rs := [ReceiptOf(k, journal[k])];
    assert rs[..0] == [];
    assert ApplyAll(c, rs) == CommandRows.Apply(c, c.receipts, rs[0]);
    if journal[k].outputSize <= MAX_OUTPUT {
      forall j
        ensures PhaseOf(c.receipts[k := journal[k].phase], j) == Step(journal, j).phase
      {
        assert j != k ==> PhaseOf(c.receipts, j) == Step(journal, j).phase;
      }
    }
  }

  /** Among succeeded steps a missed success is the last one found, and the command still runs. */
  lemma MissedSuccess(c: Command, journal: Journal, n: nat, first: nat, k: nat)
    requires Missed(c, journal, n, k) && Found(journal, first) && k < first
    ensures first == k + 1 && c.status == Running
  {
    assert Step(journal, k + 1).phase != StepSucceeded;
    assert Step(journal, k).phase == StepSucceeded;
    assert c.receipts[k] == EffectStarted;
    forall j | j in c.receipts
      ensures c.receipts[j] in {EffectStarted, StepSucceeded}
    {
      assert j != k ==> PhaseOf(c.receipts, j) == Step(journal, j).phase;
      assert j < first ==> Step(journal, j).phase == StepSucceeded;
    }
    assert PhaseOf(c.receipts, k) != StepSucceeded;
  }

  /** Reporting a step found succeeded again, when the server takes it. */
  lemma PassesOn(c: Command, journal: Journal, n: nat, i: nat)
    requires Follows(c, journal, n, i) && i in journal && journal[i].phase == StepSucceeded && journal[i].errorSize <= MAX_ERROR
    requires CommandRows.Report(c, [ReceiptOf(i, journal[i])]).Accepted? && i < n
    ensures Follows(CommandRows.Report(c, [ReceiptOf(i, journal[i])]).command, journal, n, i + 1)
  {
    TakenFits(c, i, journal[i]);
    if InStep(c, journal, n) {
      assert PhaseOf(c.receipts, i) == Step(journal, i).phase;
      Repeats(c, i, journal[i]);
    } else {
      var k :| k >= i && Missed(c, journal, n, k);
      if k == i {
        CatchesUp(c, journal, n, k);
      } else {
        assert PhaseOf(c.receipts, i) == Step(journal, i).phase;
        Repeats(c, i, journal[i]);
      }
    }
  }

  lemma TakenFits(c: Command, k: int, e: Entry)
    requires CommandRows.Report(c, [ReceiptOf(k, e)]).Accepted?
    ensures Open(c) && e.outputSize <= MAX_OUTPUT
  {
    var rs := [ReceiptOf(k, e)];
    assert rs[..0] == [];
    assert ApplyAll(c, rs) == CommandRows.Apply(c, c.receipts, rs[0]);
  }

  /** Reporting a step found succeeded again, to a server that takes receipts. */
  lemma ReportedAgain(c: Command, journal: Journal, n: nat, first: nat, i: nat)
    requires Follows(c, journal, n, i) && Found(journal, first) && i < first <= n && Open(c) && i in journal
    requires journal[i].errorSize <= MAX_ERROR
    ensures var answer := CommandRows.Report(c, [ReceiptOf(i, journal[i])]);
            && (answer.Accepted? ==>
                  && Follows(answer.command, journal, n, i + 1) && (i + 1 < n ==> Open(answer.command))
                  && PhaseOf(answer.command.receipts, first) == PhaseOf(c.receipts, first))
            && (answer.Declined? ==> !OutputsFit(journal) && c.status == Running)
  {
    assert Step(journal, i).phase == StepSucceeded;
    var answer := CommandRows.Report(c, [ReceiptOf(i, journal[i])]);
    ReportsExactly(c, ReceiptOf(i, journal[i]));
    if answer.Accepted? {
      PassesOn(c, journal, n, i);
    }
    if InStep(c, journal, n) {
      assert PhaseOf(c.receipts, i) == StepSucceeded;
      Repeats(c, i, journal[i]);
    } else {
      var k :| k >= i && Missed(c, journal, n, k);
      if k == i {
        MissedSuccess(c, journal, n, first, k);
        CatchesUp(c, journal, n, k);
        if answer.Accepted? && i + 1 < n {
          StillOpen(answer.command, journal, n, first);
        }
      } else {
        assert PhaseOf(c.receipts, i) == Step(journal, i).phase;
        Repeats(c, i, journal[i]);
      }
    }
  }

  /** A server in step takes receipts as long as a step is to do. */
  lemma StillOpen(c: Command, journal: Journal, n: nat, first: nat)
    requires InStep(c, journal, n) && Found(journal, first) && first < n
    ensures Open(c)
  {
    forall j | j in c.receipts
      ensures c.receipts[j] in {IntentRecorded, EffectStarted, StepSucceeded}
    {
      assert PhaseOf(c.receipts, j) == Step(journal, j).phase;
      assert j < first ==> Step(journal, j).phase == StepSucceeded;
    }
    assert PhaseOf(c.receipts, first) == Step(journal, first).phase;
  }

  /** How many steps are done from the first on. */
  function Done(journal: Journal, n: nat, i: nat := 0): (d: nat)
    requires i <= n && AllSucceededBelow(journal, i)
    ensures i <= d <= n && AllSucceededBelow(journal, d)
    ensures d < n ==> Step(journal, d).phase != StepSucceeded
    decreases n - i
  {
    if i == n || Step(journal, i).phase != StepSucceeded then i else Done(journal, n, i + 1)
  }

  lemma StartedAtServer(c: Command, journal: Journal, n: nat, i: nat)
    requires Follows(c, journal, n, i) && Found(journal, i) && i < n && Step(journal, i).phase == EffectStarted && Open(c)
    ensures PhaseOf(c.receipts, i) == EffectStarted ==> InStep(c, journal, n)
    ensures PhaseOf(c.receipts, i) != EffectStarted ==> PhaseOf(c.receipts, i) == IntentRecorded && c.status == Running
  {
    if !InStep(c, journal, n) {
      var k :| k >= i && Missed(c, journal, n, k);
      assert k == i;
      forall j | j in c.receipts
        ensures c.receipts[j] in {IntentRecorded, StepSucceeded}
      {
        assert j != k ==> PhaseOf(c.receipts, j) == Step(journal, j).phase;
        assert j < i ==> Step(journal, j).phase == StepSucceeded;
      }
    }
  }

  lemma OnlyIntentMissed(c: Command, journal: Journal, n: nat, i: nat)
    requires Follows(c, journal, n, i) && Found(journal, i)
    ensures OutputsFit(journal)
    ensures i !in journal ==> InStep(c, journal, n)
  {
    if !InStep(c, journal, n) {
      var k :| k >= i && Missed(c, journal, n, k);
      assert k == i;
    }
  }

  /** Reporting a recorded intent again, whether or not the server has seen it. */
  lemma IntentAgain(c: Command, journal: Journal, n: nat, i: nat)
    requires Follows(c, journal, n, i) && Found(journal, i) && i < n && Open(c) && i in journal
    requires journal[i].phase == IntentRecorded && journal[i].errorSize <= MAX_ERROR
    ensures var answer := CommandRows.Report(c, [ReceiptOf(i, journal[i])]);
            answer.Accepted? && InStep(answer.command, journal, n)
  {
    if InStep(c, journal, n) {
      assert PhaseOf(c.receipts, i) == IntentRecorded;
      Repeats(c, i, journal[i]);
    } else {
      var k :| k >= i && Missed(c, journal, n, k);
      CatchesUp(c, journal, n, k);
    }
  }

  lemma OneLess(journal: Journal, k: nat, e: Entry)
    requires NothingFrom(journal, k + 1) && e.phase == Compensated
    ensures NothingFrom(journal[k := e], k)
    ensures AllSucceededBelow(journal, k) ==> AllSucceededBelow(journal[k := e], k)
    ensures NoUnknown(journal) ==> NoUnknown(journal[k := e])
  {
    NothingFromKept(journal, k, e);
    var journal' := journal[k := e];
    assert forall j :: j != k ==> Step(journal', j) == Step(journal, j);
  }

  // ---- how a first execution goes ------------------------------------------------------------------

  /** `GivesUp` is the end of an execution that finds an effect without settlement; `seen` says whether the server saw it. */
  datatype Course = GoesOn | Fails | Sticks | GivesUp(seen: bool)

  predicate Prepares(job: Job, life: Life, files: Files, i: nat)
    requires i < |job.steps|
  {
    match job.steps[i]
    case StageArtifact => life.prepare(i).Works? && |job.payload| <= ARTIFACT_LIMIT
    case ReplaceFile(target) =>
      && target.Some? && !Blank(job.artifactRef) && life.prepare(i).Works?
      && (target.value.path in files ==> |files[target.value.path].content| <= ARTIFACT_LIMIT)
    case _ => true
  }

  predicate Acts(job: Job, life: Life, staged: bool, i: nat)
    requires i < |job.steps|
  {
    life.effect(i).Works? && (job.steps[i].ReplaceFile? ==> staged && |job.payload| <= ARTIFACT_LIMIT)
  }

  /** What becomes of step i: success, a failure to compensate, or a success the server does not take. */
  function CourseOf(job: Job, life: Life, files: Files, staged: bool, i: nat): Course
    requires i < |job.steps|
  {
    if life.contextDone(i) || !Prepares(job, life, files, i) || life.contextDoneAfter(i) || !Acts(job, life, staged, i)
    then Fails
    else if OutputSize(job, i) > MAX_OUTPUT then Sticks
    else GoesOn
  }

  function FilesAfter(job: Job, files: Files, i: nat): Files
    requires i < |job.steps|
  {
    match job.steps[i]
    case ReplaceFile(Some(t)) => files[t.path := File(job.payload, FileMode(Capture(files, t.path).mode))]
    case _ => files
  }

  /** What becomes of the steps from i on. */
  function Ending(job: Job, life: Life, files: Files, staged: bool, i: nat): Course
    requires i <= |job.steps|
    decreases |job.steps| - i
  {
    if i == |job.steps| then GoesOn
    else
      match CourseOf(job, life, files, staged, i)
      case GoesOn => Ending(job, life, FilesAfter(job, files, i), staged || job.steps[i].StageArtifact?, i + 1)
      case other => other
  }

  /** Nothing stands in the way of steps i and later but the size of what they report. */
  ghost predicate Working(job: Job, life: Life, files: Files, staged: bool, i: nat) {
    && (forall k :: i <= k < |job.steps| ==>
          !life.contextDone(k) && !life.contextDoneAfter(k) && life.prepare(k).Works? && life.effect(k).Works?)
    && |job.payload| <= ARTIFACT_LIMIT
    && (forall k :: i <= k < |job.steps| && job.steps[k].ReplaceFile? ==> Replaceable(job, files, staged, i, k))
  }

  /** A replacement whose target is readable and whose artifact is staged by then. */
  predicate Replaceable(job: Job, files: Files, staged: bool, i: nat, k: nat)
    requires i <= k < |job.steps| && job.steps[k].ReplaceFile?
  {
    && job.steps[k].target.Some? && !Blank(job.artifactRef)
    && (staged || exists j :: i <= j < k && job.steps[j].StageArtifact?)
    && var path := job.steps[k].target.value.path;
       path in files ==> |files[path].content| <= ARTIFACT_LIMIT
  }

  lemma WorkingStays(job: Job, life: Life, files: Files, staged: bool, i: nat)
    requires i < |job.steps| && Working(job, life, files, staged, i)
    ensures Working(job, life, FilesAfter(job, files, i), staged || job.steps[i].StageArtifact?, i + 1)
  {
    forall k | i + 1 <= k < |job.steps| && job.steps[k].ReplaceFile?
      ensures Replaceable(job, FilesAfter(job, files, i), staged || job.steps[i].StageArtifact?, i + 1, k)
    {
      assert Replaceable(job, files, staged, i, k);
    }
  }

  /** When everything else works, the execution goes through exactly when every output fits its receipt. */
  lemma {:induction false} WorkingEnding(job: Job, life: Life, files: Files, staged: bool, i: nat)
    requires i <= |job.steps| && Working(job, life, files, staged, i)
    ensures Ending(job, life, files, staged, i) in {GoesOn, Sticks}
    ensures Ending(job, life, files, staged, i) == GoesOn <==>
            forall k :: i <= k < |job.steps| ==> OutputSize(job, k) <= MAX_OUTPUT
    decreases |job.steps| - i
  {
    if i < |job.steps| {
      assert job.steps[i].ReplaceFile? ==> Replaceable(job, files, staged, i, i);
      WorkingStays(job, life, files, staged, i);
      WorkingEnding(job, life, FilesAfter(job, files, i), staged || job.steps[i].StageArtifact?, i + 1);
    }
  }

  /** n times "./" */
  function Dots(n: nat): string {
    if n == 0 then "" else Dots(n - 1) + ['.', '/']
  }

  lemma {:induction false} DotsSize(n: nat)
    ensures EscapedSizes(Dots(n)) == 2 * n
  {
    if n > 0 {
      DotsSize(n - 1);
      var d := Dots(n - 1);
      assert (d + ['.', '/'])[..|d| + 1] == d + ['.'] && (d + ['.'])[..|d|] == d;
    }
  }

  lemma {:induction false} EscapedAdd(a: string, b: string)
    ensures EscapedSizes(a + b) == EscapedSizes(a) + EscapedSizes(b)
    decreases |b|
  {
    if b == "" {
      assert a + b == a;
    } else {
      EscapedAdd(a, b[..|b| - 1]);
      assert (a + b)[..|a + b| - 1] == a + b[..|b| - 1];
    }
  }

  /**
   * The configuration file /etc/app, spelled with 8150 detours: its arguments decode, the replacement works, and the
   * output that echoes the spelling is too large for a receipt.
   */
  lemma LongSpellingSticks(life: Life, payload: Bytes, orig: Files) returns (job: Job)
    requires forall k: nat :: !life.contextDone(k) && !life.contextDoneAfter(k) && life.prepare(k).Works? && life.effect(k).Works?
    requires |payload| <= ARTIFACT_LIMIT
    requires "/etc/app" in orig ==> |orig["/etc/app"].content| <= ARTIFACT_LIMIT
    ensures job.steps == [StageArtifact, ReplaceFile(Some(Target("/etc/" + Dots(8150) + "app", "/etc/app")))]
    ensures job.payload == payload && job.orig == orig
    ensures ArgumentSize("/etc/" + Dots(8150) + "app") <= MAX_ARGUMENTS
    ensures Ending(job, life, orig, false, 0) == Sticks
  {
    var spelled := "/etc/" + Dots(8150) + "app";
    SpelledSize();
    job := Job([StageArtifact, ReplaceFile(Some(Target(spelled, "/etc/app")))], "a", payload, "systemd", orig);
    assert !Blank("a") by { assert !IsSpace("a"[0]); }
    assert job.steps[0].StageArtifact?;
    assert Replaceable(job, orig, false, 0, 1);
    WorkingEnding(job, life, orig, false, 0);
    assert OutputSize(job, 1) == 92 + JsonSize(spelled);
  }

  lemma SpelledSize()
    ensures EscapedSizes("/etc/" + Dots(8150) + "app") == 16308
  {
    DotsSize(8150);
    EscapedAdd("/etc/" + Dots(8150), "app");
    EscapedAdd("/etc/", Dots(8150));
    ShortSizes();
  }

  lemma ShortSizes()
    ensures EscapedSizes("/etc/") == 5 && EscapedSizes("app") == 3
  {
    assert "/etc/"[..4] == "/etc" && "/etc"[..3] == "/et" && "/et"[..2] == "/e" && "/e"[..1] == "/" && "/"[..0] == "";
    assert "app"[..2] == "ap" && "ap"[..1] == "a" && "a"[..0] == "";
    assert EscapedSizes("/") == 1 && EscapedSizes("/e") == 2 && EscapedSizes("/et") == 3 && EscapedSizes("/etc") == 4;
    assert EscapedSizes("a") == 1 && EscapedSizes("ap") == 2;
  }

  class Executor {
    const job: Job
    const world: World
    var host: Host
    var server: Command
    var ticks: nat
    var lives: nat
    ghost var trace: seq<Move>

    constructor (job: Job, world: World, server: Command)
      ensures Valid() && this.job == job && this.world == world && host == Start(job) && this.server == server
    {
      this.job, this.world, this.host, this.server, this.trace := job, world, Start(job), server, [];
      this.ticks, this.lives := 0, 0;
    }

    ghost predicate Valid()
      reads this
    {
      host == Reached(job, trace)
    }

    function Now(): Life
      reads this`lives
    {
      world.life(lives)
    }

    /** Nothing dies, and saves and reports do what they should. */
    ghost predicate Reliable() {
      && (forall t :: world.save(t).Works? && world.report(t).Works?)
      && (forall l, i :: !world.life(l).prepare(i).Kills? && !world.life(l).effect(i).Kills?)
      && (forall l, i :: !world.life(l).restore(i).Kills?)
    }

    ghost predicate RestoresWork() {
      forall l, i :: world.life(l).restore(i).Works?
    }

    ghost predicate Calm()
      reads this
    {
      Reliable() && InStep(server, host.journal, |job.steps|)
    }

    lemma Facts()
      requires Valid()
      ensures Inv(job, host)
    {
      ReachedInv(job, trace);
    }

    method Happen(m: Move)
      requires Valid() && Legal(job, host, m)
      modifies this`host, this`trace
      ensures Valid() && host == HostRuns.Apply(job, old(host), m)
    {
      assert (trace + [m])[..|trace|] == trace;
      host, trace := HostRuns.Apply(job, host, m), trace + [m];
    }

    /** journal.save with one changed entry: atomic, but its error may come after the new state is in place. */
    method Save(m: Move) returns (r: Outcome)
      requires Valid() && Legal(job, host, m) && (m.Note? || m.Refuse?)
      modifies this`host, this`trace, this`ticks
      ensures Valid()
      ensures ticks == old(ticks) + 1
      ensures host == if TakesHold(world.save(old(ticks))) then HostRuns.Apply(job, old(host), m) else old(host)
      ensures r.Fine? <==> world.save(old(ticks)).Works?
      ensures r.Failed? ==> r.error == SaveError
      ensures Reliable() ==> r.Fine?
    {
      var fate := world.save(ticks);
      ticks := ticks + 1;
      if TakesHold(fate) {
        Happen(m);
      }
      r := match fate case Works => Fine case Breaks(_, _, _) => Failed(SaveError) case Kills(_) => Died;
    }

    /** report: one receipt to the server. */
    method Report(k: int, e: Entry) returns (r: Outcome)
      modifies this`server, this`ticks
      ensures server == old(server) || CommandRows.Report(old(server), [ReceiptOf(k, e)]) == Accepted(server)
      ensures r.Fine? ==> CommandRows.Report(old(server), [ReceiptOf(k, e)]) == Accepted(server)
      ensures r.Failed? ==> r.error != SaveError
      ensures ticks == old(ticks) + 1
      ensures !world.report(old(ticks)).Works? ==> r == OutcomeOf(world.report(old(ticks)))
      ensures Reliable() && CommandRows.Report(old(server), [ReceiptOf(k, e)]).Accepted? ==> r.Fine?
      ensures Reliable() && !CommandRows.Report(old(server), [ReceiptOf(k, e)]).Accepted? ==>
                r == Failed(ServerError) && server == old(server)
    {
      var fate := world.report(ticks);
      var answer := CommandRows.Report(server, [ReceiptOf(k, e)]);
      ticks, server := ticks + 1, if TakesHold(fate) && answer.Accepted? then answer.command else server;
      r := if fate.Works? && !answer.Accepted? then Failed(ServerError) else OutcomeOf(fate);
    }

    /** SetStep, save, report: the three always come together. */
    method Publish(state: Journal, k: int, e: Entry) returns (next: Journal, r: Outcome)
      requires Valid() && state == host.journal && Legal(job, host, Note(k, e))
      modifies this`host, this`trace, this`ticks, this`server
      ensures Valid() && next == state[k := e]
      ensures host == old(host) || host == HostRuns.Apply(job, old(host), Note(k, e))
      ensures r.Fine? || (r.Failed? && r.error != SaveError) ==> host == HostRuns.Apply(job, old(host), Note(k, e))
      ensures Lost(old(ticks)) ==>
                r == OutcomeOf(world.report(old(ticks) + 1)) && host == HostRuns.Apply(job, old(host), Note(k, e))
      ensures Reliable() ==>
                && host == HostRuns.Apply(job, old(host), Note(k, e))
                && match CommandRows.Report(old(server), [ReceiptOf(k, e)])
                   case Accepted(c) => r.Fine? && server == c
                   case Declined => r == Failed(ServerError) && server == old(server)
      ensures old(Calm() && OpenFor(host.journal, |job.steps|)) ==>
                && host == HostRuns.Apply(job, old(host), Note(k, e))
                && if e.outputSize <= MAX_OUTPUT then r.Fine? && Calm() else r == Failed(ServerError) && server == old(server)
      ensures Spoils(e.phase) && old(Trails(server, host.journal, |job.steps|, 0)) ==> Trails(server, host.journal, |job.steps|, 0)
      ensures old(Level(server, host.journal, |job.steps|)) && GoesNext(state, k, e) ==>
                && Trails(server, host.journal, |job.steps|, 0)
                && (r.Fine? ==> Level(server, host.journal, |job.steps|))
    {
      if Calm() && OpenFor(host.journal, |job.steps|) {
        Accepts(server, host.journal, |job.steps|, k, e);
      }
      SpoiledStays(state, k, e);
      if InStep(server, state, |job.steps|) && GoesNext(state, k, e) {
        Spread(server, state, |job.steps|, k, e);
      }
      next := state[k := e];
      r := SaveAndReport(k, e);
    }

    method SaveAndReport(k: int, e: Entry) returns (r: Outcome)
      requires Valid() && Legal(job, host, Note(k, e))
      modifies this`host, this`trace, this`ticks, this`server
      ensures Valid()
      ensures || (host == old(host) && server == old(server) && (r == Failed(SaveError) || r == Died))
              || host == HostRuns.Apply(job, old(host), Note(k, e))
      ensures r.Fine? || (r.Failed? && r.error != SaveError) ==> host == HostRuns.Apply(job, old(host), Note(k, e))
      ensures server == old(server) || CommandRows.Report(old(server), [ReceiptOf(k, e)]) == Accepted(server)
      ensures r.Fine? ==> CommandRows.Report(old(server), [ReceiptOf(k, e)]) == Accepted(server)
      ensures Lost(old(ticks)) ==>
                r == OutcomeOf(world.report(old(ticks) + 1)) && host == HostRuns.Apply(job, old(host), Note(k, e))
      ensures Reliable() ==>
                && host == HostRuns.Apply(job, old(host), Note(k, e))
                && match CommandRows.Report(old(server), [ReceiptOf(k, e)])
                   case Accepted(c) => r.Fine? && server == c
                   case Declined => r == Failed(ServerError) && server == old(server)
    {
      r := Save(Note(k, e));
      if r.Fine? {
        r := Report(k, e);
      }
    }

    /** prepare */
    method Prepare(i: nat) returns (r: Outcome, c: Option<Compensation>)
      requires Valid() && i < |job.steps| && !Pending(host.journal, i)
      modifies this`host, this`trace
      ensures Valid()
      ensures host == old(host).(backups := host.backups)
      ensures r.Failed? ==> r.error.OtherError?
      ensures r.Fine? ==> CapturedNow(job, host, i, c)
      ensures r.Fine? <==> Prepares(job, Now(), host.files, i)
      ensures Reliable() ==> !r.Died?
    {
      var fate := Now().prepare(i);
      r, c := Fine, None;
      match job.steps[i] {
        case StageArtifact =>
          r := if fate.Works? && |job.payload| > ARTIFACT_LIMIT then Failed(TOO_LARGE) else OutcomeOf(fate);
        case ReplaceFile(target) =>
          if target.None? || Blank(job.artifactRef) {
            return Failed(BAD_ARGUMENTS), None;
          }
          var path := target.value.path;
          if path in host.files && |host.files[path].content| > ARTIFACT_LIMIT {
            return Failed(TOO_LARGE), None;
          }
          if path in host.files && TakesHold(fate) {
            Happen(KeepBackup(i, host.files[path].content));
          }
          r, c := OutcomeOf(fate), Some(Capture(host.files, path));
        case _ =>
      }
    }

    /** The journal entry of a replacement holds the state of its target. */
    predicate Captured(files: Files, journal: Journal, i: nat)
      requires i < |job.steps|
    {
      job.steps[i].ReplaceFile? ==>
        && job.steps[i].target.Some?
        && Step(journal, i).phase == EffectStarted
        && Step(journal, i).compensation == Some(Capture(files, job.steps[i].target.value.path))
    }

    /** executePrepared: the effect of step i. */
    method ExecutePrepared(i: nat) returns (r: Outcome)
      requires Valid() && i < |job.steps| && host.memory == Armed(EffectOf(i))
      requires Captured(host.files, host.journal, i)
      modifies this`host, this`trace
      ensures Valid()
      ensures host.journal == old(host.journal) && host.memory == Acted(EffectOf(i))
      ensures r.Failed? ==> r.error.OtherError?
      ensures r.Fine? ==> Holds(job.steps[i], host.files, job.payload)
      ensures r.Fine? <==> Acts(job, Now(), old(host.staged.Some?), i)
      ensures r.Fine? ==>
                && host.files == FilesAfter(job, old(host.files), i)
                && (host.staged.Some? <==> old(host.staged.Some?) || job.steps[i].StageArtifact?)
      ensures Reliable() ==> !r.Died?
    {
      Facts();
      var fate := Now().effect(i);
      if job.steps[i].ReplaceFile? && host.staged.None? {
        Happen(Effect(i, false));
        return Failed(NOT_STAGED);
      }
      if job.steps[i].ReplaceFile? && |host.staged.value| > ARTIFACT_LIMIT {
        Happen(Effect(i, false));
        return Failed(TOO_LARGE);
      }
      Happen(Effect(i, job.steps[i].ReplaceFile? && TakesHold(fate)));
      if job.steps[i].StageArtifact? && TakesHold(fate) {
        Happen(Stage);
      }
      r := OutcomeOf(fate);
    }

    /** restoreFile for step k. */
    method RestoreFile(k: nat) returns (r: Outcome)
      requires Valid() && host.memory == Armed(RestoreOf(k)) && Pending(host.journal, k)
      modifies this`host, this`trace
      ensures Valid()
      ensures host.journal == old(host.journal) && host.backups == old(host.backups) && host.memory == Acted(RestoreOf(k))
      ensures r.Fine? ==> host.files == Restore(host.files, host.journal[k].compensation.value, BackupOf(host.backups, k))
      ensures r.Failed? ==> r.error.OtherError?
      ensures Reliable() ==> !r.Died?
      ensures RestoresWork() ==> r.Fine?
    {
      RestoreTwice(host.files, host.journal[k].compensation.value, BackupOf(host.backups, k));
      var fate := Now().restore(k);
      Happen(PutBack(k, TakesHold(fate)));
      r := OutcomeOf(fate);
    }

    /** Settle a tried restore: compensated, or outcome unknown. */
    method SettleRestore(state: Journal, k: nat, tried: Outcome) returns (next: Journal, r: Outcome)
      requires Valid() && state == host.journal && k < |job.steps| && !tried.Died?
      requires Step(state, k).phase == CompensationStarted && Step(state, k).compensation.Some?
      requires tried.Fine? ==>
                 && host.memory == Acted(RestoreOf(k))
                 && host.files == Restore(host.files, state[k].compensation.value, BackupOf(host.backups, k))
      modifies this`host, this`trace, this`ticks, this`server
      ensures Valid()
      ensures r.Fine? ==> tried.Fine? && next == host.journal == state[k := state[k].(phase := Compensated, errorSize := 0)]
      ensures old(Calm() && NoUnknown(host.journal)) ==>
                && Calm() && !r.Died? && (r.Failed? ==> Step(host.journal, k).phase == StepUnknown)
                && (tried.Fine? ==> r.Fine?)
      ensures old(Trails(server, host.journal, |job.steps|, 0)) ==> Trails(server, host.journal, |job.steps|, 0)
    {
      assert Step(state, k).phase != StepSucceeded;
      assert Calm() && NoUnknown(state) ==> OpenFor(state, |job.steps|);
      var settled := if tried.Fine? then state[k].(phase := Compensated, errorSize := 0)
        else state[k].(phase := StepUnknown, errorSize := BoundedError(tried.error));
      next, r := Publish(state, k, settled);
      if r.Fine? {
        r := tried;
      }
    }

    /** One turn of compensate for a step that has something to put back. */
    method CompensateStep(state: Journal, k: nat) returns (next: Journal, r: Outcome)
      requires Valid() && state == host.journal && k < |job.steps|
      requires Pending(state, k) && NothingFrom(state, k + 1) && (state[k].phase == StepSucceeded || state[k].phase == StepFailed)
      modifies this`host, this`trace, this`ticks, this`server
      ensures Valid()
      ensures r.Fine? ==> next == host.journal == state[k := state[k].(phase := Compensated, errorSize := 0)]
      ensures old(Calm() && OpenFor(host.journal, |job.steps|)) ==>
                && Calm() && !r.Died? && (r.Failed? ==> Step(host.journal, k).phase == StepUnknown)
                && (RestoresWork() ==> r.Fine?)
      ensures old(Trails(server, host.journal, |job.steps|, 0)) ==> Trails(server, host.journal, |job.steps|, 0)
    {
      Ready(k);
      var entry := state[k].(phase := CompensationStarted);
      next, r := Publish(state, k, entry);
      if !r.Fine? {
        return;
      }
      ghost var undone := state[k].(phase := Compensated, errorSize := 0);
      assert next[k := undone] == state[k := undone];
      next, r := TryRestore(next, k);
    }

    /** The restore of step k, past its recorded boundary, and its settlement. */
    method TryRestore(state: Journal, k: nat) returns (next: Journal, r: Outcome)
      requires Valid() && state == host.journal && k < |job.steps| && host.memory == Armed(RestoreOf(k))
      requires Pending(state, k) && state[k].phase == CompensationStarted && state[k].errorSize <= MAX_ERROR
      modifies this`host, this`trace, this`ticks, this`server
      ensures Valid()
      ensures r.Fine? ==> next == host.journal == state[k := state[k].(phase := Compensated, errorSize := 0)]
      ensures old(Calm() && NoUnknown(host.journal)) ==>
                && Calm() && !r.Died? && (r.Failed? ==> Step(host.journal, k).phase == StepUnknown)
                && (RestoresWork() ==> r.Fine?)
      ensures old(Trails(server, host.journal, |job.steps|, 0)) ==> Trails(server, host.journal, |job.steps|, 0)
    {
      next := state;
      r := RestoreFile(k);
      if r.Died? {
        return;
      }
      next, r := SettleRestore(next, k, r);
    }

    /** What the invariant says about a step that may be put back now. */
    lemma Ready(k: nat)
      requires Valid() && Pending(host.journal, k) && host.journal[k].phase in {StepSucceeded, StepFailed}
      ensures host.journal[k].errorSize <= MAX_ERROR && k < |job.steps|
    {
      Facts();
    }

    /** compensate: from the failed step down, put back the failed step and every earlier success. */
    method Compensate(state: Journal, failed: nat) returns (r: Outcome)
      requires Valid() && AllAllowed(job.steps) && state == host.journal && failed < |job.steps|
      requires Step(state, failed).phase == StepFailed && AllSucceededBelow(state, failed)
      modifies this`host, this`trace, this`ticks, this`server
      ensures Valid()
      ensures r.Fine? ==> NothingFrom(host.journal, 0)
      ensures old(Calm()) ==>
                && Calm() && !r.Died? && (RestoresWork() ==> r.Fine?)
                && server.status == if r.Fine? then CommandFailed else CommandUnknown
      ensures old(Trails(server, host.journal, |job.steps|, 0)) ==> Trails(server, host.journal, |job.steps|, 0)
    {
      Alone(failed);
      var now := state;
      var k: int := failed;
      while k >= 0
        invariant -1 <= k <= failed
        invariant Valid() && now == host.journal && NothingFrom(now, k + 1)
        invariant Step(now, failed).phase == StepFailed || (k < failed && Step(now, failed).phase == Compensated)
        invariant AllSucceededBelow(now, if k == failed then failed else k + 1)
        invariant old(Calm()) ==> Calm() && NoUnknown(now)
      {
        if Step(now, k).compensation.Some? && (Step(now, k).phase == StepFailed || Step(now, k).phase == StepSucceeded) {
          assert Step(now, failed).phase != StepSucceeded;
          OneLess(now, k, now[k].(phase := Compensated, errorSize := 0));
          now, r := CompensateStep(now, k);
          if !r.Fine? {
            if old(Calm()) {
              assert k in host.journal && !NoUnknown(host.journal);
              ShownStatus(server, host.journal, |job.steps|);
            }
            return;
          }
        }
        k := k - 1;
      }
      r := Fine;
      if old(Calm()) {
        assert failed in host.journal;
        ShownStatus(server, host.journal, |job.steps|);
      }
    }

    /** Above a step that failed, or has not crossed its effect boundary, the journal is empty. */
    lemma Alone(i: nat)
      requires Valid() && AllAllowed(job.steps) && i < |job.steps| && AllSucceededBelow(host.journal, i)
      requires Step(host.journal, i).phase in {NoPhase, IntentRecorded, EffectStarted, StepFailed}
      ensures NothingFrom(host.journal, i + 1) && NoUnknown(host.journal)
      ensures forall l :: l > i ==> l !in host.journal
      ensures Step(host.journal, i).phase in {NoPhase, IntentRecorded} ==>
                !Pending(host.journal, i) && Step(host.journal, i).compensation.None?
      ensures Step(host.journal, i).errorSize <= MAX_ERROR
      ensures Step(host.journal, i).phase != StepFailed ==> !Spoiled(host.journal)
    {
      Facts();
      NothingAbove(host.journal, i);
      forall k | k in host.journal
        ensures host.journal[k].phase in {StepSucceeded, Step(host.journal, i).phase}
      {
        assert k < i ==> Step(host.journal, k).phase == StepSucceeded;
      }
    }

    /** The save numbered `tick` works, and the report after it does not. */
    predicate Lost(tick: nat) {
      world.save(tick).Works? && !world.report(tick + 1).Works?
    }

    /** settleFailure: the failure receipt; the report of it may be lost. */
    method SettleFailure(state: Journal, i: nat, cause: Error) returns (next: Journal, r: Outcome)
      requires Valid() && AllAllowed(job.steps) && state == host.journal && i < |job.steps| && AllSucceededBelow(state, i)
      requires Step(state, i).phase == IntentRecorded || Step(state, i).phase == EffectStarted
      requires cause.OtherError?
      modifies this`host, this`trace, this`ticks, this`server
      ensures Valid()
      ensures r.Fine? || r == Failed(cause) ==>
                next == host.journal && Step(next, i).phase == StepFailed && AllSucceededBelow(next, i)
      ensures Lost(old(ticks)) ==> r == OutcomeOf(world.report(old(ticks) + 1)) && host == HostRuns.Apply(job, old(host), Note(i, FailureOf(state, i, cause)))
      ensures old(Calm()) ==> r.Fine? && Calm()
      ensures old(Trails(server, host.journal, |job.steps|, 0)) ==> Trails(server, host.journal, |job.steps|, 0)
    {
      Alone(i);
      assert Calm() ==> OutputsFit(state) && OpenFor(state, |job.steps|);
      next, r := Publish(state, i, FailureOf(state, i, cause));
      assert forall j :: j != i ==> Step(next, j) == Step(state, j);
    }

    function FailureOf(state: Journal, i: nat, cause: Error): Entry {
      Step(state, i).(phase := StepFailed, errorSize := BoundedError(cause))
    }

    /** settleAndCompensate: the failure receipt, then the restores; a report error that is the cause itself is passed over. */
    method SettleAndCompensate(state: Journal, i: nat, cause: Error) returns (result: Result)
      requires Valid() && AllAllowed(job.steps) && state == host.journal && i < |job.steps| && AllSucceededBelow(state, i)
      requires Step(state, i).phase == IntentRecorded || Step(state, i).phase == EffectStarted
      requires cause.OtherError?
      modifies this`host, this`trace, this`ticks, this`server
      ensures Valid()
      ensures result == Cause(cause) || result.NotCompensated? || result.Stopped? || result.Crashed?
      ensures result.Cause? ==> NothingFrom(host.journal, 0)
      ensures result != Stopped(cause)
      ensures Lost(old(ticks)) && OutcomeOf(world.report(old(ticks) + 1)) != Failed(cause) ==>
                && result == StopFor(OutcomeOf(world.report(old(ticks) + 1)))
                && host == HostRuns.Apply(job, old(host), Note(i, FailureOf(state, i, cause)))
      ensures old(Calm()) ==>
                && Calm() && (RestoresWork() ==> result == Cause(cause))
                && (|| (result.Cause? && server.status == CommandFailed)
                    || (result.NotCompensated? && server.status == CommandUnknown))
      ensures old(Trails(server, host.journal, |job.steps|, 0)) ==> Trails(server, host.journal, |job.steps|, 0)
    {
      var next, r := SettleFailure(state, i, cause);
      if !r.Fine? && r != Failed(cause) {
        return StopFor(r);
      }
      r := Compensate(next, i);
      result := match r case Fine => Cause(cause) case Failed(e) => NotCompensated(e) case Died => Crashed;
    }

    /** failWithoutEffect: intent and failure receipts of the first step that is not allowed. */
    method FailWithoutEffect(i: nat) returns (result: Result)
      requires Valid() && !AllAllowed(job.steps) && i < |job.steps|
      modifies this`host, this`trace, this`ticks, this`server
      ensures Valid()
      ensures host == old(host).(journal := host.journal, memory := host.memory)
      ensures result.Stopped? || result.Crashed?
      ensures Reliable() && old(NoneUnknown(server)) ==> Refusal(old(server), i, result)
    {
      RefusalTaken(server, i);
      var r := Save(Refuse(i));
      if r.Fine? {
        r := Report(i, INTENT);
      }
      if !r.Fine? {
        return StopFor(r);
      }
      var next;
      next, r := Publish(host.journal, i, REFUSAL);
      result := if r.Fine? then Stopped(NOT_ALLOWED) else StopFor(r);
    }

    /** How the refusal of step i ends: in a failed command, or in an error of the server. */
    ghost predicate Refusal(c: Command, i: nat, result: Result)
      reads this`server
    {
      if TakesRefusal(c, i)
      then result == Stopped(NOT_ALLOWED) && server.status == CommandFailed && server.receipts == c.receipts[i := StepFailed]
      else result == Stopped(ServerError) && server == c
    }

    /** The effect of step i, past its recorded boundary, and its settlement. */
    method EffectStep(state: Journal, i: nat) returns (next: Journal, stop: Option<Result>)
      requires Valid() && AllAllowed(job.steps) && state == host.journal && i < |job.steps| && AllSucceededBelow(state, i)
      requires host.memory == Armed(EffectOf(i)) && Step(state, i).phase == EffectStarted
      requires Captured(host.files, state, i)
      modifies this`host, this`trace, this`ticks, this`server
      ensures Valid()
      ensures stop.None? ==> next == host.journal && AllSucceededBelow(next, i + 1)
      ensures stop.Some? ==> !stop.value.Nil? && (stop.value.Cause? ==> NothingFrom(host.journal, 0))
      ensures old(Calm()) ==>
                StepEnd(if Acts(job, Now(), old(host.staged.Some?), i) then Settling(i) else Fails, stop,
                        old(host.files), old(host.staged.Some?), i)
      ensures old(Level(server, host.journal, |job.steps|)) ==>
                && Trails(server, host.journal, |job.steps|, 0)
                && (stop.None? ==> Level(server, host.journal, |job.steps|))
    {
      Alone(i);
      assert Calm() ==> OpenFor(state, |job.steps|);
      var r := ExecutePrepared(i);
      if r.Died? {
        return state, Some(Crashed);
      }
      if r.Failed? {
        var result := SettleAndCompensate(state, i, r.error);
        return state, Some(result);
      }
      next, stop := SettleSuccess(state, i);
    }

    /** In the middle of a step a server in step with the journal shows the command as running. */
    lemma MidwayIsRunning(i: nat)
      requires Valid() && Calm() && AllAllowed(job.steps) && i < |job.steps| && AllSucceededBelow(host.journal, i)
      requires Step(host.journal, i).phase == EffectStarted
      ensures server.status == Running
    {
      Alone(i);
      assert i in host.journal;
      ShownStatus(server, host.journal, |job.steps|);
      forall k | k in host.journal
        ensures host.journal[k].phase == if k < i then Step(host.journal, k).phase else EffectStarted
        ensures host.journal[k].phase !in {StepFailed, Compensated}
      {
        Facts();
        assert 0 <= k;
        assert k < i ==> Step(host.journal, k).phase == StepSucceeded;
      }
    }

    /** The success receipt of step i. */
    method SettleSuccess(state: Journal, i: nat) returns (next: Journal, stop: Option<Result>)
      requires Valid() && AllAllowed(job.steps) && state == host.journal && i < |job.steps| && AllSucceededBelow(state, i)
      requires Step(state, i).phase == EffectStarted && Holds(job.steps[i], host.files, job.payload)
      requires host.memory == Acted(EffectOf(i))
      modifies this`host, this`trace, this`ticks, this`server
      ensures Valid()
      ensures stop.None? ==> next == host.journal && AllSucceededBelow(next, i + 1)
      ensures stop.Some? ==> stop.value.Stopped? || stop.value.Crashed?
      ensures host.files == old(host.files) && host.staged == old(host.staged)
      ensures old(Calm()) ==>
                match Settling(i)
                case GoesOn => stop.None? && Calm() && forall l :: l > i ==> l !in host.journal
                case _ => stop.Some? && stop.value.Stopped? && server.status == Running
      ensures old(Level(server, host.journal, |job.steps|)) ==>
                && Trails(server, host.journal, |job.steps|, 0)
                && (stop.None? ==> Level(server, host.journal, |job.steps|))
    {
      Alone(i);
      if Calm() {
        MidwayIsRunning(i);
        assert OpenFor(state, |job.steps|);
      }
      var entry := Step(state, i).(phase := StepSucceeded, outputSize := OutputSize(job, i), errorSize := 0);
      var r;
      next, r := Publish(state, i, entry);
      if !r.Fine? {
        return next, Some(StopFor(r));
      }
      assert forall j :: j != i ==> Step(next, j) == Step(state, j);
      stop := None;
    }

    /** How a step that took effect goes on. */
    function Settling(i: nat): Course
      requires i < |job.steps|
    {
      if OutputSize(job, i) > MAX_OUTPUT then Sticks else GoesOn
    }

    /** How a step of a reliable execution ends, on the host and at the server. */
    ghost predicate StepEnd(course: Course, stop: Option<Result>, files: Files, staged: bool, i: nat)
      requires i < |job.steps|
      reads this
    {
      match course
      case GoesOn =>
        && stop.None? && Calm() && (forall l :: l > i ==> l !in host.journal)
        && host.files == FilesAfter(job, files, i) && (host.staged.Some? <==> staged || job.steps[i].StageArtifact?)
      case Fails =>
        && stop.Some? && Calm()
        && (|| (stop.value.Cause? && server.status == CommandFailed)
            || (stop.value.NotCompensated? && server.status == CommandUnknown && !RestoresWork()))
      case Sticks => stop.Some? && stop.value.Stopped? && server.status == Running
      case GivesUp(_) => false
    }

    /** The receipt that puts the effect boundary of step i on record, with what was captured before it. */
    method CrossBoundary(state: Journal, i: nat, c: Option<Compensation>) returns (next: Journal, r: Outcome)
      requires Valid() && AllAllowed(job.steps) && state == host.journal && i < |job.steps| && AllSucceededBelow(state, i)
      requires Step(state, i).phase == IntentRecorded && CapturedNow(job, host, i, c)
      modifies this`host, this`trace, this`ticks, this`server
      ensures Valid()
      ensures host.files == old(host.files) && host.staged == old(host.staged)
      ensures r.Fine? ==>
                && next == host.journal && AllSucceededBelow(next, i) && Step(next, i).phase == EffectStarted
                && host.memory == Armed(EffectOf(i)) && Captured(host.files, next, i)
      ensures old(Calm()) ==> r.Fine? && Calm()
      ensures old(Level(server, host.journal, |job.steps|)) ==>
                && Trails(server, host.journal, |job.steps|, 0)
                && (r.Fine? ==> Level(server, host.journal, |job.steps|))
    {
      Alone(i);
      assert Calm() ==> OpenFor(state, |job.steps|);
      next, r := Publish(state, i, Step(state, i).(phase := EffectStarted, compensation := c));
      assert forall j :: j != i ==> Step(next, j) == Step(state, j);
    }

    /** Prepare step i, cross its effect boundary, run it. */
    method PerformStep(state: Journal, i: nat) returns (next: Journal, stop: Option<Result>)
      requires Valid() && AllAllowed(job.steps) && state == host.journal && i < |job.steps| && AllSucceededBelow(state, i)
      requires Step(state, i).phase == IntentRecorded
      modifies this`host, this`trace, this`ticks, this`server
      ensures Valid()
      ensures stop.None? ==> next == host.journal && AllSucceededBelow(next, i + 1)
      ensures stop.Some? ==> !stop.value.Nil? && (stop.value.Cause? ==> NothingFrom(host.journal, 0))
      ensures old(Calm()) ==>
                StepEnd(CourseOf(job, Now(), old(host.files), old(host.staged.Some?), i), stop,
                        old(host.files), old(host.staged.Some?), i)
      ensures old(Level(server, host.journal, |job.steps|)) ==>
                && Trails(server, host.journal, |job.steps|, 0)
                && (stop.None? ==> Level(server, host.journal, |job.steps|))
    {
      if Now().contextDone(i) {
        var result := SettleAndCompensate(state, i, CONTEXT_DONE);
        return state, Some(result);
      }
      Alone(i);
      var r, c := Prepare(i);
      if r.Died? {
        return state, Some(Crashed);
      }
      if r.Failed? || Now().contextDoneAfter(i) {
        var result := SettleAndCompensate(state, i, if r.Failed? then r.error else CONTEXT_DONE);
        return state, Some(result);
      }
      next, stop := PreparedStep(state, i, c);
    }

    /** Cross the effect boundary of a step that is prepared, and run it. */
    method PreparedStep(state: Journal, i: nat, c: Option<Compensation>) returns (next: Journal, stop: Option<Result>)
      requires Valid() && AllAllowed(job.steps) && state == host.journal && i < |job.steps| && AllSucceededBelow(state, i)
      requires Step(state, i).phase == IntentRecorded && CapturedNow(job, host, i, c)
      modifies this`host, this`trace, this`ticks, this`server
      ensures Valid()
      ensures stop.None? ==> next == host.journal && AllSucceededBelow(next, i + 1)
      ensures stop.Some? ==> !stop.value.Nil? && (stop.value.Cause? ==> NothingFrom(host.journal, 0))
      ensures old(Calm()) ==>
                StepEnd(if Acts(job, Now(), old(host.staged.Some?), i) then Settling(i) else Fails, stop,
                        old(host.files), old(host.staged.Some?), i)
      ensures old(Level(server, host.journal, |job.steps|)) ==>
                && Trails(server, host.journal, |job.steps|, 0)
                && (stop.None? ==> Level(server, host.journal, |job.steps|))
    {
      var r;
      next, r := CrossBoundary(state, i, c);
      if !r.Fine? {
        return next, Some(StopFor(r));
      }
      next, stop := EffectStep(next, i);
    }

    /** A step whose intent is on record: report it again and perform the step. */
    method ResumeStep(state: Journal, i: nat) returns (next: Journal, stop: Option<Result>)
      requires Valid() && AllAllowed(job.steps) && state == host.journal && i < |job.steps| && AllSucceededBelow(state, i)
      requires Step(state, i).phase == IntentRecorded
      modifies this`host, this`trace, this`ticks, this`server
      ensures Valid()
      ensures stop.None? ==> next == host.journal && AllSucceededBelow(next, i + 1)
      ensures stop.Some? ==> !stop.value.Nil? && (stop.value.Cause? ==> NothingFrom(host.journal, 0))
      ensures old(Reliable() && Follows(server, host.journal, |job.steps|, i) && Open(server)) ==>
                StepEnd(CourseOf(job, Now(), old(host.files), old(host.staged.Some?), i), stop,
                        old(host.files), old(host.staged.Some?), i)
      ensures old(Trails(server, host.journal, |job.steps|, i)) ==>
                && Trails(server, host.journal, |job.steps|, 0)
                && (stop.None? ==> Trails(server, host.journal, |job.steps|, i + 1))
    {
      Alone(i);
      var entry := Step(state, i);
      if Follows(server, state, |job.steps|, i) && Open(server) {
        IntentAgain(server, state, |job.steps|, i);
      }
      var r := Report(i, entry);
      if !r.Fine? {
        return state, Some(StopFor(r));
      }
      next, stop := PerformStep(state, i);
    }

    /** A step without an entry: put its intent on record and perform the step. */
    method StartStep(state: Journal, i: nat) returns (next: Journal, stop: Option<Result>)
      requires Valid() && AllAllowed(job.steps) && state == host.journal && i < |job.steps| && AllSucceededBelow(state, i)
      requires Step(state, i).phase == NoPhase
      modifies this`host, this`trace, this`ticks, this`server
      ensures Valid()
      ensures stop.None? ==> next == host.journal && AllSucceededBelow(next, i + 1)
      ensures stop.Some? ==> !stop.value.Nil? && (stop.value.Cause? ==> NothingFrom(host.journal, 0))
      ensures old(Calm()) ==>
                StepEnd(CourseOf(job, Now(), old(host.files), old(host.staged.Some?), i), stop,
                        old(host.files), old(host.staged.Some?), i)
      ensures old(Trails(server, host.journal, |job.steps|, i)) ==>
                && Trails(server, host.journal, |job.steps|, 0)
                && (stop.None? ==> Trails(server, host.journal, |job.steps|, i + 1))
    {
      Alone(i);
      assert Calm() ==> OpenFor(state, |job.steps|);
      var r;
      next, r := Publish(state, i, INTENT);
      if !r.Fine? {
        return next, Some(StopFor(r));
      }
      assert forall j :: j != i ==> Step(next, j) == Step(state, j);
      next, stop := PerformStep(next, i);
    }

    lemma Passes(i: nat)
      requires Valid() && i < |job.steps| && Step(host.journal, i).phase == StepSucceeded
      requires Trails(server, host.journal, |job.steps|, i)
      ensures var answer := CommandRows.Report(server, [ReceiptOf(i, host.journal[i])]);
              answer.Accepted? ==> Trails(answer.command, host.journal, |job.steps|, i + 1)
    {
      Facts();
      var answer := CommandRows.Report(server, [ReceiptOf(i, host.journal[i])]);
      if answer.Accepted? && !Spoiled(host.journal) {
        PassesOn(server, host.journal, |job.steps|, i);
      }
    }

    predicate Settled(p: StepPhase) {
      p == StepFailed || p == Compensated || p == StepUnknown
    }

    /** The first step that is not succeeded is settled: nothing is left to do. */
    predicate Over(journal: Journal) {
      var first := Done(journal, |job.steps|);
      first < |job.steps| && Settled(Step(journal, first).phase)
    }

    /** One turn of the loop at a step found succeeded: it is reported again. */
    method ReportAgain(state: Journal, i: nat) returns (stop: Option<Result>)
      requires Valid() && state == host.journal && i < |job.steps| && Step(state, i).phase == StepSucceeded
      modifies this`ticks, this`server
      ensures stop.None? ==> CommandRows.Report(old(server), [ReceiptOf(i, state[i])]) == Accepted(server)
      ensures stop.Some? ==> stop.value.Stopped? || stop.value.Crashed?
      ensures stop.Some? && Reliable() ==>
                && CommandRows.Report(old(server), [ReceiptOf(i, state[i])]).Declined?
                && stop.value.Stopped? && server == old(server)
      ensures old(Trails(server, host.journal, |job.steps|, i)) ==>
                && Trails(server, host.journal, |job.steps|, 0)
                && (stop.None? ==> Trails(server, host.journal, |job.steps|, i + 1))
    {
      if Trails(server, state, |job.steps|, i) {
        Passes(i);
      }
      var r := Report(i, state[i]);
      stop := if r.Fine? then None else Some(StopFor(r));
    }

    /** One turn of the loop at any other step: resume it, start it, or give it up. */
    method RunStep(state: Journal, i: nat) returns (next: Journal, stop: Option<Result>)
      requires Valid() && AllAllowed(job.steps) && state == host.journal && i < |job.steps| && AllSucceededBelow(state, i)
      requires Step(state, i).phase != StepSucceeded
      modifies this`host, this`trace, this`ticks, this`server
      ensures Valid()
      ensures stop.None? ==> next == host.journal && AllSucceededBelow(next, i + 1)
      ensures stop == Some(Nil) ==> Step(host.journal, i).phase == StepUnknown
      ensures stop.Some? && stop.value.Cause? ==> NothingFrom(host.journal, 0)
      ensures Step(state, i).phase in {EffectStarted, CompensationStarted} && Reliable() ==>
                && Step(host.journal, i).phase == StepUnknown
                && if Takes(old(server), i, Step(state, i).outputSize)
                   then stop == Some(Nil) else stop == Some(Stopped(ServerError)) && server == old(server)
      ensures Step(state, i).phase == EffectStarted && old(Calm()) ==> Calm() && server.status == CommandUnknown
      ensures Settled(Step(state, i).phase) ==>
                stop == Some(Stopped(TerminalStep)) && host == old(host) && server == old(server)
      ensures Step(state, i).phase == IntentRecorded && old(Reliable() && Follows(server, host.journal, |job.steps|, i) && Open(server)) ==>
                StepEnd(CourseOf(job, Now(), old(host.files), old(host.staged.Some?), i), stop,
                        old(host.files), old(host.staged.Some?), i)
      ensures Step(state, i).phase == NoPhase && old(Calm()) ==>
                StepEnd(CourseOf(job, Now(), old(host.files), old(host.staged.Some?), i), stop,
                        old(host.files), old(host.staged.Some?), i)
      ensures old(Trails(server, host.journal, |job.steps|, i)) ==>
                && Trails(server, host.journal, |job.steps|, 0)
                && (stop.None? ==> Trails(server, host.journal, |job.steps|, i + 1))
    {
      next := state;
      match Step(state, i).phase {
        case EffectStarted =>
          stop := Abandon(state, i);
        case CompensationStarted =>
          stop := Abandon(state, i);
        case IntentRecorded =>
          next, stop := ResumeStep(state, i);
        case NoPhase =>
          next, stop := StartStep(state, i);
        case _ =>
          stop := Some(Stopped(TerminalStep));
      }
    }

    lemma StartedIsOpen(i: nat)
      requires Valid() && Calm() && AllAllowed(job.steps) && i < |job.steps| && AllSucceededBelow(host.journal, i)
      requires Step(host.journal, i).phase == EffectStarted
      ensures OpenFor(host.journal, |job.steps|) && Step(host.journal, i).outputSize <= MAX_OUTPUT
    {
      Alone(i);
      assert i in host.journal;
    }

    function Abandoned(state: Journal, i: nat): Entry {
      Step(state, i).(phase := StepUnknown, errorSize := RESTARTED)
    }

    /** A boundary without settlement is found on resuming: declare the outcome unknown; nil if the server takes it. */
    method Abandon(state: Journal, i: nat) returns (stop: Option<Result>)
      requires Valid() && state == host.journal && i < |job.steps|
      requires Step(state, i).phase == EffectStarted || Step(state, i).phase == CompensationStarted
      modifies this`host, this`trace, this`ticks, this`server
      ensures Valid()
      ensures stop.Some? && !stop.value.Cause?
      ensures stop == Some(Nil) ==> Step(host.journal, i).phase == StepUnknown
      ensures Reliable() ==>
                && Step(host.journal, i).phase == StepUnknown
                && host == HostRuns.Apply(job, old(host), Note(i, Abandoned(state, i)))
                && (if Takes(old(server), i, Step(state, i).outputSize)
                    then stop == Some(Nil) else stop == Some(Stopped(ServerError)) && server == old(server))
      ensures Step(state, i).phase == EffectStarted && AllAllowed(job.steps) && AllSucceededBelow(state, i) && old(Calm()) ==>
                Calm() && server.status == CommandUnknown
      ensures old(Trails(server, host.journal, |job.steps|, 0)) ==> Trails(server, host.journal, |job.steps|, 0)
    {
      Facts();
      ghost var calm := Step(state, i).phase == EffectStarted && AllAllowed(job.steps) && AllSucceededBelow(state, i) && Calm();
      if calm {
        StartedIsOpen(i);
      }
      TakesExactly(server, i, Abandoned(state, i));
      var next, r := Publish(state, i, Abandoned(state, i));
      stop := Some(if r.Fine? then Nil else StopFor(r));
      if calm {
        assert i in host.journal && host.journal[i].phase == StepUnknown;
        ShownStatus(server, host.journal, |job.steps|);
      }
    }

    predicate FirstBarred(i: nat) {
      i < |job.steps| && job.steps[i] == Refused && forall k :: 0 <= k < i ==> job.steps[k] != Refused
    }

    /** allowedHostPrimitive over all steps. */
    method FirstRefused() returns (i: nat)
      ensures i <= |job.steps|
      ensures i == |job.steps| <==> AllAllowed(job.steps)
      ensures i < |job.steps| ==> FirstBarred(i)
    {
      i := 0;
      while i < |job.steps| && job.steps[i] != Refused
        invariant i <= |job.steps|
        invariant forall k :: 0 <= k < i ==> job.steps[k] != Refused
      {
        i := i + 1;
      }
    }

    /**
     * Execute. However it ends, and however often it was called and died before, only legal moves were made, and the
     * server misses at most the last receipt of a journal to be gone on with. The cause comes back only with the files
     * put back, and always when restores work. A reliable execution, the first or a later one, goes on with the first
     * step to do and ends as `Ending` says from there.
     */
    method Execute(expired: bool) returns (result: Result)
      requires Valid()
      modifies this
      ensures Valid()
      ensures result.Nil? && AllAllowed(job.steps) ==>
                || AllSucceededBelow(host.journal, |job.steps|)
                || exists i :: 0 <= i < |job.steps| && Step(host.journal, i).phase == StepUnknown
      ensures AllAllowed(job.steps) && AllSucceededBelow(host.journal, |job.steps|) ==>
                forall k :: 0 <= k < |job.steps| ==> Holds(job.steps[k], host.files, job.payload)
      ensures result.Cause? ==> host.files == Rolled(job.orig, Touched(host.journal, |job.steps|))
      ensures forall k :: host.effects[k] <= 1 && host.restores[k] <= 1
      ensures expired ==>
                result == Stopped(EXPIRED) && host == old(host).(memory := Idle) && server == old(server)
      ensures job.steps == [] && !expired ==> result == Nil && host == old(host).(memory := Idle) && server == old(server)
      ensures !expired && old(Reliable() && NoneUnknown(server)) ==>
                forall i :: FirstBarred(i) ==> Refusal(old(server), i, result)
      ensures AllAllowed(job.steps) && old(Trails(server, host.journal, |job.steps|, 0)) ==>
                Trails(server, host.journal, |job.steps|, 0)
      ensures !expired && AllAllowed(job.steps) && Over(old(host.journal)) ==>
                (result.Stopped? || result.Crashed?) && host == old(host).(memory := Idle)
      ensures !expired && AllAllowed(job.steps) && job.steps != [] && old(Resumable()) ==>
                RunEnd(CourseFrom(old(server), old(host), world.life(old(lives) + 1)), result)
      ensures !expired && AllAllowed(job.steps) && job.steps != [] && old(Resumable())
                && WorkingFrom(old(host), world.life(old(lives) + 1)) ==>
                (result == Nil <==>
                 forall k :: Done(old(host.journal), |job.steps|) <= k < |job.steps| ==> OutputSize(job, k) <= MAX_OUTPUT)
    {
      lives := lives + 1;
      WorkingCourse(server, host, Now());
      Happen(Restart);
      result := Dispatch(expired);
      if result.Cause? {
        RollbackIsInverse(job, trace);
      }
      Applies();
    }

    /** The checks before the loop, and the loop. */
    method Dispatch(expired: bool) returns (result: Result)
      requires Valid()
      modifies this`host, this`trace, this`ticks, this`server
      ensures Valid()
      ensures result.Nil? && AllAllowed(job.steps) ==>
                || AllSucceededBelow(host.journal, |job.steps|)
                || exists i :: 0 <= i < |job.steps| && Step(host.journal, i).phase == StepUnknown
      ensures result.Cause? ==> NothingFrom(host.journal, 0)
      ensures expired ==> result == Stopped(EXPIRED) && host == old(host) && server == old(server)
      ensures job.steps == [] && !expired ==> result == Nil && host == old(host) && server == old(server)
      ensures !expired && old(Reliable() && NoneUnknown(server)) ==>
                forall i :: FirstBarred(i) ==> Refusal(old(server), i, result)
      ensures AllAllowed(job.steps) && old(Trails(server, host.journal, |job.steps|, 0)) ==>
                Trails(server, host.journal, |job.steps|, 0)
      ensures !expired && AllAllowed(job.steps) && Over(old(host.journal)) ==>
                (result.Stopped? || result.Crashed?) && host == old(host)
      ensures !expired && AllAllowed(job.steps) && job.steps != [] && old(Resumable()) ==>
                RunEnd(old(CourseFrom(server, host, Now())), result)
    {
      if expired {
        return Stopped(EXPIRED);
      }
      var refused := FirstRefused();
      if refused < |job.steps| {
        result := FailWithoutEffect(refused);
        return;
      }
      result := RunSteps();
    }

    /** Nothing stands in the way of what is left to do but the size of what it reports. */
    ghost predicate WorkingFrom(h: Host, life: Life) {
      && OutputsFit(h.journal) && Step(h.journal, Done(h.journal, |job.steps|)).phase != EffectStarted
      && Working(job, life, h.files, h.staged.Some?, Done(h.journal, |job.steps|))
    }

    lemma WorkingCourse(c: Command, h: Host, life: Life)
      ensures WorkingFrom(h, life) ==>
                && CourseFrom(c, h, life) in {GoesOn, Sticks}
                && (CourseFrom(c, h, life) == GoesOn <==>
                    forall k :: Done(h.journal, |job.steps|) <= k < |job.steps| ==> OutputSize(job, k) <= MAX_OUTPUT)
    {
      if WorkingFrom(h, life) {
        WorkingEnding(job, life, h.files, h.staged.Some?, Done(h.journal, |job.steps|));
      }
    }

    /** How a reliable execution goes on from where the host stands. */
    function CourseFrom(c: Command, h: Host, life: Life): Course {
      var first := Done(h.journal, |job.steps|);
      if !OutputsFit(h.journal) then Sticks
      else if Step(h.journal, first).phase == EffectStarted then GivesUp(PhaseOf(c.receipts, first) == EffectStarted)
      else Ending(job, life, h.files, h.staged.Some?, first)
    }

    /** Nothing dies, the server takes receipts and missed at most the last one, and no step failed or was given up. */
    ghost predicate Resumable()
      reads this
    {
      && Reliable() && Open(server) && Trails(server, host.journal, |job.steps|, 0)
      && Step(host.journal, Done(host.journal, |job.steps|)).phase in {NoPhase, IntentRecorded, EffectStarted}
    }

    /** A reliable execution, done with what it found, stands before step i and is to end as `end`. */
    ghost predicate Ahead(i: nat, end: Course)
      reads this
    {
      && i <= |job.steps| && Reliable() && (forall l :: l >= i ==> l !in host.journal)
      && end == Ending(job, Now(), host.files, host.staged.Some?, i)
    }

    /** A reliable execution stands before step i of a journal to be gone on with at `first`, and is to end as `end`. */
    ghost predicate Before(i: nat, first: nat, end: Course)
      reads this
    {
      && i <= first == Done(host.journal, |job.steps|) && Reliable() && (i < |job.steps| ==> Open(server))
      && Step(host.journal, first).phase in {NoPhase, IntentRecorded, EffectStarted}
      && end == CourseFrom(server, host, Now())
    }

    ghost predicate Underway(i: nat, first: nat, end: Course)
      reads this
    {
      if i <= first then Before(i, first, end) else Ahead(i, end)
    }

    /** Nothing is spoiled in a journal to be gone on with. */
    lemma GoOnAt(first: nat)
      requires Valid() && AllAllowed(job.steps) && first <= |job.steps| && AllSucceededBelow(host.journal, first)
      requires Step(host.journal, first).phase in {NoPhase, IntentRecorded, EffectStarted}
      ensures Found(host.journal, first) && !Spoiled(host.journal)
    {
      Facts();
      if first < |job.steps| {
        Alone(first);
      }
      forall k | k in host.journal
        ensures !Spoils(host.journal[k].phase)
      {
        assert k < first ==> Step(host.journal, k).phase == StepSucceeded;
      }
    }

    /** Before a step without an entry the server is in step. */
    lemma AheadIsCalm(i: nat, end: Course)
      requires Valid() && AllAllowed(job.steps) && AllSucceededBelow(host.journal, i) && Ahead(i, end)
      requires Trails(server, host.journal, |job.steps|, i)
      ensures Calm()
    {
      GoOnAt(i);
      OnlyIntentMissed(server, host.journal, |job.steps|, i);
    }

    /** At the first step to do, a server that missed nothing before it missed at most its intent. */
    lemma AtFirst(i: nat, end: Course)
      requires Valid() && AllAllowed(job.steps) && Before(i, i, end) && Trails(server, host.journal, |job.steps|, i)
      ensures Follows(server, host.journal, |job.steps|, i)
      ensures Step(host.journal, i).phase == NoPhase ==> Ahead(i, end)
      ensures i == |job.steps| ==> Ahead(i, end)
      ensures Step(host.journal, i).phase != EffectStarted ==> end == Ending(job, Now(), host.files, host.staged.Some?, i)
    {
      GoOnAt(i);
      NoEmptyEntry(i);
      OnlyIntentMissed(server, host.journal, |job.steps|, i);
    }

    /** At a step found started, the server has seen as much, or lacks just that. */
    lemma AtStarted(i: nat, end: Course)
      requires Valid() && AllAllowed(job.steps) && Before(i, i, end) && Trails(server, host.journal, |job.steps|, i)
      requires i < |job.steps| && Step(host.journal, i).phase == EffectStarted
      ensures end == GivesUp(true) || end == GivesUp(false)
      ensures end == GivesUp(true) ==> Calm() && Takes(server, i, Step(host.journal, i).outputSize)
      ensures end == GivesUp(false) ==> server.status == Running && !Takes(server, i, Step(host.journal, i).outputSize)
    {
      GoOnAt(i);
      OnlyIntentMissed(server, host.journal, |job.steps|, i);
      StartedAtServer(server, host.journal, |job.steps|, i);
    }

    lemma NoEmptyEntry(i: nat)
      requires Valid()
      ensures i in host.journal ==> i < |job.steps| && host.journal[i].phase != NoPhase
    {
      Facts();
    }

    /** A step found succeeded is reported again, and the next one comes, or its output is too large for the server. */
    lemma FoundAgain(i: nat, first: nat, end: Course)
      requires Valid() && AllAllowed(job.steps) && i < first && Before(i, first, end)
      requires Trails(server, host.journal, |job.steps|, i)
      ensures Step(host.journal, i).phase == StepSucceeded
      ensures var answer := CommandRows.Report(server, [ReceiptOf(i, host.journal[i])]);
              && (answer.Accepted? ==>
                    && (i + 1 < |job.steps| ==> Open(answer.command))
                    && PhaseOf(answer.command.receipts, first) == PhaseOf(server.receipts, first))
              && (answer.Declined? ==> end == Sticks && server.status == Running)
    {
      GoOnAt(first);
      Facts();
      assert Step(host.journal, i).phase == StepSucceeded;
      ReportedAgain(server, host.journal, |job.steps|, first, i);
    }

    /** One turn at a step found succeeded, as part of the execution. */
    method RunFound(state: Journal, i: nat, ghost first: nat, ghost end: Course) returns (stop: Option<Result>)
      requires Valid() && AllAllowed(job.steps) && state == host.journal
      requires i < |job.steps| && Step(state, i).phase == StepSucceeded
      modifies this`ticks, this`server
      ensures stop.Some? ==> stop.value.Stopped? || stop.value.Crashed?
      ensures old(Underway(i, first, end) && Trails(server, host.journal, |job.steps|, i)) ==>
                if stop.None? then Underway(i + 1, first, end) else RunEnd(end, stop.value)
      ensures old(Trails(server, host.journal, |job.steps|, i)) ==>
                && Trails(server, host.journal, |job.steps|, 0)
                && (stop.None? ==> Trails(server, host.journal, |job.steps|, i + 1))
    {
      if Underway(i, first, end) && Trails(server, host.journal, |job.steps|, i) {
        assert i < first;
        FoundAgain(i, first, end);
      }
      stop := ReportAgain(state, i);
    }

    /** Where an execution stands before a step that is not done. */
    lemma Stands(i: nat, first: nat, end: Course)
      requires Valid() && AllAllowed(job.steps) && i < |job.steps| && AllSucceededBelow(host.journal, i)
      requires Underway(i, first, end) && Trails(server, host.journal, |job.steps|, i)
      requires Step(host.journal, i).phase != StepSucceeded
      ensures Step(host.journal, i).phase in {NoPhase, IntentRecorded, EffectStarted}
      ensures Step(host.journal, i).phase == NoPhase ==> Calm()
      ensures Step(host.journal, i).phase == IntentRecorded ==> Follows(server, host.journal, |job.steps|, i) && Open(server)
      ensures Step(host.journal, i).phase != EffectStarted ==> end == Ending(job, Now(), host.files, host.staged.Some?, i)
      ensures Step(host.journal, i).phase == EffectStarted ==>
                || (end == GivesUp(true) && Calm() && Takes(server, i, Step(host.journal, i).outputSize))
                || (end == GivesUp(false) && server.status == Running && !Takes(server, i, Step(host.journal, i).outputSize))
      ensures Reliable()
    {
      if i > first {
        AheadIsCalm(i, end);
      } else {
        assert i == first;
        if Step(host.journal, i).phase == EffectStarted {
          AtStarted(i, end);
        } else {
          AtFirst(i, end);
          if Step(host.journal, i).phase == NoPhase {
            AheadIsCalm(i, end);
          }
        }
      }
    }

    /** One turn at any other step, as part of the execution. */
    method RunOne(state: Journal, i: nat, ghost first: nat, ghost end: Course) returns (next: Journal, stop: Option<Result>)
      requires Valid() && AllAllowed(job.steps) && state == host.journal && i < |job.steps| && AllSucceededBelow(state, i)
      requires Step(state, i).phase != StepSucceeded
      modifies this`host, this`trace, this`ticks, this`server
      ensures Valid()
      ensures stop.None? ==> next == host.journal && AllSucceededBelow(next, i + 1)
      ensures stop == Some(Nil) ==> Step(host.journal, i).phase == StepUnknown
      ensures stop.Some? && stop.value.Cause? ==> NothingFrom(host.journal, 0)
      ensures Settled(Step(state, i).phase) ==> stop.Some? && stop.value.Stopped? && host == old(host)
      ensures old(Underway(i, first, end) && Trails(server, host.journal, |job.steps|, i)) ==>
                if stop.None? then Underway(i + 1, first, end) else RunEnd(end, stop.value)
      ensures old(Trails(server, host.journal, |job.steps|, i)) ==>
                && Trails(server, host.journal, |job.steps|, 0)
                && (stop.None? ==> Trails(server, host.journal, |job.steps|, i + 1))
    {
      ghost var underway := Underway(i, first, end) && Trails(server, host.journal, |job.steps|, i);
      ghost var files, staged := host.files, host.staged.Some?;
      if underway {
        Stands(i, first, end);
      }
      next, stop := RunStep(state, i);
      if underway && Step(state, i).phase != EffectStarted {
        EndOfStep(i, end, stop, files, staged);
      }
    }

    /** How the execution goes on after a step, or ends with it. */
    lemma EndOfStep(i: nat, end: Course, stop: Option<Result>, files: Files, staged: bool)
      requires i < |job.steps| && StepEnd(CourseOf(job, Now(), files, staged, i), stop, files, staged, i)
      requires end == Ending(job, Now(), files, staged, i)
      ensures if stop.None? then Ahead(i + 1, end) else RunEnd(end, stop.value)
    {
    }

    /** One turn of the loop. */
    method TakeTurn(state: Journal, i: nat, ghost first: nat, ghost end: Course) returns (next: Journal, stop: Option<Result>)
      requires Valid() && AllAllowed(job.steps) && state == host.journal && i < |job.steps| && AllSucceededBelow(state, i)
      modifies this`host, this`trace, this`ticks, this`server
      ensures Valid()
      ensures stop.None? ==> next == host.journal && AllSucceededBelow(next, i + 1)
      ensures stop == Some(Nil) ==> Step(host.journal, i).phase == StepUnknown
      ensures stop.Some? && stop.value.Cause? ==> NothingFrom(host.journal, 0)
      ensures Step(state, i).phase == StepSucceeded ==> host == old(host) && (stop.Some? ==> stop.value.Stopped? || stop.value.Crashed?)
      ensures Settled(Step(state, i).phase) ==> stop.Some? && stop.value.Stopped? && host == old(host)
      ensures old(Underway(i, first, end) && Trails(server, host.journal, |job.steps|, i)) ==>
                if stop.None? then Underway(i + 1, first, end) else RunEnd(end, stop.value)
      ensures old(Trails(server, host.journal, |job.steps|, i)) ==>
                && Trails(server, host.journal, |job.steps|, 0)
                && (stop.None? ==> Trails(server, host.journal, |job.steps|, i + 1))
    {
      if Step(state, i).phase == StepSucceeded {
        next := state;
        stop := RunFound(state, i, first, end);
      } else {
        next, stop := RunOne(state, i, first, end);
      }
    }

    /** The loop over the steps. */
    method RunSteps() returns (result: Result)
      requires Valid() && AllAllowed(job.steps)
      modifies this`host, this`trace, this`ticks, this`server
      ensures Valid()
      ensures result.Nil? ==>
                || AllSucceededBelow(host.journal, |job.steps|)
                || exists i :: 0 <= i < |job.steps| && Step(host.journal, i).phase == StepUnknown
      ensures result.Cause? ==> NothingFrom(host.journal, 0)
      ensures job.steps == [] ==> result == Nil && host == old(host) && server == old(server)
      ensures old(Trails(server, host.journal, |job.steps|, 0)) ==> Trails(server, host.journal, |job.steps|, 0)
      ensures Over(old(host.journal)) ==> (result.Stopped? || result.Crashed?) && host == old(host)
      ensures old(Resumable()) && job.steps != [] ==> RunEnd(old(CourseFrom(server, host, Now())), result)
    {
      var state := host.journal;
      ghost var first, end := Done(state, |job.steps|), CourseFrom(server, host, Now());
      ghost var resumable, trails := Resumable(), Trails(server, state, |job.steps|, 0);
      ghost var before, over := host, Over(state);
      var i := 0;
      while i < |job.steps|
        invariant i <= |job.steps|
        invariant i == 0 ==> server == old(server)
        invariant i == 0 || over ==> host == before
        invariant over ==> i <= first
        invariant Valid() && state == host.journal && AllSucceededBelow(state, i)
        invariant trails ==> Trails(server, host.journal, |job.steps|, i)
        invariant resumable ==> Underway(i, first, end)
      {
        var next, stop := TakeTurn(state, i, first, end);
        if stop.Some? {
          return stop.value;
        }
        state := next;
        i := i + 1;
      }
      if resumable && job.steps != [] {
        ShownEnd(first, end);
      }
      result := Nil;
    }

    lemma ShownEnd(first: nat, end: Course)
      requires Valid() && job.steps != [] && AllSucceededBelow(host.journal, |job.steps|)
      requires AllAllowed(job.steps) && Underway(|job.steps|, first, end)
      requires Trails(server, host.journal, |job.steps|, |job.steps|)
      ensures RunEnd(end, Nil)
    {
      if first == |job.steps| {
        AtFirst(first, end);
      }
      AheadIsCalm(|job.steps|, end);
      ShownSuccess();
    }

    /** How a reliable execution ends, on the host and at the server: in step, but for a success that is too large. */
    ghost predicate RunEnd(course: Course, result: Result)
      reads this
    {
      match course
      case GoesOn => result == Nil && Calm() && server.status == CommandSucceeded
      case Fails =>
        && Calm()
        && (|| (result.Cause? && server.status == CommandFailed)
            || (result.NotCompensated? && server.status == CommandUnknown && !RestoresWork()))
      case Sticks => result.Stopped? && server.status == Running
      case GivesUp(seen) =>
        && !NoUnknown(host.journal)
        && if seen then result == Nil && Calm() && server.status == CommandUnknown
           else result == Stopped(ServerError) && server.status == Running
    }

    lemma Applies()
      requires Valid()
      ensures forall k :: host.effects[k] <= 1 && host.restores[k] <= 1
      ensures AllAllowed(job.steps) && AllSucceededBelow(host.journal, |job.steps|) ==>
                forall k :: 0 <= k < |job.steps| ==> Holds(job.steps[k], host.files, job.payload)
    {
      if AllAllowed(job.steps) && AllSucceededBelow(host.journal, |job.steps|) {
        SuccessApplies(job, trace);
      }
      Facts();
    }

    lemma ShownSuccess()
      requires Valid() && Calm() && job.steps != [] && AllSucceededBelow(host.journal, |job.steps|)
      ensures server.status == CommandSucceeded
    {
      Facts();
      assert Step(host.journal, 0).phase == StepSucceeded;
      ShownStatus(server, host.journal, |job.steps|);
      forall k | k in host.journal
        ensures host.journal[k].phase == StepSucceeded
      {
        assert Step(host.journal, k).phase == StepSucceeded;
      }
    }
  }
}
