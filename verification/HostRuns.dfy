/**
 * Everything a host executor can do to its machine for one command, as moves: a journal entry that reaches the
 * disk, a backup, a staged artifact, an effect, a restore. A run is any sequence of moves, across any number of
 * process lives; a move that is not legal where it is tried does nothing.
 */
module HostRuns {
  import opened Text
  import opened CommandRows
  import opened HostFiles

  /** A target as the step spells it, and the file it names once the path is cleaned. */
  datatype Target = Target(spelled: string, path: Path)

  /** A command step; `target` is None when its arguments do not decode. */
  datatype HostStep =
    | Refused
    | Probe
    | StageArtifact
    | ReplaceFile(target: Option<Target>)
    | ReloadService(service: string)
    | VerifyFile(spelled: string)
    | VerifyService(service: string)

  /** The command, the artifact it refers to, and the files as they were before it. */
  datatype Job = Job(steps: seq<HostStep>, artifactRef: string, payload: Bytes, initSystem: string, orig: Files)

  /** The effect, or the restore, of a step. */
  datatype Deed = EffectOf(k: int) | RestoreOf(k: int)

  /**
   * What the running process knows and a new one does not: it has just recorded the boundary of a deed, or it has
   * just done it.
   */
  datatype Memory = Idle | Armed(deed: Deed) | Acted(deed: Deed)

  /** `effects` and `restores` count how often each step's effect and restore was executed. */
  datatype Host = Host(
    files: Files, backups: Backups, staged: Option<Bytes>, journal: Journal, memory: Memory,
    effects: multiset<int>, restores: multiset<int>)

  datatype Move =
    | Restart
    | Note(k: int, e: Entry)
    | Refuse(k: int)
    | KeepBackup(k: int, backup: Bytes)
    | Stage
    | Effect(k: int, replaced: bool)
    | PutBack(k: int, restored: bool)

  const INTENT := Entry(IntentRecorded, None, 4, 0)

  predicate AllAllowed(steps: seq<HostStep>) {
    forall k :: 0 <= k < |steps| ==> steps[k] != Refused
  }

  // ---- what a step reports -----------------------------------------------------------------------

  /** Bytes of one character inside a string as encoding/json writes it. */
  function EscapedSize(c: char): (n: nat)
    ensures 1 <= n <= 6
  {
    if c in {'"', '\\', '\n', '\r', '\t'} || c as int == 8 || c as int == 12 then 2
    else if c < ' ' || c in {'<', '>', '&'} || c as int == 0x2028 || c as int == 0x2029 then 6
    else Width(c)
  }

  function EscapedSizes(s: string): nat {
    if s == "" then 0 else EscapedSizes(s[..|s| - 1]) + EscapedSize(s[|s| - 1])
  }

  /** Bytes of a string in JSON, quotes included. */
  function JsonSize(s: string): nat {
    2 + EscapedSizes(s)
  }

  /** Bytes of the output a step reports when it succeeds; a digest takes 73. */
  function OutputSize(job: Job, i: nat): nat
    requires i < |job.steps|
  {
    match job.steps[i]
    case Refused => 4
    case Probe => 43 + JsonSize(job.initSystem)
    case StageArtifact => 107 + JsonSize(job.artifactRef)
    case ReplaceFile(target) => if target.None? then 4 else 92 + JsonSize(target.value.spelled)
    case ReloadService(service) => 28 + JsonSize(service)
    case VerifyFile(spelled) => 92 + JsonSize(spelled)
    case VerifyService(service) => 26 + JsonSize(service)
  }

  /** Bytes of the arguments of a replacement; more than MAX_ARGUMENTS do not decode. */
  function ArgumentSize(spelled: string): nat {
    11 + JsonSize(spelled)
  }

  const MAX_ARGUMENTS := 16384

  /** An entry has a compensation only past its effect boundary, and is restored only with one. */
  predicate EntryOk(e: Entry) {
    && e.phase != NoPhase
    && e.errorSize <= MAX_ERROR
    && (e.compensation.Some? ==> e.phase != IntentRecorded)
    && (e.phase == CompensationStarted || e.phase == Compensated ==> e.compensation.Some?)
  }

  /** The recorded compensation is the state of the step's target at this moment. */
  predicate CapturedNow(job: Job, h: Host, k: int, c: Option<Compensation>)
    requires 0 <= k < |job.steps|
  {
    if !job.steps[k].ReplaceFile? then c.None?
    else
      && job.steps[k].target.Some?
      && var target := job.steps[k].target.value.path;
         c == Some(Capture(h.files, target)) && (target in h.files ==> BackupOf(h.backups, k) == h.files[target].content)
  }

  predicate Holds(step: HostStep, files: Files, payload: Bytes) {
    step.ReplaceFile? ==>
      && step.target.Some?
      && step.target.value.path in files && files[step.target.value.path].content == payload
  }

  predicate AllSucceededBelow(journal: Journal, k: int) {
    forall j :: 0 <= j < k ==> Step(journal, j).phase == StepSucceeded
  }

  ghost predicate Legal(job: Job, h: Host, m: Move) {
    match m
    case Restart => true
    case Note(k, e) =>
      && 0 <= k < |job.steps| && EntryOk(e)
      && ValidTransition(Step(h.journal, k).phase, e.phase)
      && (e.phase == IntentRecorded ==> AllAllowed(job.steps) && AllSucceededBelow(h.journal, k))
      && (e.phase == EffectStarted ==>
            AllAllowed(job.steps) && AllSucceededBelow(h.journal, k) && CapturedNow(job, h, k, e.compensation))
      && (e.phase != EffectStarted ==> e.compensation == Step(h.journal, k).compensation)
      && (e.phase == StepSucceeded ==> Holds(job.steps[k], h.files, job.payload) && h.memory == Acted(EffectOf(k)))
      && (e.phase == CompensationStarted ==> NothingFrom(h.journal, k + 1))
      && (e.phase == Compensated ==>
            h.files == Restore(h.files, e.compensation.value, BackupOf(h.backups, k)) && h.memory == Acted(RestoreOf(k)))
    case Refuse(k) => 0 <= k < |job.steps| && !AllAllowed(job.steps)
    case KeepBackup(k, _) => !Pending(h.journal, k)
    case Stage => true
    case Effect(k, replaced) => h.memory == Armed(EffectOf(k)) && (replaced ==> Pending(h.journal, k))
    case PutBack(k, _) => h.memory == Armed(RestoreOf(k))
  }

  /** Recording a boundary arms the process for the deed behind it; any other entry settles what it did. */
  function AfterNote(k: int, phase: StepPhase): Memory {
    if phase == EffectStarted then Armed(EffectOf(k))
    else if phase == CompensationStarted then Armed(RestoreOf(k))
    else Idle
  }

  function Apply(job: Job, h: Host, m: Move): Host {
    match m
    case Restart => h.(memory := Idle)
    case Note(k, e) => h.(journal := h.journal[k := e], memory := AfterNote(k, e.phase))
    case Refuse(k) => h.(journal := h.journal[k := INTENT], memory := Idle)
    case KeepBackup(k, b) => h.(backups := h.backups[k := b])
    case Stage => h.(staged := Some(job.payload))
    case Effect(k, replaced) =>
      var h' := h.(effects := h.effects + multiset{k}, memory := Acted(EffectOf(k)));
      if replaced && Pending(h.journal, k)
      then var c := h.journal[k].compensation.value;
           h'.(files := h.files[c.target := File(job.payload, FileMode(c.mode))])
      else h'
    case PutBack(k, restored) =>
      var h' := h.(restores := h.restores + multiset{k}, memory := Acted(RestoreOf(k)));
      if restored && Pending(h.journal, k)
      then h'.(files := Restore(h.files, h.journal[k].compensation.value, BackupOf(h.backups, k)))
      else h'
  }

  ghost function Next(job: Job, h: Host, m: Move): Host {
    if Legal(job, h, m) then Apply(job, h, m) else h
  }

  function Start(job: Job): Host {
    Host(job.orig, map[], None, map[], Idle, multiset{}, multiset{})
  }

  ghost function Reached(job: Job, ms: seq<Move>): Host {
    if ms == [] then Start(job) else Next(job, Reached(job, ms[..|ms| - 1]), ms[|ms| - 1])
  }

  // ---- the invariant -----------------------------------------------------------------------------

  /** Phases past the restore boundary, and the unknown outcome. */
  predicate Restoring(p: StepPhase) {
    p == CompensationStarted || p == Compensated || p == StepUnknown
  }

  /** Phases of a step with steps after it. */
  predicate LeftBehind(p: StepPhase) {
    p == StepSucceeded || Restoring(p)
  }

  predicate EntriesOk(journal: Journal, n: nat) {
    forall k :: k in journal ==> 0 <= k < n && EntryOk(journal[k])
  }

  /** A step has an entry only after every earlier one succeeded. */
  predicate Ordered(journal: Journal) {
    forall j, k :: 0 <= j < k && k in journal ==> LeftBehind(Step(journal, j).phase)
  }

  /** Effects and restores: at most one each, only past their boundary in the journal, and none settled undone. */
  ghost predicate Counted(journal: Journal, effects: multiset<int>, restores: multiset<int>) {
    && (forall k :: effects[k] <= 1 && restores[k] <= 1)
    && (forall k :: Step(journal, k).phase == StepSucceeded ==> effects[k] == 1)
    && (forall k :: Step(journal, k).phase == Compensated ==> restores[k] == 1)
    && (forall k :: effects[k] > 0 ==> Step(journal, k).phase !in {NoPhase, IntentRecorded})
    && (forall k :: restores[k] > 0 ==> Restoring(Step(journal, k).phase))
  }

  /** A process about to do a deed has not done it, and the boundary before it is the step's last entry. */
  predicate MemoryOk(h: Host) {
    match h.memory
    case Idle => true
    case Armed(EffectOf(k)) => Step(h.journal, k).phase == EffectStarted && h.effects[k] == 0
    case Armed(RestoreOf(k)) => Step(h.journal, k).phase == CompensationStarted && h.restores[k] == 0
    case Acted(EffectOf(k)) => Step(h.journal, k).phase == EffectStarted && h.effects[k] == 1
    case Acted(RestoreOf(k)) => Step(h.journal, k).phase == CompensationStarted && h.restores[k] == 1
  }

  /** Only the highest step with something to put back is being put back. */
  ghost predicate RestoresInOrder(journal: Journal) {
    forall k :: Step(journal, k).phase == CompensationStarted ==> NothingFrom(journal, k + 1)
  }

  /** No restore has begun and nothing is unknown. */
  predicate GoingForward(journal: Journal) {
    forall k :: k in journal ==> !Restoring(journal[k].phase)
  }

  /** While going forward, every target of a replacement that succeeded holds the artifact. */
  predicate Applied(steps: seq<HostStep>, journal: Journal, files: Files, payload: Bytes) {
    GoingForward(journal) ==>
      forall k :: 0 <= k < |steps| && k in journal && journal[k].phase == StepSucceeded ==> Holds(steps[k], files, payload)
  }

  /** A refused command never gets past its failure receipt. */
  predicate Barren(h: Host) {
    && (forall k :: k in h.journal ==> h.journal[k].compensation.None? && h.journal[k].phase in {IntentRecorded, StepFailed})
    && h.effects == h.restores == multiset{} && h.memory == Idle
  }

  ghost predicate Inv(job: Job, h: Host) {
    && EntriesOk(h.journal, |job.steps|)
    && WayBack(job.orig, h.files, h.journal, h.backups, |job.steps|)
    && Counted(h.journal, h.effects, h.restores)
    && RestoresInOrder(h.journal)
    && MemoryOk(h)
    && (if AllAllowed(job.steps) then Ordered(h.journal) && Applied(job.steps, h.journal, h.files, job.payload) else Barren(h))
    && (h.staged.Some? ==> h.staged.value == job.payload)
  }

  /** A step that is still before its effect boundary, or failed, is the last one with an entry. */
  lemma NothingAbove(journal: Journal, k: int)
    requires Ordered(journal) && 0 <= k && !LeftBehind(Step(journal, k).phase)
    ensures forall l :: l > k ==> l !in journal
    ensures NothingFrom(journal, k + 1)
    ensures forall l :: l > k ==> Step(journal, l).compensation.None?
  {
    assert forall l :: l > k ==> l !in journal;
    assert forall l :: l > k ==> Step(journal, l) == NO_ENTRY;
  }

  lemma NoteKeepsOrder(journal: Journal, k: int, e: Entry)
    requires Ordered(journal) && 0 <= k && ValidTransition(Step(journal, k).phase, e.phase)
    requires e.phase == IntentRecorded ==> AllSucceededBelow(journal, k)
    ensures Ordered(journal[k := e])
  {
    var journal' := journal[k := e];
    forall j, l | 0 <= j < l && l in journal'
      ensures LeftBehind(Step(journal', j).phase)
    {
      if l == k {
        assert LeftBehind(Step(journal, j).phase);
      } else if j != k {
        assert l in journal && LeftBehind(Step(journal, j).phase);
      } else {
        assert l in journal && LeftBehind(Step(journal, k).phase);
      }
    }
  }

  lemma NoteKeepsCount(journal: Journal, effects: multiset<int>, restores: multiset<int>, k: int, e: Entry)
    requires Counted(journal, effects, restores) && ValidTransition(Step(journal, k).phase, e.phase)
    requires e.phase == StepSucceeded ==> effects[k] == 1
    requires e.phase == Compensated ==> restores[k] == 1
    ensures Counted(journal[k := e], effects, restores)
  {
    var journal' := journal[k := e];
    assert forall l :: l != k ==> Step(journal', l) == Step(journal, l);
  }

  lemma NoteKeepsApplied(job: Job, h: Host, k: int, e: Entry)
    requires Applied(job.steps, h.journal, h.files, job.payload) && Legal(job, h, Note(k, e))
    ensures Applied(job.steps, h.journal[k := e], h.files, job.payload)
  {
    var journal' := h.journal[k := e];
    if GoingForward(journal') {
      forall l | l in h.journal
        ensures !Restoring(h.journal[l].phase)
      {
        assert l in journal' && !Restoring(journal'[l].phase);
      }
    }
  }

  lemma NoteKeepsWayBack(job: Job, h: Host, k: int, e: Entry)
    requires Inv(job, h) && Legal(job, h, Note(k, e))
    ensures WayBack(job.orig, h.files, h.journal[k := e], h.backups, |job.steps|)
  {
    var n := |job.steps|;
    if e.phase == EffectStarted && e.compensation.Some? {
      NothingAbove(h.journal, k);
      assert !Pending(h.journal, k) && Step(h.journal, k).compensation.None?;
      WayBackEffect(job.orig, h.files, h.journal, h.backups, n, k, job.steps[k].target.value.path, e);
    } else if e.phase == Compensated {
      WayBackRestored(job.orig, h.files, h.journal, h.backups, n, k, e);
    } else {
      WayBackRewrite(job.orig, h.files, h.journal, h.backups, n, k, e);
    }
  }

  lemma NoteKeepsRestoreOrder(job: Job, h: Host, k: int, e: Entry)
    requires Inv(job, h) && Legal(job, h, Note(k, e))
    ensures RestoresInOrder(h.journal[k := e])
  {
    var journal' := h.journal[k := e];
    forall r, l | Step(journal', r).phase == CompensationStarted && l >= r + 1
      ensures !Pending(journal', l)
    {
      if r != k {
        assert Step(h.journal, r).phase == CompensationStarted && !Pending(h.journal, l);
        assert r in h.journal && Pending(h.journal, r);
      } else {
        assert !Pending(h.journal, l);
      }
    }
  }

  lemma NoteKeepsMemory(h: Host, k: int, e: Entry)
    requires Counted(h.journal, h.effects, h.restores) && ValidTransition(Step(h.journal, k).phase, e.phase)
    ensures MemoryOk(h.(journal := h.journal[k := e], memory := AfterNote(k, e.phase)))
  {
    assert h.effects[k] <= 1 && h.restores[k] <= 1;
  }

  /** What is settled was done: it takes an effect to succeed, and a restore to be compensated. */
  lemma SettledWasDone(job: Job, h: Host, k: int, e: Entry)
    requires MemoryOk(h) && Legal(job, h, Note(k, e))
    ensures e.phase == StepSucceeded ==> h.effects[k] == 1
    ensures e.phase == Compensated ==> h.restores[k] == 1
  {
  }

  lemma NoteKeepsInv(job: Job, h: Host, k: int, e: Entry)
    requires Inv(job, h) && Legal(job, h, Note(k, e))
    ensures Inv(job, Apply(job, h, Note(k, e)))
  {
    NoteKeepsWayBack(job, h, k, e);
    SettledWasDone(job, h, k, e);
    NoteKeepsCount(h.journal, h.effects, h.restores, k, e);
    NoteKeepsMemory(h, k, e);
    NoteKeepsRestoreOrder(job, h, k, e);
    if AllAllowed(job.steps) {
      NoteKeepsOrder(h.journal, k, e);
      NoteKeepsApplied(job, h, k, e);
    }
  }

  lemma DeedCounts(journal: Journal, effects: multiset<int>, restores: multiset<int>, k: int)
    requires Counted(journal, effects, restores)
    ensures Step(journal, k).phase == EffectStarted && effects[k] == 0 ==> Counted(journal, effects + multiset{k}, restores)
    ensures Step(journal, k).phase == CompensationStarted && restores[k] == 0 ==>
              Counted(journal, effects, restores + multiset{k})
  {
  }

  lemma BarrenCounts(h: Host)
    requires Barren(h)
    ensures Counted(h.journal, h.effects, h.restores) && RestoresInOrder(h.journal) && MemoryOk(h)
  {
    assert forall k :: Step(h.journal, k).phase in {NoPhase, IntentRecorded, StepFailed};
  }

  lemma RefuseStaysBarren(job: Job, h: Host, k: int)
    requires Barren(h)
    ensures Barren(Apply(job, h, Refuse(k)))
  {
  }

  lemma RefuseKeepsWayBack(orig: Files, h: Host, n: nat, k: int)
    requires Barren(h) && WayBack(orig, h.files, h.journal, h.backups, n)
    ensures WayBack(orig, h.files, h.journal[k := INTENT], h.backups, n)
  {
    WayBackRewrite(orig, h.files, h.journal, h.backups, n, k, INTENT);
  }

  lemma RefuseKeepsInv(job: Job, h: Host, k: int)
    requires Inv(job, h) && Legal(job, h, Refuse(k))
    ensures Inv(job, Apply(job, h, Refuse(k)))
  {
    RefuseKeepsWayBack(job.orig, h, |job.steps|, k);
    RefuseStaysBarren(job, h, k);
    BarrenCounts(Apply(job, h, Refuse(k)));
  }

  lemma ReplacingKeepsApplied(steps: seq<HostStep>, journal: Journal, files: Files, payload: Bytes, target: Path, mode: nat)
    requires Applied(steps, journal, files, payload)
    ensures Applied(steps, journal, files[target := File(payload, mode)], payload)
  {
  }

  lemma ReplacingKeepsWayBack(job: Job, h: Host, k: nat, f: File)
    requires k < |job.steps| && WayBack(job.orig, h.files, h.journal, h.backups, |job.steps|)
    requires Pending(h.journal, k) && NothingFrom(h.journal, k + 1)
    ensures WayBack(job.orig, h.files[h.journal[k].compensation.value.target := f], h.journal, h.backups, |job.steps|)
  {
    var c := h.journal[k].compensation.value;
    var after := h.files[c.target := f];
    assert Restore(after, c, BackupOf(h.backups, k)) == Restore(h.files, c, BackupOf(h.backups, k));
    WayBackReplace(job.orig, h.files, h.journal, h.backups, |job.steps|, k, after);
  }

  lemma EffectKeepsInv(job: Job, h: Host, k: int, replaced: bool)
    requires Inv(job, h) && Legal(job, h, Effect(k, replaced))
    ensures Inv(job, Apply(job, h, Effect(k, replaced)))
  {
    DeedCounts(h.journal, h.effects, h.restores, k);
    if replaced {
      var c := h.journal[k].compensation.value;
      NothingAbove(h.journal, k);
      ReplacingKeepsWayBack(job, h, k, File(job.payload, FileMode(c.mode)));
      ReplacingKeepsApplied(job.steps, h.journal, h.files, job.payload, c.target, FileMode(c.mode));
    }
  }

  lemma RestoringKeepsWayBack(job: Job, h: Host, k: nat)
    requires k < |job.steps| && WayBack(job.orig, h.files, h.journal, h.backups, |job.steps|)
    requires Pending(h.journal, k) && NothingFrom(h.journal, k + 1)
    ensures var after := Restore(h.files, h.journal[k].compensation.value, BackupOf(h.backups, k));
            WayBack(job.orig, after, h.journal, h.backups, |job.steps|)
  {
    var c, b := h.journal[k].compensation.value, BackupOf(h.backups, k);
    RestoreTwice(h.files, c, b);
    WayBackReplace(job.orig, h.files, h.journal, h.backups, |job.steps|, k, Restore(h.files, c, b));
  }

  lemma NotGoingForward(steps: seq<HostStep>, journal: Journal, files: Files, payload: Bytes, k: int)
    requires Step(journal, k).phase == CompensationStarted
    ensures Applied(steps, journal, files, payload)
  {
    assert k in journal;
  }

  lemma PutBackKeepsInv(job: Job, h: Host, k: int, restored: bool)
    requires Inv(job, h) && Legal(job, h, PutBack(k, restored))
    ensures Inv(job, Apply(job, h, PutBack(k, restored)))
  {
    DeedCounts(h.journal, h.effects, h.restores, k);
    assert k in h.journal && Pending(h.journal, k) && NothingFrom(h.journal, k + 1);
    RestoringKeepsWayBack(job, h, k);
    NotGoingForward(job.steps, h.journal, Apply(job, h, PutBack(k, restored)).files, job.payload, k);
  }

  lemma NextKeepsInv(job: Job, h: Host, m: Move)
    requires Inv(job, h)
    ensures Inv(job, Next(job, h, m))
  {
    if Legal(job, h, m) {
      match m
      case Restart =>
      case Note(k, e) => NoteKeepsInv(job, h, k, e);
      case Refuse(k) => RefuseKeepsInv(job, h, k);
      case KeepBackup(k, b) => WayBackBackup(job.orig, h.files, h.journal, h.backups, |job.steps|, k, b);
      case Stage =>
      case Effect(k, replaced) => EffectKeepsInv(job, h, k, replaced);
      case PutBack(k, restored) => PutBackKeepsInv(job, h, k, restored);
    }
  }

  lemma {:induction false} ReachedInv(job: Job, ms: seq<Move>)
    ensures Inv(job, Reached(job, ms))
    decreases |ms|
  {
    if ms == [] {
      WayBackAtStart(job.orig, |job.steps|);
    } else {
      ReachedInv(job, ms[..|ms| - 1]);
      NextKeepsInv(job, Reached(job, ms[..|ms| - 1]), ms[|ms| - 1]);
    }
  }

  // ---- what every run guarantees -------------------------------------------------------------------

  /**
   * Over any number of process lives, no step's effect and no step's restore is executed twice, and none is
   * recorded as succeeded or compensated without having been executed.
   */
  lemma AtMostOnce(job: Job, ms: seq<Move>, k: int)
    ensures var h := Reached(job, ms);
            && h.effects[k] <= 1 && h.restores[k] <= 1
            && (Step(h.journal, k).phase == StepSucceeded ==> h.effects[k] == 1)
            && (Step(h.journal, k).phase == Compensated ==> h.restores[k] == 1)
  {
    ReachedInv(job, ms);
  }

  /** Each step moves through the journal along the server's transition relation. */
  ghost predicate IsPath(job: Job, ms: seq<Move>) {
    forall t, k :: 0 <= t < |ms| ==> PhasesFollow(job, ms, t, k)
  }

  ghost predicate PhasesFollow(job: Job, ms: seq<Move>, t: nat, k: int)
    requires t < |ms|
  {
    Moves(Step(Reached(job, ms[..t]).journal, k).phase, Step(Reached(job, ms[..t + 1]).journal, k).phase)
  }

  lemma JournalIsPath(job: Job, ms: seq<Move>)
    requires AllAllowed(job.steps)
    ensures IsPath(job, ms)
  {
    forall t, k | 0 <= t < |ms|
      ensures PhasesFollow(job, ms, t, k)
    {
      assert ms[..t + 1][..t] == ms[..t];
    }
  }

  const REFUSAL := INTENT.(phase := StepFailed, errorSize := 24)

  /** Two executions of a refused command: the second writes an intent over the failure of the first. */
  lemma RefusedRestarts(job: Job, k: int)
    requires !AllAllowed(job.steps) && 0 <= k < |job.steps|
    ensures var ms := [Refuse(k), Note(k, REFUSAL), Restart, Refuse(k)];
            && Step(Reached(job, ms[..3]).journal, k).phase == StepFailed
            && Step(Reached(job, ms).journal, k).phase == IntentRecorded
            && !IsPath(job, ms)
  {
    var ms := [Refuse(k), Note(k, REFUSAL), Restart, Refuse(k)];
    assert ms[..0] == [] && ms[..1] == [Refuse(k)] && ms[..4] == ms;
    assert ms[..1][..0] == [] && ms[..2][..1] == ms[..1] && ms[..3][..2] == ms[..2] && ms[..4][..3] == ms[..3];
    assert Reached(job, ms[..0]) == Start(job);
    var h1 := Reached(job, ms[..1]);
    assert h1 == Next(job, Start(job), Refuse(k)) && Step(h1.journal, k) == INTENT;
    assert Legal(job, h1, Note(k, REFUSAL));
    var h2 := Reached(job, ms[..2]);
    assert Step(h2.journal, k).phase == StepFailed;
    assert Reached(job, ms[..3]).journal == h2.journal;
    assert !PhasesFollow(job, ms, 3, k);
  }

  /** Every run of a command is a path exactly when all its primitives are allowed. */
  lemma PathExactly(job: Job)
    ensures AllAllowed(job.steps) <==> forall ms: seq<Move> :: IsPath(job, ms)
  {
    if AllAllowed(job.steps) {
      forall ms: seq<Move>
        ensures IsPath(job, ms)
      {
        JournalIsPath(job, ms);
      }
    } else {
      var k :| 0 <= k < |job.steps| && job.steps[k] == Refused;
      RefusedRestarts(job, k);
    }
  }

  /**
   * Whatever happened, in however many lives: putting back what the journal still lists, the highest step
   * first, gives the files as they were before the command, up to the modes of touched files.
   */
  lemma AlwaysAWayBack(job: Job, ms: seq<Move>)
    ensures var h := Reached(job, ms);
            Undone(h.files, h.journal, h.backups, |job.steps|) == Rolled(job.orig, Touched(h.journal, |job.steps|))
  {
    ReachedInv(job, ms);
  }

  /** With nothing left to put back, the files are as they were. */
  lemma RollbackIsInverse(job: Job, ms: seq<Move>)
    requires NothingFrom(Reached(job, ms).journal, 0)
    ensures Reached(job, ms).files == Rolled(job.orig, Touched(Reached(job, ms).journal, |job.steps|))
  {
    ReachedInv(job, ms);
    var h := Reached(job, ms);
    WayBackDone(job.orig, h.files, h.journal, h.backups, |job.steps|);
  }

  // ---- the modes of files ------------------------------------------------------------------------

  /** The mode a touched file has from then on: its permission bits, or the mode of new files. */
  function TouchedMode(orig: Files, p: Path): nat {
    if p !in orig || orig[p].mode % PERM == 0 then NEW_FILE_MODE else orig[p].mode % PERM
  }

  predicate RecordsMode(orig: Files, e: Entry) {
    e.compensation.Some? ==>
      && FileMode(e.compensation.value.mode) == TouchedMode(orig, e.compensation.value.target)
      && (e.compensation.value.target in orig ==> e.compensation.value.existed)
  }

  predicate ModesOk(orig: Files, files: Files, journal: Journal) {
    && (forall p :: p in orig ==> p in files)
    && (forall p :: p in files ==> files[p].mode == TouchedMode(orig, p) || (p in orig && files[p] == orig[p]))
    && (forall k :: k in journal ==> RecordsMode(orig, journal[k]))
  }

  lemma CaptureRecordsMode(orig: Files, files: Files, journal: Journal, p: Path)
    requires ModesOk(orig, files, journal)
    ensures FileMode(Capture(files, p).mode) == TouchedMode(orig, p)
  {
  }

  lemma NextKeepsModes(job: Job, h: Host, m: Move)
    requires ModesOk(job.orig, h.files, h.journal)
    ensures ModesOk(job.orig, Next(job, h, m).files, Next(job, h, m).journal)
  {
    if Legal(job, h, m) && m.Note? {
      if m.e.phase == EffectStarted {
        if job.steps[m.k].ReplaceFile? {
          CaptureRecordsMode(job.orig, h.files, h.journal, job.steps[m.k].target.value.path);
        }
      } else {
        assert m.k in h.journal ==> RecordsMode(job.orig, h.journal[m.k]);
      }
      assert RecordsMode(job.orig, m.e);
    }
  }

  /**
   * In every run the files of before the command are all there, and every file is either as it was before, or has the
   * permission bits it had before; a file that is new or had none is its owner's to read and write.
   */
  lemma {:induction false} ModesAreKept(job: Job, ms: seq<Move>)
    ensures ModesOk(job.orig, Reached(job, ms).files, Reached(job, ms).journal)
  {
    if ms != [] {
      ModesAreKept(job, ms[..|ms| - 1]);
      NextKeepsModes(job, Reached(job, ms[..|ms| - 1]), ms[|ms| - 1]);
    }
  }

  /** When every step succeeded, every target holds the artifact. */
  lemma SuccessApplies(job: Job, ms: seq<Move>)
    requires AllAllowed(job.steps) && AllSucceededBelow(Reached(job, ms).journal, |job.steps|)
    ensures forall k :: 0 <= k < |job.steps| ==> Holds(job.steps[k], Reached(job, ms).files, job.payload)
  {
    ReachedInv(job, ms);
    var h := Reached(job, ms);
    forall k | k in h.journal
      ensures h.journal[k].phase == StepSucceeded
    {
      assert Step(h.journal, k).phase == StepSucceeded;
    }
    forall k | 0 <= k < |job.steps|
      ensures Holds(job.steps[k], h.files, job.payload)
    {
      assert Step(h.journal, k).phase == StepSucceeded;
    }
  }
}
