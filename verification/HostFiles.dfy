/**
 * Files a host command may replace, the journal entries that remember how to put them back
 * (cmd/yufeng-host/executor.go, cmd/yufeng-host/journal.go), and what undoing a journal gives.
 */
module HostFiles {
  import opened Text
  import opened CommandRows

  type Path = string
  type Bytes = seq<int>

  /** `mode` holds the permission bits in its low nine bits and whatever else the file carries above them. */
  datatype File = File(content: Bytes, mode: nat)

  type Files = map<Path, File>

  /** fileCompensation; the backup of step k is backups[k]. */
  datatype Compensation = Compensation(target: Path, existed: bool, mode: nat)

  /** journalStep, as far as it steers the executor; texts by size. */
  datatype Entry = Entry(phase: StepPhase, compensation: Option<Compensation>, outputSize: nat, errorSize: nat)

  type Journal = map<int, Entry>

  type Backups = map<int, Bytes>

  const NEW_FILE_MODE := 0x180 // 0o600
  const PERM := 0x200 // one past 0o777
  const ARTIFACT_LIMIT := 8388608
  const NO_ENTRY := Entry(NoPhase, None, 4, 0)

  /** journalState.Step */
  function Step(journal: Journal, k: int): Entry {
    if k in journal then journal[k] else NO_ENTRY
  }

  /** fileMode of a compensation that recorded `mode`. */
  function FileMode(mode: nat): nat {
    if mode % PERM == 0 then NEW_FILE_MODE else mode % PERM
  }

  /** What prepareFileCompensation records about a target. */
  function Capture(files: Files, target: Path): Compensation {
    if target in files then Compensation(target, true, files[target].mode % PERM)
    else Compensation(target, false, NEW_FILE_MODE)
  }

  /** restoreFile, when it works. */
  function Restore(files: Files, c: Compensation, backup: Bytes): Files {
    if c.existed then files[c.target := File(backup, FileMode(c.mode))] else files - {c.target}
  }

  /** There is something recorded to put back for step k. */
  predicate Pending(journal: Journal, k: int) {
    Step(journal, k).compensation.Some? && Step(journal, k).phase != Compensated
  }

  function BackupOf(backups: Backups, k: int): Bytes {
    if k in backups then backups[k] else []
  }

  /** The files after putting back every pending step below k, the highest first. */
  function Undone(files: Files, journal: Journal, backups: Backups, k: nat): Files
    decreases k
  {
    if k == 0 then files
    else if Pending(journal, k - 1)
    then Undone(Restore(files, journal[k - 1].compensation.value, BackupOf(backups, k - 1)), journal, backups, k - 1)
    else Undone(files, journal, backups, k - 1)
  }

  /** Targets of steps below k that ever got to their effect. */
  function Touched(journal: Journal, k: nat): set<Path> {
    if k == 0 then {}
    else Touched(journal, k - 1) +
         match Step(journal, k - 1).compensation
         case None => {}
         case Some(c) => {c.target}
  }

  /** Only the mode of a touched file can come back different: reduced to permission bits, and never zero. */
  function Rolled(files: Files, touched: set<Path>): Files {
    map p | p in files :: if p in touched then File(files[p].content, FileMode(files[p].mode)) else files[p]
  }

  function NormalAt(files: Files, p: Path): Files {
    Rolled(files, {p})
  }

  /** Rolling back is exact if and only if every touched file had a non-zero mode of permission bits alone. */
  lemma RolledIsExact(files: Files, touched: set<Path>)
    ensures Rolled(files, touched) == files <==>
            forall p :: p in touched && p in files ==> 0 < files[p].mode < PERM
  {
    if Rolled(files, touched) == files {
      forall p | p in touched && p in files
        ensures 0 < files[p].mode < PERM
      {
        assert files[p] == Rolled(files, touched)[p];
      }
    }
  }

  /** A file of mode zero comes back readable by its owner. */
  lemma ZeroModeIsNotRestored()
    ensures var files: Files := map["/etc/app.conf" := File([1, 2, 3], 0)];
            var c := Capture(files, "/etc/app.conf");
            var replaced := files["/etc/app.conf" := File([9], FileMode(c.mode))];
            && Restore(replaced, c, [1, 2, 3]) != files
            && Restore(replaced, c, [1, 2, 3])["/etc/app.conf"].mode == NEW_FILE_MODE
  {
    var files: Files := map["/etc/app.conf" := File([1, 2, 3], 0)];
    var c := Capture(files, "/etc/app.conf");
    var replaced := files["/etc/app.conf" := File([9], FileMode(c.mode))];
    assert Restore(replaced, c, [1, 2, 3])["/etc/app.conf"].mode != files["/etc/app.conf"].mode;
  }

  // ---- how undoing composes ----------------------------------------------------------------------

  /** Putting a captured target back normalises its mode and changes nothing else, whether or not it was replaced. */
  lemma RestoreCaptured(files: Files, target: Path, after: Files, backup: Bytes)
    requires after - {target} == files - {target}
    requires target in files ==> backup == files[target].content
    ensures Restore(after, Capture(files, target), backup) == NormalAt(files, target)
  {
    var rest, rest' := files - {target}, after - {target};
    forall p | p != target
      ensures (p in after <==> p in files) && (p in files ==> after[p] == files[p])
    {
      assert p in rest <==> p in rest';
      assert p in rest ==> rest[p] == rest'[p];
    }
  }

  /** Putting back twice is putting back once. */
  lemma RestoreTwice(files: Files, c: Compensation, backup: Bytes)
    ensures Restore(Restore(files, c, backup), c, backup) == Restore(files, c, backup)
  {
  }

  lemma NormalCommutes(files: Files, c: Compensation, backup: Bytes, p: Path)
    ensures Restore(NormalAt(files, p), c, backup) == NormalAt(Restore(files, c, backup), p)
  {
    assert FileMode(FileMode(c.mode)) == FileMode(c.mode);
  }

  /** A normalised mode stays normalised through any undoing. */
  lemma {:induction false} UndoneNormal(files: Files, journal: Journal, backups: Backups, k: nat, p: Path)
    ensures Undone(NormalAt(files, p), journal, backups, k) == NormalAt(Undone(files, journal, backups, k), p)
    decreases k
  {
    if k > 0 {
      if Pending(journal, k - 1) {
        var c, b := journal[k - 1].compensation.value, BackupOf(backups, k - 1);
        NormalCommutes(files, c, b, p);
        UndoneNormal(Restore(files, c, b), journal, backups, k - 1, p);
      } else {
        UndoneNormal(files, journal, backups, k - 1, p);
      }
    }
  }

  /** Steps at and above k have nothing pending. */
  ghost predicate NothingFrom(journal: Journal, k: int) {
    forall l :: l >= k ==> !Pending(journal, l)
  }

  lemma NothingFromKept(journal: Journal, k: nat, e: Entry)
    requires NothingFrom(journal, k + 1)
    ensures NothingFrom(journal[k := e], k + 1)
  {
    var journal' := journal[k := e];
    forall l | l >= k + 1
      ensures !Pending(journal', l)
    {
      assert !Pending(journal, l);
    }
  }

  lemma {:induction false} UndoneSkips(files: Files, journal: Journal, backups: Backups, k: nat, n: nat)
    requires k <= n && NothingFrom(journal, k)
    ensures Undone(files, journal, backups, n) == Undone(files, journal, backups, k)
    decreases n
  {
    if k < n {
      UndoneSkips(files, journal, backups, k, n - 1);
    }
  }

  /** Undoing below k looks only at entries and backups below k that are pending. */
  lemma {:induction false} UndoneFrame(
    files: Files, journal: Journal, backups: Backups, journal': Journal, backups': Backups, k: nat)
    requires forall l :: 0 <= l < k ==> Step(journal', l).compensation == Step(journal, l).compensation
    requires forall l :: 0 <= l < k ==> (Pending(journal', l) <==> Pending(journal, l))
    requires forall l :: 0 <= l < k && Pending(journal, l) ==> BackupOf(backups', l) == BackupOf(backups, l)
    ensures Undone(files, journal', backups', k) == Undone(files, journal, backups, k)
    decreases k
  {
    if k > 0 {
      if Pending(journal, k - 1) {
        var c, b := journal[k - 1].compensation.value, BackupOf(backups, k - 1);
        UndoneFrame(Restore(files, c, b), journal, backups, journal', backups', k - 1);
      } else {
        UndoneFrame(files, journal, backups, journal', backups', k - 1);
      }
    }
  }

  lemma {:induction false} TouchedFrame(journal: Journal, journal': Journal, k: nat)
    requires forall l :: 0 <= l < k ==> Step(journal', l).compensation == Step(journal, l).compensation
    ensures Touched(journal', k) == Touched(journal, k)
    decreases k
  {
    if k > 0 {
      TouchedFrame(journal, journal', k - 1);
    }
  }

  lemma {:induction false} TouchedSkips(journal: Journal, k: nat, n: nat)
    requires k <= n && forall l :: k <= l < n ==> Step(journal, l).compensation.None?
    ensures Touched(journal, n) == Touched(journal, k)
    decreases n
  {
    if k < n {
      TouchedSkips(journal, k, n - 1);
    }
  }

  lemma RolledMore(files: Files, touched: set<Path>, p: Path)
    ensures NormalAt(Rolled(files, touched), p) == Rolled(files, touched + {p})
  {
  }

  // ---- the invariant: the journal always knows the way back ------------------------------------------

  /** Whatever happened so far, putting back what is pending gives the files as they were before the command. */
  predicate WayBack(orig: Files, files: Files, journal: Journal, backups: Backups, n: nat) {
    Undone(files, journal, backups, n) == Rolled(orig, Touched(journal, n))
  }

  lemma WayBackAtStart(orig: Files, n: nat)
    ensures WayBack(orig, orig, map[], map[], n)
  {
    UndoneSkips(orig, map[], map[], 0, n);
    TouchedSkips(map[], 0, n);
    assert Rolled(orig, {}) == orig;
  }

  /** An entry whose compensation and pendency stay as they were. */
  lemma WayBackRewrite(orig: Files, files: Files, journal: Journal, backups: Backups, n: nat, k: int, e: Entry)
    requires WayBack(orig, files, journal, backups, n)
    requires e.compensation == Step(journal, k).compensation
    requires Pending(journal, k) <==> (e.compensation.Some? && e.phase != Compensated)
    ensures WayBack(orig, files, journal[k := e], backups, n)
  {
    UndoneFrame(files, journal, backups, journal[k := e], backups, n);
    TouchedFrame(journal, journal[k := e], n);
  }

  /** A backup written for a step that is not pending. */
  lemma WayBackBackup(orig: Files, files: Files, journal: Journal, backups: Backups, n: nat, k: int, b: Bytes)
    requires WayBack(orig, files, journal, backups, n) && !Pending(journal, k)
    ensures WayBack(orig, files, journal, backups[k := b], n)
  {
    UndoneFrame(files, journal, backups, journal, backups[k := b], n);
  }

  /** Crossing the effect boundary of step k, with or without the replacement itself. */
  lemma WayBackEffect(orig: Files, files: Files, journal: Journal, backups: Backups, n: nat, k: nat, target: Path, e: Entry)
    requires WayBack(orig, files, journal, backups, n) && k < n
    requires NothingFrom(journal, k) && (forall l :: k <= l < n ==> Step(journal, l).compensation.None?)
    requires e.compensation == Some(Capture(files, target)) && e.phase != Compensated
    requires target in files ==> BackupOf(backups, k) == files[target].content
    ensures WayBack(orig, files, journal[k := e], backups, n)
  {
    var journal', c := journal[k := e], Capture(files, target);
    RestoreCaptured(files, target, files, BackupOf(backups, k));
    UndoneSkips(files, journal, backups, k, n);
    NothingFromKept(journal, k, e);
    UndoneSkips(files, journal', backups, k + 1, n);
    UndoneFrame(NormalAt(files, target), journal, backups, journal', backups, k);
    UndoneNormal(files, journal, backups, k, target);
    TouchedSkips(journal, k, n);
    assert forall l :: k < l < n ==> Step(journal', l) == Step(journal, l);
    TouchedSkips(journal', k + 1, n);
    TouchedFrame(journal, journal', k);
    RolledMore(orig, Touched(journal, k), target);
  }

  /** While step k is the highest pending one, its file may be anything. */
  lemma WayBackReplace(orig: Files, files: Files, journal: Journal, backups: Backups, n: nat, k: nat, after: Files)
    requires WayBack(orig, files, journal, backups, n) && k < n
    requires NothingFrom(journal, k + 1) && Pending(journal, k)
    requires var c := journal[k].compensation.value;
             Restore(after, c, BackupOf(backups, k)) == Restore(files, c, BackupOf(backups, k))
    ensures WayBack(orig, after, journal, backups, n)
  {
    UndoneSkips(files, journal, backups, k + 1, n);
    UndoneSkips(after, journal, backups, k + 1, n);
  }

  /** Step k, the highest pending one, has been put back. */
  lemma WayBackRestored(orig: Files, files: Files, journal: Journal, backups: Backups, n: nat, k: nat, e: Entry)
    requires WayBack(orig, files, journal, backups, n) && k < n
    requires NothingFrom(journal, k + 1) && Pending(journal, k)
    requires files == Restore(files, journal[k].compensation.value, BackupOf(backups, k))
    requires e.compensation == journal[k].compensation && e.phase == Compensated
    ensures WayBack(orig, files, journal[k := e], backups, n)
  {
    var journal' := journal[k := e];
    UndoneSkips(files, journal, backups, k + 1, n);
    NothingFromKept(journal, k, e);
    UndoneSkips(files, journal', backups, k + 1, n);
    UndoneFrame(files, journal, backups, journal', backups, k);
    TouchedFrame(journal, journal', n);
  }

  /** With nothing left pending, the way back has been walked. */
  lemma WayBackDone(orig: Files, files: Files, journal: Journal, backups: Backups, n: nat)
    requires WayBack(orig, files, journal, backups, n) && NothingFrom(journal, 0)
    ensures files == Rolled(orig, Touched(journal, n))
  {
    UndoneSkips(files, journal, backups, 0, n);
  }
}
