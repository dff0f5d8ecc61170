/**
 How `persist` moves a registry image onto disk (crates/resonance-agent/src/identity.rs), one file
 operation at a time, and what a process that stops in between leaves for the next load.
 */
module RegistryStorage {
  import opened Base
  import opened Identity
  import opened RegistryReload
  import opened RegistryText
  import opened Texts

  datatype Disk = Disk(current: Option<Text>, backup: Option<Text>, candidate: Option<Text>)

  /** The next thing `persist` will do; a file grows by any number of bytes at a time. */
  datatype Phase =
    | CreateCandidate
    | WriteCandidate(written: nat)
    | RemoveBackup
    | CreateBackup
    | CopyToBackup(copied: nat)
    | RemoveCurrent
    | RenameCandidate
    | Done

  datatype Machine = Machine(disk: Disk, phase: Phase)

  ghost predicate Steps(image: Text, m: Machine, next: Machine) {
    var d := m.disk;
    match m.phase
    case CreateCandidate => next == Machine(d.(candidate := Some([])), WriteCandidate(0))
    case WriteCandidate(n) =>
      if n < |image| then
        && next.phase.WriteCandidate? && n < next.phase.written <= |image|
        && next.disk == d.(candidate := Some(image[..next.phase.written]))
      else next == Machine(d, RemoveBackup)
    case RemoveBackup => next == Machine(d.(backup := None), CreateBackup)
    case CreateBackup => next == Machine(d.(backup := Some([])), CopyToBackup(0))
    case CopyToBackup(n) =>
      if n < |image| then
        && next.phase.CopyToBackup? && n < next.phase.copied <= |image|
        && next.disk == d.(backup := Some(image[..next.phase.copied]))
      else next == Machine(d, RemoveCurrent)
    case RemoveCurrent => next == Machine(d.(current := None), RenameCandidate)
    case RenameCandidate => next == Machine(Disk(d.candidate, d.backup, None), Done)
    case Done => false
  }

  /** A run of `persist` from this disk, up to where the process stops. */
  ghost predicate IsPersistRun(d: Disk, image: Text, run: seq<Machine>) {
    && run != [] && run[0] == Machine(d, CreateCandidate)
    && forall i :: 0 <= i < |run| - 1 ==> Steps(image, run[i], run[i + 1])
  }

  // ----- what the next start finds -----

  datatype Recovered<I> = Blank | Found(image: I)

  /** What a loader makes of a file's content, if it can read it. */
  type Reader<!I> = Text -> Option<I>

  function Readable<I>(read: Reader<I>, file: Option<Text>): Option<I> {
    match file
    case None => None
    case Some(body) => read(body)
  }

  /** The current image if it can be read, else the backup, else a blank namespace. */
  function Recover<I>(read: Reader<I>, d: Disk): Recovered<I> {
    if Readable(read, d.current).Some? then Found(Readable(read, d.current).value)
    else if Readable(read, d.backup).Some? then Found(Readable(read, d.backup).value)
    else Blank
  }

  ghost predicate InPhase(d: Disk, image: Text, m: Machine) {
    match m.phase
    case CreateCandidate => m.disk == d
    case WriteCandidate(n) => n <= |image| && m.disk == d.(candidate := Some(image[..n]))
    case RemoveBackup => m.disk == d.(candidate := Some(image))
    case CreateBackup => m.disk == d.(backup := None, candidate := Some(image))
    case CopyToBackup(n) => n <= |image| && m.disk == d.(backup := Some(image[..n]), candidate := Some(image))
    case RemoveCurrent => m.disk == d.(backup := Some(image), candidate := Some(image))
    case RenameCandidate => m.disk == Disk(None, Some(image), Some(image))
    case Done => m.disk == Disk(Some(image), Some(image), None)
  }

  lemma StepKeepsPhase(d: Disk, image: Text, m: Machine, next: Machine)
    requires InPhase(d, image, m) && Steps(image, m, next)
    ensures InPhase(d, image, next)
  {
    assert image[..|image|] == image;
  }

  lemma {:induction false} RunKeepsPhase(d: Disk, image: Text, run: seq<Machine>, i: nat)
    requires IsPersistRun(d, image, run) && i < |run|
    ensures InPhase(d, image, run[i])
  {
    if i > 0 {
      RunKeepsPhase(d, image, run, i - 1);
      assert Steps(image, run[i - 1], run[i - 1 + 1]);
      StepKeepsPhase(d, image, run[i - 1], run[i]);
    }
  }

  /** Wherever a run stops, the next start finds what was there before or what was being written. */
  ghost predicate IsAtomic<I>(read: Reader<I>, d: Disk, image: Text)
    requires read(image).Some?
  {
    forall run: seq<Machine> :: IsPersistRun(d, image, run) ==>
      || Recover(read, run[|run| - 1].disk) == Recover(read, d)
      || Recover(read, run[|run| - 1].disk) == Found(read(image).value)
  }

  /** The run that stops right after the backup was removed. */
  function UpToRemovedBackup(d: Disk, image: Text): seq<Machine> {
    [Machine(d, CreateCandidate), Machine(d.(candidate := Some([])), WriteCandidate(0))]
    + (if image == [] then [] else [Machine(d.(candidate := Some(image)), WriteCandidate(|image|))])
    + [Machine(d.(candidate := Some(image)), RemoveBackup),
       Machine(d.(backup := None, candidate := Some(image)), CreateBackup)]
  }

  lemma RemovedBackupIsReached(d: Disk, image: Text)
    ensures IsPersistRun(d, image, UpToRemovedBackup(d, image))
  {
    assert image[..|image|] == image;
  }

  /**
   A registry that can be recovered survives `persist` stopping anywhere exactly when it is the
   current file that holds it. Recovered from the backup alone, it is lost as soon as that is removed.
   */
  lemma AtomicIff<I>(read: Reader<I>, d: Disk, image: Text)
    requires Recover(read, d).Found? && read(image).Some?
    ensures IsAtomic(read, d, image) <==> Readable(read, d.current).Some?
  {
    if Readable(read, d.current).Some? {
      forall run: seq<Machine> | IsPersistRun(d, image, run)
        ensures Recover(read, run[|run| - 1].disk) == Recover(read, d)
                || Recover(read, run[|run| - 1].disk) == Found(read(image).value)
      {
        RunKeepsPhase(d, image, run, |run| - 1);
      }
    } else {
      var run := UpToRemovedBackup(d, image);
      RemovedBackupIsReached(d, image);
      assert Recover(read, run[|run| - 1].disk) == Blank;
    }
  }

  /** A run that completes leaves the image in both files: the next `persist` starts from a whole current file. */
  lemma CompletionRestores<I>(read: Reader<I>, d: Disk, image: Text, run: seq<Machine>)
    requires IsPersistRun(d, image, run) && run[|run| - 1].phase.Done? && read(image).Some?
    ensures run[|run| - 1].disk == Disk(Some(image), Some(image), None)
    ensures Readable(read, run[|run| - 1].disk.current) == read(image)
    ensures Recover(read, run[|run| - 1].disk) == Found(read(image).value)
  {
    RunKeepsPhase(d, image, run, |run| - 1);
  }

  // ----- any number of persists -----

  /** One `persist`, and where it stopped: an I/O error leaves the process running, and the next one starts there. */
  datatype Attempt = Attempt(image: Text, stopped: Machine)

  ghost predicate Reaches(d: Disk, image: Text, m: Machine) {
    exists run: seq<Machine> :: IsPersistRun(d, image, run) && run[|run| - 1] == m
  }

  function DiskAfter(d: Disk, attempts: seq<Attempt>): Disk {
    if attempts == [] then d else attempts[|attempts| - 1].stopped.disk
  }

  /** Completed and stopped persists in any order, each on the disk the one before left. */
  ghost predicate IsChain(d: Disk, attempts: seq<Attempt>) {
    attempts == [] ||
    var before, last := attempts[..|attempts| - 1], attempts[|attempts| - 1];
    IsChain(d, before) && Reaches(DiskAfter(d, before), last.image, last.stopped)
  }

  predicate AllReadable<I>(read: Reader<I>, attempts: seq<Attempt>) {
    forall k :: 0 <= k < |attempts| ==> read(attempts[k].image).Some?
  }

  /** The current file is removed, and either renamed over or not. */
  predicate TouchesCurrent(a: Attempt) {
    a.stopped.phase in {RenameCandidate, Done}
  }

  /** The backup of an earlier attempt is gone. */
  predicate TouchesBackup(a: Attempt) {
    !a.stopped.phase.CreateCandidate? && !a.stopped.phase.WriteCandidate? && !a.stopped.phase.RemoveBackup?
  }

  /** Stopped with no backup, or with the beginning of one that cannot be read. */
  predicate SpoilsBackup<I>(read: Reader<I>, a: Attempt) {
    || a.stopped.phase.CreateBackup?
    || (&& a.stopped.phase.CopyToBackup? && a.stopped.phase.copied <= |a.image|
        && read(a.image[..a.stopped.phase.copied]).None?)
  }

  /** Attempt `i` removed the current file without putting its candidate there, and no later one got so far. */
  ghost predicate LosesCurrent(attempts: seq<Attempt>, i: nat) {
    && i < |attempts| && attempts[i].stopped.phase.RenameCandidate?
    && forall k :: i < k < |attempts| ==> !TouchesCurrent(attempts[k])
  }

  /** Attempt `j` left no readable backup, and no later one got so far. */
  ghost predicate LosesBackup<I>(read: Reader<I>, attempts: seq<Attempt>, j: nat) {
    && j < |attempts| && SpoilsBackup(read, attempts[j])
    && forall k :: j < k < |attempts| ==> !TouchesBackup(attempts[k])
  }

  lemma StoppedFiles<I>(read: Reader<I>, d: Disk, a: Attempt)
    requires Reaches(d, a.image, a.stopped) && read(a.image).Some?
    ensures !TouchesCurrent(a) ==> a.stopped.disk.current == d.current
    ensures !TouchesBackup(a) ==> a.stopped.disk.backup == d.backup
    ensures TouchesCurrent(a) ==> (Readable(read, a.stopped.disk.current).None? <==> a.stopped.phase.RenameCandidate?)
    ensures TouchesBackup(a) ==> (Readable(read, a.stopped.disk.backup).None? <==> SpoilsBackup(read, a))
    ensures a.stopped.phase.RenameCandidate? || a.stopped.phase.Done? ==> a.stopped.disk.backup == Some(a.image)
    ensures a.stopped.phase.Done? ==> a.stopped.disk.current == Some(a.image)
  {
    var run: seq<Machine> :| IsPersistRun(d, a.image, run) && run[|run| - 1] == a.stopped;
    RunKeepsPhase(d, a.image, run, |run| - 1);
  }

  lemma LosesCurrentStep(before: seq<Attempt>, last: Attempt, i: nat)
    ensures i < |before| ==> (LosesCurrent(before + [last], i) <==> LosesCurrent(before, i) && !TouchesCurrent(last))
    ensures LosesCurrent(before + [last], |before|) <==> last.stopped.phase.RenameCandidate?
  {
    var all := before + [last];
    assert all[|before|] == last;
    assert forall k :: 0 <= k < |before| ==> all[k] == before[k];
  }

  ghost predicate NoneTouchesCurrent(attempts: seq<Attempt>) {
    forall k :: 0 <= k < |attempts| ==> !TouchesCurrent(attempts[k])
  }

  lemma {:induction false} CurrentLostIff<I>(read: Reader<I>, d: Disk, attempts: seq<Attempt>)
    requires IsChain(d, attempts) && AllReadable(read, attempts)
    ensures Readable(read, DiskAfter(d, attempts).current).None? <==>
            || (exists i :: LosesCurrent(attempts, i))
            || (Readable(read, d.current).None? && NoneTouchesCurrent(attempts))
  {
    if attempts != [] {
      var before, last := attempts[..|attempts| - 1], attempts[|attempts| - 1];
      assert attempts == before + [last];
      CurrentLostIff(read, d, before);
      StoppedFiles(read, DiskAfter(d, before), last);
      LosesCurrentStep(before, last, 0);
      if i :| LosesCurrent(before, i) {
        LosesCurrentStep(before, last, i);
      }
      if i :| LosesCurrent(attempts, i) {
        LosesCurrentStep(before, last, i);
      }
    }
  }

  lemma LosesBackupStep<I>(read: Reader<I>, before: seq<Attempt>, last: Attempt, j: nat)
    ensures j < |before| ==>
              (LosesBackup(read, before + [last], j) <==> LosesBackup(read, before, j) && !TouchesBackup(last))
    ensures LosesBackup(read, before + [last], |before|) <==> SpoilsBackup(read, last)
  {
    var all := before + [last];
    assert all[|before|] == last;
    assert forall k :: 0 <= k < |before| ==> all[k] == before[k];
  }

  ghost predicate NoneTouchesBackup(attempts: seq<Attempt>) {
    forall k :: 0 <= k < |attempts| ==> !TouchesBackup(attempts[k])
  }

  lemma {:induction false} BackupLostIff<I>(read: Reader<I>, d: Disk, attempts: seq<Attempt>)
    requires IsChain(d, attempts) && AllReadable(read, attempts)
    ensures Readable(read, DiskAfter(d, attempts).backup).None? <==>
            || (exists j :: LosesBackup(read, attempts, j))
            || (Readable(read, d.backup).None? && NoneTouchesBackup(attempts))
  {
    if attempts != [] {
      var before, last := attempts[..|attempts| - 1], attempts[|attempts| - 1];
      assert attempts == before + [last];
      BackupLostIff(read, d, before);
      StoppedFiles(read, DiskAfter(d, before), last);
      LosesBackupStep(read, before, last, 0);
      if j :| LosesBackup(read, before, j) {
        LosesBackupStep(read, before, last, j);
      }
      if j :| LosesBackup(read, attempts, j) {
        LosesBackupStep(read, before, last, j);
      }
    }
  }

  ghost predicate LosesBoth<I>(read: Reader<I>, attempts: seq<Attempt>) {
    exists i, j :: i < j && LosesCurrent(attempts, i) && LosesBackup(read, attempts, j)
  }

  /** Nothing readable was there to begin with, or only a backup that an attempt spoiled, and no attempt made it good. */
  ghost predicate NeverHeld<I>(read: Reader<I>, d: Disk, attempts: seq<Attempt>) {
    && Readable(read, d.current).None? && NoneTouchesCurrent(attempts)
    && ((exists j :: LosesBackup(read, attempts, j)) || (Readable(read, d.backup).None? && NoneTouchesBackup(attempts)))
  }

  /**
   Whatever was attempted and wherever it stopped: the next start is blank exactly if one attempt
   stopped between removing the current file and renaming its candidate, a later one spoiled the
   backup, and no attempt after them got as far again; or if no attempt ever replaced a current file
   that was unreadable from the start, and the backup is lost as well.
   */
  lemma BlankIff<I>(read: Reader<I>, d: Disk, attempts: seq<Attempt>)
    requires IsChain(d, attempts) && AllReadable(read, attempts)
    ensures Recover(read, DiskAfter(d, attempts)).Blank? <==>
            LosesBoth(read, attempts) || NeverHeld(read, d, attempts)
  {
    CurrentLostIff(read, d, attempts);
    BackupLostIff(read, d, attempts);
    if i: nat :| LosesCurrent(attempts, i) {
      assert TouchesBackup(attempts[i]);
      if j: nat :| LosesBackup(read, attempts, j) {
        LosesInOrder(read, attempts, i, j);
      }
    }
  }

  lemma LosesInOrder<I>(read: Reader<I>, attempts: seq<Attempt>, i: nat, j: nat)
    requires LosesCurrent(attempts, i) && LosesBackup(read, attempts, j)
    ensures i < j
  {
    assert TouchesBackup(attempts[i]);
  }

  /** What the last completed attempt wrote. */
  function LastCompleted<I>(read: Reader<I>, d: Disk, attempts: seq<Attempt>): Option<I> {
    if attempts == [] then Readable(read, d.current)
    else if attempts[|attempts| - 1].stopped.phase.Done? then read(attempts[|attempts| - 1].image)
    else LastCompleted(read, d, attempts[..|attempts| - 1])
  }

  predicate NoneStopsBeforeRename(attempts: seq<Attempt>) {
    forall k :: 0 <= k < |attempts| ==> !attempts[k].stopped.phase.RenameCandidate?
  }

  lemma {:induction false} CurrentIsLastCompleted<I>(read: Reader<I>, d: Disk, attempts: seq<Attempt>)
    requires IsChain(d, attempts) && AllReadable(read, attempts) && Readable(read, d.current).Some?
    requires NoneStopsBeforeRename(attempts)
    ensures LastCompleted(read, d, attempts).Some?
    ensures Readable(read, DiskAfter(d, attempts).current) == LastCompleted(read, d, attempts)
  {
    if attempts != [] {
      var before, last := attempts[..|attempts| - 1], attempts[|attempts| - 1];
      CurrentIsLastCompleted(read, d, before);
      StoppedFiles(read, DiskAfter(d, before), last);
    }
  }

  /**
   If no attempt stops right before its rename, the next start finds exactly what the last completed
   one wrote, and one more attempt may stop anywhere at all: it adds at most its own image.
   */
  lemma ManyPersists<I>(read: Reader<I>, d: Disk, attempts: seq<Attempt>, last: Attempt)
    requires IsChain(d, attempts) && AllReadable(read, attempts) && Readable(read, d.current).Some?
    requires NoneStopsBeforeRename(attempts)
    requires Reaches(DiskAfter(d, attempts), last.image, last.stopped) && read(last.image).Some?
    ensures LastCompleted(read, d, attempts).Some?
    ensures Recover(read, DiskAfter(d, attempts)) == Found(LastCompleted(read, d, attempts).value)
    ensures Recover(read, last.stopped.disk) ==
            if TouchesCurrent(last) then Found(read(last.image).value) else Found(LastCompleted(read, d, attempts).value)
  {
    CurrentIsLastCompleted(read, d, attempts);
    StoppedFiles(read, DiskAfter(d, attempts), last);
  }

  // ----- two stops -----

  /** From a removed backup on to the removed current file. */
  function UpToRemovedCurrent(d: Disk, image: Text): seq<Machine> {
    UpToRemovedBackup(d, image)
    + [Machine(d.(backup := Some([]), candidate := Some(image)), CopyToBackup(0))]
    + (if image == [] then []
       else [Machine(d.(backup := Some(image), candidate := Some(image)), CopyToBackup(|image|))])
    + [Machine(d.(backup := Some(image), candidate := Some(image)), RemoveCurrent),
       Machine(Disk(None, Some(image), Some(image)), RenameCandidate)]
  }

  lemma RemovedCurrentIsReached(d: Disk, image: Text)
    ensures IsPersistRun(d, image, UpToRemovedCurrent(d, image))
  {
    RemovedBackupIsReached(d, image);
    assert image[..|image|] == image;
  }

  /** Two attempts that stop are enough to lose everything, from any disk and for any two images. */
  lemma TwoStopsLoseAll<I>(read: Reader<I>, d: Disk, first: Text, second: Text) returns (attempts: seq<Attempt>)
    ensures |attempts| == 2 && attempts[0].image == first && attempts[1].image == second
    ensures IsChain(d, attempts) && Recover(read, DiskAfter(d, attempts)) == Blank
  {
    var run := UpToRemovedCurrent(d, first);
    RemovedCurrentIsReached(d, first);
    var a := Attempt(first, run[|run| - 1]);
    assert Reaches(d, first, a.stopped);
    var run' := UpToRemovedBackup(a.stopped.disk, second);
    RemovedBackupIsReached(a.stopped.disk, second);
    var b := Attempt(second, run'[|run'| - 1]);
    assert Reaches(a.stopped.disk, second, b.stopped);
    attempts := [a, b];
    assert attempts[..1] == [a] && [a][..0] == [];
    assert IsChain(d, [a]);
  }

  ghost predicate IsPersistable(s: Registry, order: seq<Text>) {
    Printable(s) && Enumerates(order, s.entries) && SequenceCovers(s.entries, s.nextSequence) && Reloadable(s.entries)
  }

  /**
   A registry held by the current file is never lost: however far persisting its successor got, the
   next start has the one or the other, complete, with its namespace, revision, counter and entries.
   */
  lemma RegistrySurvives(
    s: Registry, order: seq<Text>, next: Registry, nextOrder: seq<Text>, d: Disk, run: seq<Machine>)
    requires IsPersistable(s, order) && IsPersistable(next, nextOrder)
    requires d.current == Some(PrintRegistry(s, order)) && IsPersistRun(d, PrintRegistry(next, nextOrder), run)
    ensures var found := Recover(ReadImage, run[|run| - 1].disk);
            found.Found? && (FromImage(found.image) == Ok(s) || FromImage(found.image) == Ok(next))
  {
    ReloadIff(s, order);
    ReloadIff(next, nextOrder);
    StopsAtomically(ReadImage, d, PrintRegistry(next, nextOrder), run);
  }

  lemma StopsAtomically<I>(read: Reader<I>, d: Disk, image: Text, run: seq<Machine>)
    requires Readable(read, d.current).Some? && read(image).Some? && IsPersistRun(d, image, run)
    ensures var found := Recover(read, run[|run| - 1].disk);
            found == Found(Readable(read, d.current).value) || found == Found(read(image).value)
  {
    AtomicIff(read, d, image);
  }

  // ----- the files -----

  class RegistryFiles {
    var current: Option<Text>
    var backup: Option<Text>
    var candidate: Option<Text>

    function Value(): Disk
      reads this
    {
      Disk(current, backup, candidate)
    }

    constructor (d: Disk)
      ensures Value() == d
    {
      current, backup, candidate := d.current, d.backup, d.candidate;
    }

    /** The candidate, byte by byte; the process may stop at any point. */
    method WriteTheCandidate(image: Text, stops: bool, ghost start: Disk) returns (written: nat, ghost run: seq<Machine>)
      requires Value() == start
      modifies `candidate
      ensures IsPersistRun(start, image, run) && run[|run| - 1] == Machine(Value(), WriteCandidate(written))
      ensures written <= |image| && (!stops ==> written == |image|)
    {
      run := [Machine(Value(), CreateCandidate)];
      candidate, written := Some([]), 0;
      run := run + [Machine(Value(), WriteCandidate(0))];
      while written < |image|
        invariant written <= |image|
        invariant backup == old(backup) && current == old(current)
        invariant IsPersistRun(start, image, run) && run[|run| - 1] == Machine(Value(), WriteCandidate(written))
      {
        var halts: bool := *;
        if stops && halts {
          return;
        }
        var more :| written < more <= |image|;
        candidate, written := Some(image[..more]), more;
        run := run + [Machine(Value(), WriteCandidate(written))];
      }
    }

    /** From a full candidate to a full backup. */
    method CopyTheBackup(image: Text, stops: bool, ghost start: Disk, ghost before: seq<Machine>)
      returns (complete: bool, ghost run: seq<Machine>)
      requires IsPersistRun(start, image, before) && before[|before| - 1] == Machine(Value(), WriteCandidate(|image|))
      modifies `backup
      ensures IsPersistRun(start, image, run) && run[|run| - 1].disk == Value()
      ensures complete ==> run[|run| - 1].phase == CopyToBackup(|image|)
      ensures !stops ==> complete
    {
      run := before + [Machine(Value(), RemoveBackup)];
      backup := None;
      run := run + [Machine(Value(), CreateBackup)];
      var halts: bool := *;
      if stops && halts {
        return false, run;
      }
      var copied := 0;
      backup := Some([]);
      run := run + [Machine(Value(), CopyToBackup(0))];
      while copied < |image|
        invariant copied <= |image|
        invariant candidate == old(candidate) && current == old(current)
        invariant IsPersistRun(start, image, run) && run[|run| - 1] == Machine(Value(), CopyToBackup(copied))
      {
        var halts: bool := *;
        if stops && halts {
          return false, run;
        }
        var more :| copied < more <= |image|;
        backup, copied := Some(image[..more]), more;
        run := run + [Machine(Value(), CopyToBackup(copied))];
      }
      return true, run;
    }

    /** One `persist`; when it stops early the files are what one of the steps left. */
    method Persist(image: Text, stops: bool) returns (complete: bool, ghost run: seq<Machine>)
      modifies this
      ensures IsPersistRun(old(Value()), image, run) && run[|run| - 1].disk == Value()
      ensures complete ==> run[|run| - 1].phase.Done?
      ensures !stops ==> complete && Value() == Disk(Some(image), Some(image), None)
    {
      ghost var start := Value();
      var written;
      written, run := WriteTheCandidate(image, stops, start);
      if written < |image| {
        return false, run;
      }
      complete, run := CopyTheBackup(image, stops, start, run);
      if !complete {
        return;
      }
      run := run + [Machine(Value(), RemoveCurrent)];
      current := None;
      run := run + [Machine(Value(), RenameCandidate)];
      var halts: bool := *;
      if stops && halts {
        return false, run;
      }
      current, candidate := candidate, None;
      run := run + [Machine(Value(), Done)];
      RunKeepsPhase(start, image, run, |run| - 1);
    }

    method LoadOrBlank() returns (r: Recovered<Image>)
      ensures r == Recover(ReadImage, Value())
    {
      if current.Some? && ReadImage(current.value).Some? {
        return Found(ReadImage(current.value).value);
      }
      if backup.Some? && ReadImage(backup.value).Some? {
        return Found(ReadImage(backup.value).value);
      }
      return Blank;
    }
  }
}
