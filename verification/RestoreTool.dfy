// The restore tool itself, file operation by file operation, with any
// operation failing (apps/server/src/restore.ts), and the lease it runs under
// (apps/server/src/instance-lease.ts). Every operation it performs is recorded
// in a ghost trace, which is shown to be a run of the restore protocol.
module RestoreTool {
  import opened Results
  import opened RestoreProtocol

  // The order in which the tool moves the current files away.
  const CURRENT_FILES: seq<Name> := [Sqlite, Wal, Shm, Journal, Secret]

  // The data directory with its guard row and the operating system's lock.
  class DataDirectory {
    var data: Directory
    var staging: Option<Directory>
    var rollback: Option<Directory>
    var restoreRequired: bool
    var owner: nat
    var locked: Option<nat>
    // The disk after every file operation since the guard was acquired.
    ghost var trace: seq<Disk>
    // How many operations, reads and checks failed that need not have.
    ghost var faults: nat

    function State(): Disk
      reads this`data, this`staging, this`rollback, this`restoreRequired
    {
      Disk(data, staging, rollback, restoreRequired)
    }

    ghost predicate Traced(backup: Directory)
      reads this`data, this`staging, this`rollback, this`restoreRequired, this`trace
    {
      && trace != []
      && trace[|trace| - 1] == State()
      && forall k :: 0 <= k < |trace| - 1 ==> IsFileStep(trace[k], trace[k + 1], backup)
    }

    // Performs one operation of the file system or fails without effect.
    method Perform(op: FileOp, ghost backup: Directory) returns (ok: bool)
      requires Traced(backup)
      modifies this`data, this`staging, this`rollback, this`trace, this`faults
      ensures Traced(backup) && restoreRequired == old(restoreRequired)
      ensures old(trace) <= trace
      ensures !ok ==> State() == old(State())
      ensures ok ==> CanDo(old(State()), op, backup) && State() == Do(old(State()), op, backup)
      ensures faults == old(faults) + if !ok && CanDo(old(State()), op, backup) then 1 else 0
    {
      var allowed: bool := *;
      ok := false;
      if allowed {
        match op
        case MakeStaging =>
          if staging.None? { staging, ok := Some(map[]), true; }
        case MakeRollback =>
          if rollback.None? { rollback, ok := Some(map[]), true; }
        case Rename(from, to, name) =>
          if CanRename(State(), from, to, name) {
            var next := Renamed(State(), from, to, name);
            data, staging, rollback, ok := next.data, next.staging, next.rollback, true;
          }
        case _ =>
      }
      if ok {
        assert CanDo(old(State()), op, backup) && Do(old(State()), op, backup) == State();
        trace := trace + [State()];
      } else if CanDo(State(), op, backup) {
        faults := faults + 1;
      }
    }

    // Writes one decrypted entry into the staging directory.
    method StageFile(name: Name, file: File, ghost backup: Directory) returns (ok: bool)
      requires Traced(backup) && name in backup && backup[name] == file
      modifies this`staging, this`trace, this`faults
      ensures Traced(backup)
      ensures old(trace) <= trace
      ensures !ok ==> staging == old(staging)
      ensures ok ==> old(staging).Some? && staging == Some(old(staging).value[name := file])
      ensures faults == old(faults) + if !ok && staging.Some? && name !in staging.value then 1 else 0
    {
      var allowed: bool := *;
      ok := allowed && staging.Some? && name !in staging.value;
      if ok {
        staging := Some(staging.value[name := file]);
        ghost var before := trace[|trace| - 1];
        assert CanDo(before, StageEntry(name), backup) && State() == Do(before, StageEntry(name), backup);
        trace := trace + [State()];
      } else if staging.Some? && name !in staging.value {
        faults := faults + 1;
      }
    }

    // A recursive removal: it may stop after any subset of the files. The
    // directory itself goes last, so one that fails leaves it standing.
    method RemoveTree(place: Place, ghost backup: Directory) returns (ok: bool)
      requires place != Data && Traced(backup)
      modifies this`staging, this`rollback, this`trace, this`faults
      ensures Traced(backup)
      ensures old(trace) <= trace && |trace| == |old(trace)| + 1
      ensures !ok ==> Contents(old(State()), place).Some? ==> Contents(State(), place).Some?
      ensures faults == old(faults) + if ok then 0 else 1
      ensures place.Staging? ==> rollback == old(rollback) && PartOf(staging, old(staging)) && (ok ==> staging.None?)
      ensures place.Rollback? ==> staging == old(staging) && PartOf(rollback, old(rollback)) && (ok ==> rollback.None?)
    {
      ghost var before, steps := State(), trace;
      ok := *;
      var deleted: set<Name> := *;
      if place.Staging? {
        staging := if ok || staging.None? then None else Some(staging.value - deleted);
        TraceGrows(steps, RemoveStaging(staging), State(), backup);
      } else {
        rollback := if ok || rollback.None? then None else Some(rollback.value - deleted);
        TraceGrows(steps, RemoveRollback(rollback), State(), backup);
      }
      hide IsFileStep;
      trace := trace + [State()];
      if !ok { faults := faults + 1; }
    }
  }

  lemma TraceGrows(trace: seq<Disk>, op: FileOp, after: Disk, backup: Directory)
    requires trace != [] && forall k :: 0 <= k < |trace| - 1 ==> IsFileStep(trace[k], trace[k + 1], backup)
    requires CanDo(trace[|trace| - 1], op, backup) && Do(trace[|trace| - 1], op, backup) == after
    ensures var longer := trace + [after];
            forall k :: 0 <= k < |longer| - 1 ==> IsFileStep(longer[k], longer[k + 1], backup)
  {}

  ghost predicate IsFileStep(before: Disk, after: Disk, backup: Directory)
  {
    exists op :: CanDo(before, op, backup) && Do(before, op, backup) == after
  }

  // ---- The lease -------------------------------------------------------------

  // The guard files a process has open, shared by all its lease objects.
  class Process {
    const pid: nat
    var holdsGuard: bool

    constructor (pid: nat)
      ensures this.pid == pid && !holdsGuard
    {
      this.pid, holdsGuard := pid, false;
    }
  }

  // A process owns the lock only while it has registered the guard as open.
  ghost predicate LockRegistered(dir: DataDirectory, process: Process)
    reads dir, process
  {
    dir.locked == Some(process.pid) ==> process.holdsGuard
  }

  class InstanceLease {
    const ownerId: nat
    const kind: Kind
    var held: bool

    constructor (ownerId: nat, kind: Kind)
      ensures this.ownerId == ownerId && this.kind == kind && !held
    {
      this.ownerId, this.kind, held := ownerId, kind, false;
    }

    // Takes the exclusive lock and commits the owner row; a restoring owner
    // commits the fence with it. Every failure leaves lock and row as they were.
    method Acquire(dir: DataDirectory, process: Process) returns (ok: bool)
      requires LockRegistered(dir, process) && !held
      modifies this`held, process`holdsGuard, dir`locked, dir`owner, dir`restoreRequired, dir`trace, dir`faults
      ensures ok == held
      ensures dir.faults == old(dir.faults)
                            + if !ok && !old(process.holdsGuard) && old(dir.locked).None? && !old(dir.restoreRequired) then 1 else 0
      ensures ok ==> !old(process.holdsGuard) && old(dir.locked).None? && !old(dir.restoreRequired)
      ensures ok ==> && process.holdsGuard && dir.locked == Some(process.pid) && dir.owner == ownerId
                     && dir.restoreRequired == kind.Restoring? && dir.trace == [dir.State()]
      ensures !ok ==> && dir.locked == old(dir.locked) && dir.owner == old(dir.owner)
                      && dir.restoreRequired == old(dir.restoreRequired)
                      && process.holdsGuard == old(process.holdsGuard)
      ensures LockRegistered(dir, process)
    {
      var fault: bool := *;
      if process.holdsGuard {
        return false;
      }
      process.holdsGuard := true;
      if fault || dir.locked.Some? || dir.restoreRequired {
        // Closing the database drops whatever lock this process had on the guard.
        dir.locked := LockAfterClose(dir.locked, process.pid);
        process.holdsGuard := false;
        if dir.locked.None? && !dir.restoreRequired { dir.faults := dir.faults + 1; }
        return false;
      }
      dir.locked := Some(process.pid);
      dir.owner, dir.restoreRequired := ownerId, kind.Restoring?;
      held := true;
      dir.trace := [dir.State()];
      return true;
    }

    // Clears the fence, or stops the process when the guard was lost.
    method CompleteRestore(dir: DataDirectory) returns (ok: bool)
      requires held && kind.Restoring?
      modifies dir`restoreRequired, dir`faults
      ensures dir.restoreRequired == if ok then false else old(dir.restoreRequired)
      ensures ok ==> dir.owner == ownerId
      ensures dir.faults == old(dir.faults) + if !ok && dir.owner == ownerId then 1 else 0
    {
      var identityKept: bool := *;
      ok := identityKept && dir.owner == ownerId;
      if ok {
        dir.restoreRequired := false;
      } else if dir.owner == ownerId {
        dir.faults := dir.faults + 1;
      }
    }

    // Never touches the fence.
    method Release(dir: DataDirectory, process: Process)
      requires LockRegistered(dir, process)
      modifies this`held, process`holdsGuard, dir`locked
      ensures !held && !process.holdsGuard && dir.locked == LockAfterClose(old(dir.locked), process.pid)
    {
      dir.locked := LockAfterClose(dir.locked, process.pid);
      process.holdsGuard := false;
      held := false;
    }
  }

  // ---- Installing a backup ---------------------------------------------------

  function Lookup(files: Directory, name: Name): Option<File>
  {
    if name in files then Some(files[name]) else None
  }

  lemma SameLookupsSameDirectory(a: Directory, b: Directory)
    requires forall name :: Lookup(a, name) == Lookup(b, name)
    ensures a == b
  {
    forall name
      ensures name in a <==> name in b
      ensures name in a ==> a[name] == b[name]
    {
      assert Lookup(a, name) == Lookup(b, name);
    }
  }

  ghost predicate NoRepeats(names: seq<Name>)
  {
    forall i, j :: 0 <= i < j < |names| ==> names[i] != names[j]
  }

  // Where every file is when the listed ones were moved away and installed.
  ghost predicate Midway(d: Disk, original: Directory, backup: Directory, moved: seq<Name>, installed: seq<Name>)
  {
    && NoRepeats(moved) && NoRepeats(installed)
    && (forall name :: name in moved ==> name in original)
    && (forall name :: name in installed ==> name in backup)
    && (installed != [] ==> forall name :: name in original ==> name in moved)
    && (forall name :: Lookup(d.data, name) ==
          if name in installed then Lookup(backup, name)
          else if name in moved then None
          else Lookup(original, name))
    && d.rollback.Some?
    && (forall name :: Lookup(d.rollback.value, name) == if name in moved then Lookup(original, name) else None)
    && (d.staging.Some? ==>
          forall name :: Lookup(d.staging.value, name).Some? ==>
            name !in installed && Lookup(d.staging.value, name) == Lookup(backup, name))
  }

  // Nothing but the installed files has left the staging directory.
  ghost predicate FullyStaged(staging: Option<Directory>, backup: Directory, installed: seq<Name>)
  {
    && staging.Some?
    && forall name :: Lookup(staging.value, name) == if name in installed then None else Lookup(backup, name)
  }

  // Every original file is where it was or in the rollback directory.
  ghost predicate Retained(d: Disk, original: Directory)
  {
    forall name :: name in original ==>
      || Lookup(d.data, name) == Some(original[name])
      || (d.rollback.Some? && Lookup(d.rollback.value, name) == Some(original[name]))
  }

  lemma MidwayRetains(d: Disk, original: Directory, backup: Directory, moved: seq<Name>, installed: seq<Name>)
    requires Midway(d, original, backup, moved, installed)
    ensures Retained(d, original)
  {
    forall name | name in original
      ensures Lookup(d.data, name) == Some(original[name]) || Lookup(d.rollback.value, name) == Some(original[name])
    {
      assert Lookup(original, name) == Some(original[name]);
      if name !in moved {
        assert installed == [] && Lookup(d.data, name) == Lookup(original, name);
      }
    }
  }

  class Installer {
    const dir: DataDirectory
    ghost const original: Directory
    ghost const backup: Directory
    var moved: seq<Name>
    var installed: seq<Name>
    var originalIdentities: map<Name, File>
    // How many file operations had been done when the identity of a file in the
    // data directory was last read.
    ghost var confirmed: map<Name, nat>

    constructor (dir: DataDirectory, ghost backup: Directory)
      ensures this.dir == dir && this.original == dir.data && this.backup == backup
      ensures moved == [] && installed == [] && originalIdentities == map[] && confirmed == map[]
    {
      this.dir, this.original, this.backup := dir, dir.data, backup;
      moved, installed, originalIdentities, confirmed := [], [], map[], map[];
    }

    ghost predicate Valid()
      reads this`moved, this`installed, this`originalIdentities, dir`data, dir`staging, dir`rollback, dir`restoreRequired, dir`trace
    {
      && VerifiedBackup(backup)
      && dir.Traced(backup)
      && dir.restoreRequired
      && Midway(dir.State(), original, backup, moved, installed)
      && (forall name :: name in moved ==> name in originalIdentities)
      && (forall name :: name in originalIdentities ==> name in original && originalIdentities[name] == original[name])
    }

    // The names were read in the data directory just before the last operation.
    ghost predicate ConfirmedLast(names: seq<Name>)
      reads this`confirmed, dir`trace
    {
      forall name :: name in names ==> name in confirmed && confirmed[name] + 1 == |dir.trace|
    }

    // Reading an identity fails when the path is not a plain file any more.
    method Identity(place: Place, name: Name) returns (identity: Option<File>)
      modifies this`confirmed, dir`faults
      ensures confirmed == if identity.Some? && place.Data? then old(confirmed)[name := |dir.trace|] else old(confirmed)
      ensures dir.faults == old(dir.faults)
                            + if identity.None? && Contents(dir.State(), place).Some? && name in Contents(dir.State(), place).value
                              then 1 else 0
      ensures identity.Some? ==>
                && Contents(dir.State(), place).Some? && name in Contents(dir.State(), place).value
                && identity.value == Contents(dir.State(), place).value[name]
    {
      var readable: bool := *;
      var contents := Contents(dir.State(), place);
      identity := if readable && contents.Some? && name in contents.value then Some(contents.value[name]) else None;
      if identity.Some? && place.Data? { confirmed := confirmed[name := |dir.trace|]; }
      if !readable && contents.Some? && name in contents.value { dir.faults := dir.faults + 1; }
    }

    method MoveCurrentFiles() returns (ok: bool)
      requires Valid() && moved == [] && installed == [] && dir.staging == Some(backup)
      modifies this`moved, this`originalIdentities, this`confirmed, dir`data, dir`staging, dir`rollback, dir`trace, dir`faults
      ensures Valid() && old(dir.trace) <= dir.trace
      ensures (ok ==> forall name :: name in original ==> name in moved) && dir.staging == Some(backup)
      ensures dir.faults == old(dir.faults) + if ok then 0 else 1
    {
      for i := 0 to |CURRENT_FILES|
        invariant dir.faults == old(dir.faults)
        invariant Valid() && old(dir.trace) <= dir.trace && dir.staging == Some(backup)
        invariant forall k :: 0 <= k < i && CURRENT_FILES[k] in original ==> CURRENT_FILES[k] in moved
      {
        var moves := MoveFile(CURRENT_FILES[i]);
        if !moves { return false; }
      }
      AllNamesAreCurrentFiles();
      forall name | name in original
        ensures name in moved
      {
        assert name in CURRENT_FILES;
        var k :| 0 <= k < |CURRENT_FILES| && CURRENT_FILES[k] == name;
      }
      return true;
    }

    // One current file, if it is there: its identity is noted before it moves.
    method MoveFile(name: Name) returns (ok: bool)
      requires Valid() && installed == [] && dir.staging == Some(backup)
      modifies this`moved, this`originalIdentities, this`confirmed, dir`data, dir`staging, dir`rollback, dir`trace, dir`faults
      ensures Valid() && old(dir.trace) <= dir.trace && dir.staging == Some(backup)
      ensures moved == old(moved) || (moved == old(moved) + [name])
      ensures ok && name in original ==> name in moved
      ensures dir.faults == old(dir.faults) + if ok then 0 else 1
    {
      if name !in dir.data {
        assert Lookup(dir.data, name) == None;
        return true;
      }
      var noted := NoteIdentity(name);
      if !noted { return false; }
      ok := MoveAway(name);
    }

    method MoveAway(name: Name) returns (ok: bool)
      requires Valid() && installed == [] && dir.staging == Some(backup) && name in dir.data && name in originalIdentities
      modifies this`moved, dir`data, dir`staging, dir`rollback, dir`trace, dir`faults
      ensures Valid() && old(dir.trace) <= dir.trace && dir.staging == Some(backup)
      ensures moved == if ok then old(moved) + [name] else old(moved)
      ensures dir.faults == old(dir.faults) + if ok then 0 else 1
    {
      ghost var before := dir.State();
      assert CanRename(before, Data, Rollback, name);
      hide VerifiedBackup, Midway, Renamed, CanRename;
      var renamed := dir.Perform(Rename(Data, Rollback, name), backup);
      if !renamed { return false; }
      MoveKeepsMidway(before, original, backup, moved, name);
      hide CanDo, Do;
      moved := moved + [name];
      return true;
    }

    method NoteIdentity(name: Name) returns (ok: bool)
      requires Valid() && installed == [] && name in dir.data
      modifies this`originalIdentities, this`confirmed, dir`faults
      ensures Valid() && (ok ==> name in originalIdentities)
      ensures dir.faults == old(dir.faults) + if ok then 0 else 1
    {
      var identity := Identity(Data, name);
      assert Lookup(dir.data, name) == Lookup(original, name);
      hide Midway;
      if identity.None? { return false; }
      originalIdentities := originalIdentities[name := identity.value];
      return true;
    }

    method InstallReplacements() returns (ok: bool)
      requires Valid() && installed == [] && dir.staging == Some(backup)
      requires forall name :: name in original ==> name in moved
      modifies this`installed, dir`data, dir`staging, dir`rollback, dir`trace, dir`faults
      ensures Valid() && old(dir.trace) <= dir.trace
      ensures ok ==> installed == REPLACEMENTS && dir.data == backup
      ensures dir.staging.Some? && moved == old(moved)
      ensures dir.faults == old(dir.faults) + if ok then 0 else 1
    {
      for i := 0 to |REPLACEMENTS|
        invariant dir.faults == old(dir.faults)
        invariant Valid() && old(dir.trace) <= dir.trace
        invariant installed == REPLACEMENTS[..i]
        invariant FullyStaged(dir.staging, backup, installed)
      {
        var renamed := InstallFile(REPLACEMENTS[i]);
        if !renamed { return false; }
      }
      assert REPLACEMENTS[0] == Sqlite && REPLACEMENTS[1] == Secret;
      SameLookupsSameDirectory(dir.data, backup);
      return true;
    }

    method InstallFile(name: Name) returns (ok: bool)
      requires Valid() && name in backup && name !in installed && FullyStaged(dir.staging, backup, installed)
      requires forall name :: name in original ==> name in moved
      modifies this`installed, dir`data, dir`staging, dir`rollback, dir`trace, dir`faults
      ensures Valid() && old(dir.trace) <= dir.trace && FullyStaged(dir.staging, backup, installed)
      ensures installed == if ok then old(installed) + [name] else old(installed)
      ensures dir.faults == old(dir.faults) + if ok then 0 else 1
    {
      ghost var before := dir.State();
      assert Lookup(dir.staging.value, name).Some?;
      assert CanRename(before, Staging, Data, name);
      hide VerifiedBackup, Midway, FullyStaged, Renamed, CanRename;
      ok := dir.Perform(Rename(Staging, Data, name), backup);
      if !ok { return; }
      InstallKeepsMidway(before, original, backup, moved, installed, name);
      assert dir.State() == Renamed(before, Staging, Data, name);
      hide CanDo, Do;
      installed := installed + [name];
    }

    method ConfirmReplacements(identities: map<Name, File>) returns (ok: bool)
      requires dir.data == backup && VerifiedBackup(backup) && identities == backup
      modifies this`confirmed, dir`faults
      ensures ok ==> forall k :: 0 <= k < |REPLACEMENTS| ==>
                       REPLACEMENTS[k] in confirmed && confirmed[REPLACEMENTS[k]] == |dir.trace|
      ensures dir.faults == old(dir.faults) + if ok then 0 else 1
    {
      for i := 0 to |REPLACEMENTS|
        invariant dir.faults == old(dir.faults)
        invariant forall k :: 0 <= k < i ==> REPLACEMENTS[k] in confirmed && confirmed[REPLACEMENTS[k]] == |dir.trace|
      {
        var identity := Identity(Data, REPLACEMENTS[i]);
        if identity != Some(identities[REPLACEMENTS[i]]) { return false; }
      }
      return true;
    }

    // Compares the installed files with the ones that were staged, then drops
    // the staging directory.
    method VerifyInstall(identities: map<Name, File>) returns (ok: bool)
      requires Valid() && installed == REPLACEMENTS && dir.data == backup && identities == backup
      requires dir.staging.Some?
      modifies this`confirmed, dir`staging, dir`rollback, dir`trace, dir`faults
      ensures Valid() && old(dir.trace) <= dir.trace && dir.data == backup
      ensures dir.staging.None? == ok && dir.rollback == old(dir.rollback)
      // Both were read on the disk the removal of staging started from.
      ensures ok ==> ConfirmedLast(REPLACEMENTS)
      ensures dir.faults == old(dir.faults) + if ok then 0 else 1
    {
      ok := ConfirmReplacements(identities);
      if !ok { return; }
      ghost var before := dir.staging;
      ok := dir.RemoveTree(Staging, backup);
      if dir.staging.Some? { PartOfLookups(dir.staging, before); }
    }

    method Uninstall() returns (ok: bool)
      requires Valid() && dir.staging.Some?
      modifies this`installed, dir`data, dir`staging, dir`rollback, dir`trace, dir`faults
      ensures Valid() && old(dir.trace) <= dir.trace
      ensures ok ==> installed == []
      ensures dir.faults == old(dir.faults) + if ok then 0 else 1
    {
      while installed != []
        invariant Valid() && old(dir.trace) <= dir.trace && dir.staging.Some? && dir.faults == old(dir.faults)
        decreases |installed|
      {
        var name := installed[|installed| - 1];
        ghost var before, rest := dir.State(), installed[..|installed| - 1];
        assert installed == rest + [name];
        assert name in installed && Lookup(dir.data, name).Some?;
        assert CanRename(before, Data, Staging, name);
        hide VerifiedBackup, Midway, Renamed, CanRename;
        var renamed := dir.Perform(Rename(Data, Staging, name), backup);
        if !renamed { return false; }
        UninstallKeepsMidway(before, original, backup, moved, rest, name);
        installed := installed[..|installed| - 1];
      }
      return true;
    }

    method MoveBack() returns (ok: bool)
      requires Valid() && installed == []
      modifies this`moved, dir`data, dir`staging, dir`rollback, dir`trace, dir`faults
      ensures Valid() && old(dir.trace) <= dir.trace
      ensures ok ==> dir.data == original
      ensures dir.faults == old(dir.faults) + if ok then 0 else 1
    {
      while moved != []
        invariant Valid() && old(dir.trace) <= dir.trace && dir.faults == old(dir.faults)
        decreases |moved|
      {
        var name := moved[|moved| - 1];
        ghost var before, rest := dir.State(), moved[..|moved| - 1];
        assert moved == rest + [name];
        assert name in moved && Lookup(dir.rollback.value, name).Some?;
        assert CanRename(before, Rollback, Data, name);
        hide VerifiedBackup, Renamed, CanRename;
        var renamed := dir.Perform(Rename(Rollback, Data, name), backup);
        if !renamed { return false; }
        UnmoveKeepsMidway(before, original, backup, rest, name);
        moved := moved[..|moved| - 1];
      }
      SameLookupsSameDirectory(dir.data, original);
      return true;
    }

    // The original files are back under the identities noted before they moved.
    method ConfirmOriginals() returns (ok: bool)
      requires Valid() && dir.data == original
      modifies this`confirmed, dir`faults
      ensures ok ==> forall name :: name in originalIdentities ==> name in confirmed && confirmed[name] == |dir.trace|
      ensures dir.faults == old(dir.faults) + if ok then 0 else 1
    {
      for i := 0 to |CURRENT_FILES|
        invariant dir.faults == old(dir.faults)
        invariant forall k :: 0 <= k < i && CURRENT_FILES[k] in originalIdentities ==>
                    CURRENT_FILES[k] in confirmed && confirmed[CURRENT_FILES[k]] == |dir.trace|
      {
        var name := CURRENT_FILES[i];
        if name in originalIdentities {
          var identity := Identity(Data, name);
          if identity != Some(originalIdentities[name]) { return false; }
        }
      }
      AllNamesAreCurrentFiles();
      forall name | name in originalIdentities
        ensures name in confirmed && confirmed[name] == |dir.trace|
      {
        assert name in CURRENT_FILES;
        var k :| 0 <= k < |CURRENT_FILES| && CURRENT_FILES[k] == name;
      }
      return true;
    }

    // Undoes what was installed and moved, newest first, and drops the rollback
    // directory once the original files are back under their identities.
    method RollBack() returns (ok: bool)
      requires Valid() && dir.staging.Some?
      modifies this`moved, this`installed, this`confirmed, dir`data, dir`staging, dir`rollback, dir`trace, dir`faults
      ensures dir.Traced(backup) && dir.restoreRequired && old(dir.trace) <= dir.trace
      ensures ok ==> dir.data == original && dir.rollback.None?
      ensures ok ==> forall name :: name in originalIdentities ==> ConfirmedLast([name])
      // A failing operation alone stops it.
      ensures dir.faults == old(dir.faults) + if ok then 0 else 1
      // Recovery data stays, wherever the rollback got stuck.
      ensures Retained(dir.State(), original)
    {
      ok := Uninstall();
      MidwayRetains(dir.State(), original, backup, moved, installed);
      if !ok { return; }
      ok := MoveBack();
      MidwayRetains(dir.State(), original, backup, moved, installed);
      if !ok { return; }
      ok := DropRollback();
    }

    // The rollback directory goes once every original file was read again.
    method DropRollback() returns (ok: bool)
      requires Valid() && dir.data == original
      modifies this`confirmed, dir`staging, dir`rollback, dir`trace, dir`faults
      ensures dir.Traced(backup) && dir.restoreRequired && old(dir.trace) <= dir.trace && dir.data == original
      ensures ok ==> dir.rollback.None?
      ensures ok ==> forall name :: name in originalIdentities ==> ConfirmedLast([name])
      ensures dir.faults == old(dir.faults) + if ok then 0 else 1
    {
      ok := ConfirmOriginals();
      if !ok { return; }
      hide Midway, VerifiedBackup;
      ok := dir.RemoveTree(Rollback, backup);
    }
  }

  lemma PartOfLookups(left: Option<Directory>, whole: Option<Directory>)
    requires PartOf(left, whole) && left.Some?
    ensures forall name :: Lookup(left.value, name) == None || Lookup(left.value, name) == Lookup(whole.value, name)
  {}

  lemma AllNamesAreCurrentFiles()
    ensures forall name: Name :: name in CURRENT_FILES
  {
    forall name: Name
      ensures name in CURRENT_FILES
    {
      assert CURRENT_FILES[0] == Sqlite && CURRENT_FILES[1] == Wal && CURRENT_FILES[2] == Shm
             && CURRENT_FILES[3] == Journal && CURRENT_FILES[4] == Secret;
      match name case Sqlite => case Wal => case Shm => case Journal => case Secret =>
    }
  }

  lemma LastIsNew(rest: seq<Name>, name: Name)
    requires NoRepeats(rest + [name])
    ensures name !in rest && NoRepeats(rest)
  {
    var all := rest + [name];
    assert all[|rest|] == name;
    assert forall i :: 0 <= i < |rest| ==> all[i] == rest[i];
  }

  // How one rename changes every lookup.
  lemma RenameLookups(d: Disk, from: Place, to: Place, name: Name)
    requires CanRename(d, from, to, name)
    ensures var after := Renamed(d, from, to, name);
            && Contents(after, from).Some? && Contents(after, to).Some?
            && (forall place :: place != from && place != to ==> Contents(after, place) == Contents(d, place))
            && (forall n :: Lookup(Contents(after, from).value, n)
                            == if n == name then None else Lookup(Contents(d, from).value, n))
            && (forall n :: Lookup(Contents(after, to).value, n)
                            == if n == name then Lookup(Contents(d, from).value, name)
                               else Lookup(Contents(d, to).value, n))
  {}

  lemma MoveKeepsMidway(d: Disk, original: Directory, backup: Directory, moved: seq<Name>, name: Name)
    requires Midway(d, original, backup, moved, []) && CanRename(d, Data, Rollback, name)
    ensures Midway(Renamed(d, Data, Rollback, name), original, backup, moved + [name], [])
    ensures Renamed(d, Data, Rollback, name).staging == d.staging
  {
    hide Renamed;
    RenameLookups(d, Data, Rollback, name);
    var after := Renamed(d, Data, Rollback, name);
    assert Contents(after, Staging) == Contents(d, Staging);
    assert Contents(after, Rollback) == after.rollback && Contents(after, Data) == Some(after.data);
    assert Lookup(d.data, name).Some?;
  }

  lemma InstallKeepsMidway(d: Disk, original: Directory, backup: Directory, moved: seq<Name>, installed: seq<Name>, name: Name)
    requires Midway(d, original, backup, moved, installed) && CanRename(d, Staging, Data, name)
    requires forall n :: n in original ==> n in moved
    ensures Midway(Renamed(d, Staging, Data, name), original, backup, moved, installed + [name])
    ensures FullyStaged(d.staging, backup, installed) ==>
              FullyStaged(Renamed(d, Staging, Data, name).staging, backup, installed + [name])
  {
    hide Renamed;
    RenameLookups(d, Staging, Data, name);
    var after := Renamed(d, Staging, Data, name);
    assert Contents(after, Rollback) == Contents(d, Rollback);
    assert Contents(after, Staging) == after.staging && Contents(after, Data) == Some(after.data);
    assert Lookup(d.staging.value, name).Some?;
  }

  lemma UninstallKeepsMidway(d: Disk, original: Directory, backup: Directory, moved: seq<Name>, rest: seq<Name>, name: Name)
    requires Midway(d, original, backup, moved, rest + [name])
    requires CanRename(d, Data, Staging, name)
    ensures Midway(Renamed(d, Data, Staging, name), original, backup, moved, rest)
  {
    hide Renamed;
    RenameLookups(d, Data, Staging, name);
    var after := Renamed(d, Data, Staging, name);
    var installed := rest + [name];
    assert Contents(after, Rollback) == Contents(d, Rollback);
    assert Contents(after, Staging) == after.staging && Contents(after, Data) == Some(after.data);
    LastIsNew(rest, name);
    assert name in backup && (name in original ==> name in moved);
  }

  lemma UnmoveKeepsMidway(d: Disk, original: Directory, backup: Directory, rest: seq<Name>, name: Name)
    requires Midway(d, original, backup, rest + [name], [])
    requires CanRename(d, Rollback, Data, name)
    ensures Midway(Renamed(d, Rollback, Data, name), original, backup, rest, [])
  {
    hide Renamed;
    RenameLookups(d, Rollback, Data, name);
    var after := Renamed(d, Rollback, Data, name);
    var moved := rest + [name];
    assert Contents(after, Staging) == Contents(d, Staging);
    assert Contents(after, Rollback) == after.rollback && Contents(after, Data) == Some(after.data);
    LastIsNew(rest, name);
  }

  // ---- The restore command ---------------------------------------------------

  datatype Outcome =
    | NotAcquired
    | Installed
    // Nothing of the original directory was lost.
    | Refused
    // Rollback failed: recovery data and fence are kept.
    | Incomplete
    // Cleaning up, or clearing the fence, failed.
    | Stuck

  datatype InstallOutcome = InstallDone | InstallUndone | RollbackFailed

  // It takes one failing operation to undo an installation and a second one to
  // keep it from being undone.
  function FaultsBefore(outcome: InstallOutcome): nat
  {
    match outcome
    case InstallDone => 0
    case InstallUndone => 1
    case RollbackFailed => 2
  }

  method InstallRestore(dir: DataDirectory, ghost backup: Directory) returns (outcome: InstallOutcome)
    requires VerifiedBackup(backup) && dir.Traced(backup) && dir.restoreRequired
    requires dir.staging == Some(backup) && dir.rollback.None?
    modifies dir`data, dir`staging, dir`rollback, dir`trace, dir`faults
    ensures dir.Traced(backup) && dir.restoreRequired && old(dir.trace) <= dir.trace
    ensures outcome.InstallDone? ==> dir.data == backup && dir.staging.None? && dir.rollback == Some(old(dir.data))
    ensures outcome.InstallUndone? ==> dir.data == old(dir.data)
    ensures dir.faults == old(dir.faults) + FaultsBefore(outcome)
    ensures Retained(dir.State(), old(dir.data))
  {
    var made := dir.Perform(MakeRollback, backup);
    if !made { return InstallUndone; }
    var installer := new Installer(dir, backup);
    hide VerifiedBackup;
    var identities := StagedIdentities(installer);
    if identities.None? { return InstallUndone; }
    outcome := InstallOrRollBack(installer, identities.value);
  }

  // The identities of the staged replacements; nothing is moved before they are
  // all read.
  method StagedIdentities(installer: Installer) returns (identities: Option<map<Name, File>>)
    requires VerifiedBackup(installer.backup) && installer.dir.staging == Some(installer.backup)
    modifies installer`confirmed, installer.dir`faults
    ensures identities.Some? ==> identities.value == installer.backup
    ensures installer.dir.faults == old(installer.dir.faults) + if identities.Some? then 0 else 1
  {
    var found: map<Name, File> := map[];
    for i := 0 to |REPLACEMENTS|
      invariant installer.dir.faults == old(installer.dir.faults)
      invariant forall k :: 0 <= k < i ==> REPLACEMENTS[k] in found && REPLACEMENTS[k] in installer.backup
                                           && found[REPLACEMENTS[k]] == installer.backup[REPLACEMENTS[k]]
      invariant forall name :: name in found ==> name in installer.backup
    {
      var identity := installer.Identity(Staging, REPLACEMENTS[i]);
      if identity.None? { return None; }
      found := found[REPLACEMENTS[i] := identity.value];
    }
    assert REPLACEMENTS[0] == Sqlite && REPLACEMENTS[1] == Secret;
    assert found == installer.backup;
    return Some(found);
  }

  method InstallOrRollBack(installer: Installer, identities: map<Name, File>) returns (outcome: InstallOutcome)
    requires installer.Valid() && installer.moved == [] && installer.installed == []
    requires installer.dir.staging == Some(installer.backup) && identities == installer.backup
    modifies installer, installer.dir`data, installer.dir`staging, installer.dir`rollback, installer.dir`trace, installer.dir`faults
    ensures installer.dir.Traced(installer.backup) && installer.dir.restoreRequired
    ensures old(installer.dir.trace) <= installer.dir.trace
    ensures outcome.InstallDone? ==>
              && installer.dir.data == installer.backup && installer.dir.staging.None?
              && installer.dir.rollback == Some(installer.original)
    ensures outcome.InstallUndone? ==> installer.dir.data == installer.original && installer.dir.rollback.None?
    // Nothing is dropped before the files in the data directory were read again.
    ensures outcome.InstallDone? ==> installer.ConfirmedLast(REPLACEMENTS)
    ensures outcome.InstallUndone? ==> forall name :: name in installer.originalIdentities ==> installer.ConfirmedLast([name])
    ensures installer.dir.faults == old(installer.dir.faults) + FaultsBefore(outcome)
    ensures Retained(installer.dir.State(), installer.original)
  {
    var ok := installer.MoveCurrentFiles();
    if ok { ok := installer.InstallReplacements(); }
    if ok { ok := installer.VerifyInstall(identities); }
    if ok {
      MidwayRetains(installer.dir.State(), installer.original, installer.backup, installer.moved, installer.installed);
      SameLookupsSameDirectory(installer.dir.rollback.value, installer.original);
      return InstallDone;
    }
    var undone := installer.RollBack();
    return if undone then InstallUndone else RollbackFailed;
  }

  // Decrypts the payload's entries into staging and validates them there.
  method StageBackup(dir: DataDirectory, backup: Directory, intact: bool) returns (ok: bool)
    requires VerifiedBackup(backup) && dir.Traced(backup) && dir.staging == Some(map[])
    modifies dir`staging, dir`trace, dir`faults
    ensures dir.Traced(backup) && old(dir.trace) <= dir.trace && dir.staging.Some?
    ensures ok ==> dir.staging == Some(backup) && intact && dir.faults == old(dir.faults)
    ensures !ok ==> dir.faults == old(dir.faults) + 1 || (!intact && dir.faults == old(dir.faults))
  {
    for i := 0 to |REPLACEMENTS|
      invariant dir.Traced(backup) && old(dir.trace) <= dir.trace
      invariant dir.staging.Some? && dir.faults == old(dir.faults)
      invariant forall name :: Lookup(dir.staging.value, name)
                               == if name in REPLACEMENTS[..i] then Lookup(backup, name) else None
    {
      var name := REPLACEMENTS[i];
      assert name in backup;
      assert REPLACEMENTS[..i + 1] == REPLACEMENTS[..i] + [name];
      assert Lookup(dir.staging.value, name).None?;
      var written := dir.StageFile(name, backup[name], backup);
      if !written { return false; }
    }
    assert REPLACEMENTS[0] == Sqlite && REPLACEMENTS[1] == Secret;
    SameLookupsSameDirectory(dir.staging.value, backup);
    var readable: bool := *;
    if intact && !readable { dir.faults := dir.faults + 1; }
    return intact && readable;
  }

  datatype Attempt = Attempt(installed: bool, safeToClear: bool, incomplete: bool)

  // What an earlier restore left behind is to be inspected first.
  predicate LeftOver(dir: DataDirectory)
    reads dir`staging, dir`rollback
  {
    dir.staging.Some? || dir.rollback.Some?
  }

  // Everything between creating the staging directory and the final cleanup.
  method AttemptRestore(dir: DataDirectory, backup: Directory, intact: bool) returns (attempt: Attempt)
    requires VerifiedBackup(backup) && dir.Traced(backup) && dir.restoreRequired
    modifies dir`data, dir`staging, dir`rollback, dir`trace, dir`faults
    ensures dir.Traced(backup) && dir.restoreRequired && old(dir.trace) <= dir.trace
    ensures attempt.installed ==>
              && attempt.safeToClear && dir.data == backup && dir.staging.None?
              && dir.rollback == Some(old(dir.data))
    ensures old(LeftOver(dir)) ==>
              dir.State() == old(dir.State()) && dir.faults == old(dir.faults) && attempt == Attempt(false, true, false)
    ensures !old(LeftOver(dir)) ==>
              && old(dir.faults) <= dir.faults <= old(dir.faults) + 2
              && (attempt.installed <==> intact && dir.faults == old(dir.faults))
              && (intact ==> (attempt.safeToClear <==> dir.faults <= old(dir.faults) + 1))
              && (dir.faults == old(dir.faults) ==> attempt.safeToClear)
              && (attempt.safeToClear ==> dir.staging.None?)
    ensures !attempt.installed && !attempt.incomplete ==> dir.data == old(dir.data)
    ensures attempt.incomplete ==> !attempt.safeToClear && !attempt.installed && dir.faults == old(dir.faults) + 2
    ensures Retained(dir.State(), old(dir.data))
  {
    if dir.staging.Some? || dir.rollback.Some? {
      return Attempt(false, true, false);
    }
    var made := dir.Perform(MakeStaging, backup);
    if !made {
      return Attempt(false, true, false);
    }
    var staged := StageBackup(dir, backup, intact);
    if staged {
      var outcome := InstallRestore(dir, backup);
      if outcome.InstallDone? {
        return Attempt(true, true, false);
      }
      if outcome.RollbackFailed? {
        return Attempt(false, false, true);
      }
    }
    var cleaned := dir.RemoveTree(Staging, backup);
    return Attempt(false, cleaned, false);
  }

  // The trace a tool leaves: it starts on the directory as found, fenced, every
  // operation is one protocol step, and the fence stays up throughout.
  ghost predicate ProtocolTrace(trace: seq<Disk>, start: Disk, end: Disk, payload: Option<Directory>)
  {
    && trace != []
    && trace[0] == start.(restoreRequired := true)
    && trace[|trace| - 1] == end.(restoreRequired := true)
    && (forall k :: 0 <= k < |trace| ==> trace[k].restoreRequired)
    && (payload.Some? ==> forall k :: 0 <= k < |trace| - 1 ==> IsFileStep(trace[k], trace[k + 1], payload.value))
    && (payload.None? ==> |trace| == 1)
  }

  // payload is None when the backup cannot be decrypted or is too new, and
  // intact says whether its secret and its database pass validation. The
  // fence comes down only over a directory that is whole: as it was, or the
  // backup's.
  method RestoreBackup(dir: DataDirectory, process: Process, ownerId: nat, payload: Option<Directory>, intact: bool)
    returns (outcome: Outcome)
    requires payload.Some? ==> VerifiedBackup(payload.value)
    requires LockRegistered(dir, process)
    modifies dir, process
    ensures outcome.NotAcquired? ==> dir.State() == old(dir.State()) && dir.locked == old(dir.locked)
    // Where nothing fails, what the directory and the payload are like decides.
    ensures dir.faults == old(dir.faults) ==>
              outcome == if old(process.holdsGuard || dir.locked.Some? || dir.restoreRequired) then NotAcquired
                         else if payload.None? || !intact || old(LeftOver(dir)) then Refused
                         else Installed
    // One failure alone is undone or leaves nothing but the fence to clear.
    ensures outcome.NotAcquired? ==> dir.faults <= old(dir.faults) + 1
    ensures outcome.Incomplete? ==> dir.faults == old(dir.faults) + 2
    ensures outcome.Stuck? && dir.faults == old(dir.faults) + 1 && intact ==>
              || (payload.Some? && dir.data == payload.value && dir.staging.None?)
              || dir.State() == old(dir.State()).(restoreRequired := true)
    ensures outcome.Installed? ==> intact && dir.faults == old(dir.faults) && dir.rollback == Some(old(dir.data))
    ensures !outcome.NotAcquired? ==>
              && !old(dir.restoreRequired) && old(dir.locked).None? && dir.locked.None? && !old(process.holdsGuard)
              && ProtocolTrace(dir.trace, old(dir.State()), dir.State(), payload)
    ensures outcome.Installed? ==> payload.Some? && dir.data == payload.value && !dir.restoreRequired && dir.staging.None?
    ensures outcome.Refused? ==> dir.data == old(dir.data) && !dir.restoreRequired
    ensures outcome.Incomplete? || outcome.Stuck? ==> dir.restoreRequired
    ensures outcome.Stuck? ==> dir.data == old(dir.data) || (payload.Some? && dir.data == payload.value)
    ensures !dir.restoreRequired ==> dir.data == old(dir.data) || (payload.Some? && dir.data == payload.value)
    // No outcome loses an original file.
    ensures Retained(dir.State(), old(dir.data))
  {
    var lease := new InstanceLease(ownerId, Restoring);
    var acquired := lease.Acquire(dir, process);
    if !acquired { return NotAcquired; }
    var attempt := Attempt(false, true, false);
    if payload.Some? {
      assert dir.Traced(payload.value);
      attempt := AttemptRestore(dir, payload.value, intact);
      FileStepsKeepFence(dir.trace, payload.value);
    }
    var cleared := false;
    if attempt.safeToClear { cleared := lease.CompleteRestore(dir); }
    lease.Release(dir, process);
    outcome := if attempt.incomplete then Incomplete
               else if !cleared then Stuck
               else if attempt.installed then Installed
               else Refused;
  }

  lemma {:induction false} FileStepsKeepFence(trace: seq<Disk>, backup: Directory)
    requires trace != []
    requires forall k :: 0 <= k < |trace| - 1 ==> IsFileStep(trace[k], trace[k + 1], backup)
    ensures forall k :: 0 <= k < |trace| ==> trace[k].restoreRequired == trace[0].restoreRequired
  {
    if |trace| > 1 {
      var prefix := trace[..|trace| - 1];
      FileStepsKeepFence(prefix, backup);
      assert prefix[|prefix| - 1] == trace[|trace| - 2];
      assert IsFileStep(trace[|trace| - 2], trace[|trace| - 1], backup);
    }
  }

  // ---- The tool's operations are a run of the protocol ------------------------

  lemma {:induction false} TraceIsRun(w: World, id: nat, trace: seq<Disk>) returns (steps: seq<Step>)
    requires id in w.leases && w.leases[id].kind.Restoring? && w.disk.restoreRequired
    requires trace != [] && trace[0] == w.disk
    requires forall k :: 0 <= k < |trace| - 1 ==> IsFileStep(trace[k], trace[k + 1], w.leases[id].backup)
    ensures IsRun(w, steps) && After(w, steps) == w.(disk := trace[|trace| - 1])
    decreases |trace|
  {
    if |trace| == 1 {
      steps := [];
    } else {
      var backup := w.leases[id].backup;
      assert IsFileStep(trace[0], trace[1], backup);
      var op :| CanDo(trace[0], op, backup) && Do(trace[0], op, backup) == trace[1];
      DoKeepsFence(trace[0], op, backup);
      var step := RestoreFiles(id, op);
      var rest := TraceIsRun(Next(w, step), id, trace[1..]);
      steps := [step] + rest;
      assert steps[1..] == rest;
    }
  }

  // The whole command is a run: it takes the lease, does its file operations,
  // clears the fence if its contract says so, and releases. trace, end and
  // payload are those of RestoreBackup. So what the protocol demands before the
  // fence may fall is what the tool delivers, and the safety theorems hold of it.
  lemma ToolIsRun(w: World, id: nat, pid: nat, backup: Directory, payload: Option<Directory>, trace: seq<Disk>, end: Disk)
    returns (steps: seq<Step>)
    requires Inv(w) && id !in w.leases && pid !in w.heldInodes && w.locked.None? && !w.disk.restoreRequired
    requires VerifiedBackup(backup) && (payload.Some? ==> payload.value == backup)
    requires ProtocolTrace(trace, w.disk, end, payload)
    requires !end.restoreRequired ==> end.data == w.disk.data || (payload.Some? && end.data == payload.value)
    ensures IsRun(w, steps) && Inv(After(w, steps))
    ensures After(w, steps).disk == end && After(w, steps).locked.None? && After(w, steps).leases == w.leases
  {
    var held := Next(w, Acquire(id, pid, Restoring, backup));
    StepKeepsInv(w, Acquire(id, pid, Restoring, backup));
    var files := TraceIsRun(held, id, trace);
    RunKeepsInv(held, files);
    var done := After(held, files);
    var last: seq<Step> := if end.restoreRequired then [Release(id)] else [CompleteRestore(id), Release(id)];
    ClosingIsRun(done, id, last);
    RunsJoin(held, files, last);
    steps := [Acquire(id, pid, Restoring, backup)] + (files + last);
    assert steps[1..] == files + last;
    assert After(w, steps) == After(held, files + last) == After(done, last);
    RunKeepsInv(done, last);
    assert done.leases - {id} == w.leases;
  }

  lemma ClosingIsRun(w: World, id: nat, last: seq<Step>)
    requires Inv(w) && id in w.leases && w.leases[id].kind.Restoring? && w.disk.restoreRequired
    requires last == [Release(id)]
          || (last == [CompleteRestore(id), Release(id)] && MayClearFence(w.disk, w.leases[id].original, w.leases[id].backup))
    ensures IsRun(w, last)
    ensures var end := After(w, last);
            && end.disk == w.disk.(restoreRequired := last == [Release(id)])
            && end.locked.None? && end.leases == w.leases - {id}
  {
    if |last| == 1 {
      assert last[1..] == [];
    } else {
      var cleared := Next(w, CompleteRestore(id));
      assert last[1..] == [Release(id)] && last[1..][1..] == [];
      assert After(cleared, [Release(id)]) == Next(cleared, Release(id)) by {
        assert [Release(id)][1..] == [];
      }
    }
  }

  lemma {:induction false} RunsJoin(w: World, first: seq<Step>, second: seq<Step>)
    requires IsRun(w, first) && IsRun(After(w, first), second)
    ensures IsRun(w, first + second) && After(w, first + second) == After(After(w, first), second)
    decreases |first|
  {
    if first == [] {
      assert first + second == second;
    } else {
      RunsJoin(Next(w, first[0]), first[1..], second);
      assert (first + second)[1..] == first[1..] + second;
    }
  }

  // Let the restoring process die after any operation of the tool, the last
  // one included: from then on, whatever processes try, no lease is taken and
  // the directory stays as the dead process left it.
  lemma ToolDeathSealsDirectory(w: World, id: nat, trace: seq<Disk>, died: nat, later: seq<Step>)
    requires Inv(w) && id in w.leases && w.leases[id].kind.Restoring? && w.disk.restoreRequired
    requires died < |trace| && trace[0] == w.disk
    requires forall k :: 0 <= k < |trace| - 1 ==> IsFileStep(trace[k], trace[k + 1], w.leases[id].backup)
    requires IsRun(Next(w.(disk := trace[died]), Crash(w.leases[id].pid)), later)
    ensures var end := After(Next(w.(disk := trace[died]), Crash(w.leases[id].pid)), later);
            && end.leases == map[]
            && end.disk == trace[died]
            && end.disk.restoreRequired
  {
    var steps := TraceIsRun(w, id, trace[..died + 1]);
    RunKeepsInv(w, steps);
    var dying := w.(disk := trace[died]);
    assert After(w, steps) == dying;
    FileStepsKeepFence(trace, w.leases[id].backup);
    StepKeepsInv(dying, Crash(w.leases[id].pid));
    var dead := Next(dying, Crash(w.leases[id].pid));
    assert dead.leases == map[];
    FenceSurvivesCrash(dead, later);
  }
}
