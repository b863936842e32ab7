// Offline restore and the instance guard as a protocol between processes:
// who may hold the data directory, and what a crash or a failed rename can
// leave in it (apps/server/src/restore.ts, apps/server/src/instance-lease.ts).
module RestoreProtocol {
  import opened Results

  // The critical files of the data directory.
  datatype Name = Sqlite | Wal | Shm | Journal | Secret

  // A file is known by the lineage its contents belong to (the running
  // instance or one backup) and by its identity on disk.
  datatype File = File(origin: nat, serial: nat)

  type Directory = map<Name, File>

  datatype Place = Data | Staging | Rollback

  datatype Disk = Disk(
    data: Directory,
    staging: Option<Directory>,
    rollback: Option<Directory>,
    restoreRequired: bool)

  const REPLACEMENTS: seq<Name> := [Sqlite, Secret]

  predicate OneOrigin(files: Directory, origin: nat)
  {
    forall name :: name in files ==> files[name].origin == origin
  }

  // What decryption and validation establish about a payload.
  predicate VerifiedBackup(backup: Directory)
  {
    backup.Keys == {Sqlite, Secret} && backup[Sqlite].origin == backup[Secret].origin
  }

  // ---- Single file operations of a restore ---------------------------------

  function Contents(d: Disk, place: Place): Option<Directory>
  {
    match place
    case Data => Some(d.data)
    case Staging => d.staging
    case Rollback => d.rollback
  }

  function WithContents(d: Disk, place: Place, files: Directory): Disk
  {
    match place
    case Data => d.(data := files)
    case Staging => d.(staging := Some(files))
    case Rollback => d.(rollback := Some(files))
  }

  predicate CanRename(d: Disk, from: Place, to: Place, name: Name)
  {
    && from != to
    && Contents(d, from).Some? && name in Contents(d, from).value
    && Contents(d, to).Some?
  }

  function Renamed(d: Disk, from: Place, to: Place, name: Name): Disk
    requires CanRename(d, from, to, name)
  {
    var source := Contents(d, from).value;
    var target := Contents(d, to).value;
    WithContents(WithContents(d, from, source - {name}), to, target[name := source[name]])
  }

  datatype FileOp =
    | MakeStaging
    | StageEntry(entry: Name)
    | MakeRollback
    | Rename(from: Place, to: Place, name: Name)
    // A recursive removal that may stop part of the way.
    | RemoveStaging(left: Option<Directory>)
    | RemoveRollback(left: Option<Directory>)

  predicate PartOf(left: Option<Directory>, whole: Option<Directory>)
  {
    left.Some? ==>
      && whole.Some?
      && forall name :: name in left.value ==> name in whole.value && left.value[name] == whole.value[name]
  }

  predicate CanDo(d: Disk, op: FileOp, backup: Directory)
  {
    match op
    case MakeStaging => d.staging.None?
    case StageEntry(name) => d.staging.Some? && name in backup && name !in d.staging.value
    case MakeRollback => d.rollback.None?
    case Rename(from, to, name) => CanRename(d, from, to, name)
    case RemoveStaging(left) => PartOf(left, d.staging)
    case RemoveRollback(left) => PartOf(left, d.rollback)
  }

  function Do(d: Disk, op: FileOp, backup: Directory): Disk
    requires CanDo(d, op, backup)
  {
    match op
    case MakeStaging => d.(staging := Some(map[]))
    case StageEntry(name) => d.(staging := Some(d.staging.value[name := backup[name]]))
    case MakeRollback => d.(rollback := Some(map[]))
    case Rename(from, to, name) => Renamed(d, from, to, name)
    case RemoveStaging(left) => d.(staging := left)
    case RemoveRollback(left) => d.(rollback := left)
  }

  // The fence may be cleared only over a directory that is whole again.
  predicate MayClearFence(d: Disk, original: Directory, backup: Directory)
  {
    d.data == original || d.data == backup
  }

  // ---- Processes -----------------------------------------------------------

  datatype Kind = Runtime | Restoring

  // A lease object that believes it holds the guard. The original is what the
  // data directory held when the lease was taken.
  datatype Lease = Lease(pid: nat, kind: Kind, original: Directory, backup: Directory)

  // locked is the operating system's lock on the guard file; heldInodes are
  // the processes that registered the guard as open. image and lineage are
  // the last whole contents of the data directory and where they come from.
  datatype World = World(
    disk: Disk,
    locked: Option<nat>,
    heldInodes: set<nat>,
    leases: map<nat, Lease>,
    image: Directory,
    lineage: nat)

  datatype Step =
    | Acquire(id: nat, pid: nat, kind: Kind, backup: Directory)
    // An attempt that opens the guard file and gives up, for any reason.
    | AcquireFails(pid: nat)
    | RuntimeWrites(id: nat, files: Directory)
    | RestoreFiles(id: nat, op: FileOp)
    | CompleteRestore(id: nat)
    | Release(id: nat)
    | Crash(pid: nat)
    // The operator tidies leftover directories while nothing runs.
    | Tidy

  predicate Enabled(w: World, step: Step)
  {
    match step
    case Acquire(id, pid, kind, backup) =>
      && id !in w.leases && pid !in w.heldInodes
      && w.locked.None? && !w.disk.restoreRequired
      && VerifiedBackup(backup)
    case AcquireFails(pid) => pid !in w.heldInodes
    case RuntimeWrites(id, files) =>
      id in w.leases && w.leases[id].kind.Runtime? && OneOrigin(files, w.lineage)
    case RestoreFiles(id, op) =>
      && id in w.leases && w.leases[id].kind.Restoring?
      && w.disk.restoreRequired
      && CanDo(w.disk, op, w.leases[id].backup)
    case CompleteRestore(id) =>
      && id in w.leases && w.leases[id].kind.Restoring?
      && w.disk.restoreRequired
      && VerifiedBackup(w.leases[id].backup)
      && MayClearFence(w.disk, w.leases[id].original, w.leases[id].backup)
    case Release(id) => id in w.leases
    case Crash(pid) => true
    case Tidy => w.locked.None? && !w.disk.restoreRequired
  }

  // Closing any descriptor of the guard drops the locks its process has on it.
  function LockAfterClose(locked: Option<nat>, pid: nat): Option<nat>
  {
    if locked == Some(pid) then None else locked
  }

  function Next(w: World, step: Step): World
    requires Enabled(w, step)
  {
    match step
    case Acquire(id, pid, kind, backup) =>
      w.(locked := Some(pid),
         heldInodes := w.heldInodes + {pid},
         leases := w.leases[id := Lease(pid, kind, w.disk.data, backup)],
         disk := w.disk.(restoreRequired := kind.Restoring?))
    case AcquireFails(pid) =>
      w.(locked := LockAfterClose(w.locked, pid))
    case RuntimeWrites(id, files) =>
      w.(disk := w.disk.(data := files), image := files)
    case RestoreFiles(id, op) =>
      w.(disk := Do(w.disk, op, w.leases[id].backup))
    case CompleteRestore(id) =>
      w.(disk := w.disk.(restoreRequired := false),
         image := w.disk.data,
         lineage := if w.disk.data == w.leases[id].original then w.lineage
                    else w.leases[id].backup[Sqlite].origin)
    case Release(id) =>
      w.(leases := w.leases - {id},
         locked := LockAfterClose(w.locked, w.leases[id].pid),
         heldInodes := w.heldInodes - {w.leases[id].pid})
    case Crash(pid) =>
      w.(leases := map id | id in w.leases && w.leases[id].pid != pid :: w.leases[id],
         locked := LockAfterClose(w.locked, pid),
         heldInodes := w.heldInodes - {pid})
    case Tidy =>
      w.(disk := w.disk.(staging := None, rollback := None))
  }

  predicate Init(w: World)
  {
    && w.locked.None? && w.heldInodes == {} && w.leases == map[]
    && !w.disk.restoreRequired
    && w.image == w.disk.data && OneOrigin(w.image, w.lineage)
  }

  // ---- Safety over every run -----------------------------------------------

  // A runtime that holds the guard sees exactly the last whole contents, all of
  // one lineage; anything else is behind the fence; two leases never coexist.
  ghost predicate Safe(w: World)
  {
    && (forall id :: id in w.leases && w.leases[id].kind.Runtime? ==>
          !w.disk.restoreRequired && w.disk.data == w.image && OneOrigin(w.disk.data, w.lineage))
    && (w.disk.data != w.image ==> w.disk.restoreRequired)
    && (forall a, b :: a in w.leases && b in w.leases ==> a == b)
    && (forall id :: id in w.leases ==> w.locked == Some(w.leases[id].pid))
  }

  ghost predicate Inv(w: World)
  {
    && Safe(w)
    && OneOrigin(w.image, w.lineage)
    && (w.locked.Some? ==> w.locked.value in w.heldInodes)
    && (forall id :: id in w.leases ==> VerifiedBackup(w.leases[id].backup))
    && (forall id :: id in w.leases && w.leases[id].kind.Restoring? && w.disk.restoreRequired ==>
          w.leases[id].original == w.image)
  }

  lemma DoKeepsFence(d: Disk, op: FileOp, backup: Directory)
    requires CanDo(d, op, backup)
    ensures Do(d, op, backup).restoreRequired == d.restoreRequired
  {}

  lemma StepKeepsInv(w: World, step: Step)
    requires Inv(w) && Enabled(w, step)
    ensures Inv(Next(w, step))
  {
    match step
    case RestoreFiles(id, op) => DoKeepsFence(w.disk, op, w.leases[id].backup);
    case CompleteRestore(id) => assert w.leases[id].original == w.image;
    case _ =>
  }

  // A run is a list of steps; a step that is not enabled cannot be taken.
  ghost predicate IsRun(w: World, steps: seq<Step>)
    decreases |steps|
  {
    steps == [] || (Enabled(w, steps[0]) && IsRun(Next(w, steps[0]), steps[1..]))
  }

  ghost function After(w: World, steps: seq<Step>): World
    requires IsRun(w, steps)
    decreases |steps|
  {
    if steps == [] then w else After(Next(w, steps[0]), steps[1..])
  }

  lemma {:induction false} RunKeepsInv(w: World, steps: seq<Step>)
    requires Inv(w) && IsRun(w, steps)
    ensures Inv(After(w, steps))
    decreases |steps|
  {
    if steps != [] {
      StepKeepsInv(w, steps[0]);
      RunKeepsInv(Next(w, steps[0]), steps[1..]);
    }
  }

  lemma EveryRunIsSafe(w: World, steps: seq<Step>)
    requires Init(w) && IsRun(w, steps)
    ensures Safe(After(w, steps))
  {
    RunKeepsInv(w, steps);
  }

  // The origins of the backups that restore processes bring into a run.
  ghost function BroughtIn(steps: seq<Step>): set<nat>
  {
    if steps == [] then {}
    else
      (match steps[0]
       case Acquire(_, _, Restoring, backup) => if VerifiedBackup(backup) then {backup[Sqlite].origin} else {}
       case _ => {})
      + BroughtIn(steps[1..])
  }

  ghost predicate LeasesFrom(w: World, origins: set<nat>)
  {
    forall id :: id in w.leases && w.leases[id].kind.Restoring? ==>
      VerifiedBackup(w.leases[id].backup) && w.leases[id].backup[Sqlite].origin in origins
  }

  // The contents a run ends with are those of the instance it started with or
  // of one backup a restore process of this run verified.
  lemma {:induction false} LineageIsOriginalOrBackup(w: World, steps: seq<Step>, origins: set<nat>)
    requires Inv(w) && IsRun(w, steps) && LeasesFrom(w, origins) && w.lineage in origins
    ensures After(w, steps).lineage in origins + BroughtIn(steps)
    decreases |steps|
  {
    if steps != [] {
      var next := Next(w, steps[0]);
      StepKeepsInv(w, steps[0]);
      var more := origins + BroughtIn([steps[0]]);
      assert BroughtIn(steps) == BroughtIn([steps[0]]) + BroughtIn(steps[1..]) by {
        assert [steps[0]][1..] == [];
      }
      LineageIsOriginalOrBackup(next, steps[1..], more);
    }
  }

  // A fenced directory stays closed: once a restoring process dies with the
  // fence set, no lease is ever taken again and the files stay as they are.
  lemma {:induction false} FenceSurvivesCrash(w: World, steps: seq<Step>)
    requires Inv(w) && w.disk.restoreRequired && w.leases == map[] && IsRun(w, steps)
    ensures After(w, steps).leases == map[]
    ensures After(w, steps).disk == w.disk
    decreases |steps|
  {
    if steps != [] {
      StepKeepsInv(w, steps[0]);
      var next := Next(w, steps[0]);
      assert next.leases == map[];
      FenceSurvivesCrash(next, steps[1..]);
    }
  }

  // Registering the open guard per process is what makes the lock last: were a
  // second attempt in a holder's process allowed to open and close the file, the
  // lock would be gone while the holder still believes in it, and any other
  // process could take the guard as well unless the fence is up.
  lemma DuplicateOpenWouldLoseLock(w: World, id: nat, other: nat, pid: nat, kind: Kind, backup: Directory)
    requires Inv(w) && id in w.leases && other !in w.leases
    requires pid !in w.heldInodes && VerifiedBackup(backup)
    ensures var dropped := w.(locked := LockAfterClose(w.locked, w.leases[id].pid));
            && !Safe(dropped)
            && (Enabled(dropped, Acquire(other, pid, kind, backup)) <==> !w.disk.restoreRequired)
            && (!w.disk.restoreRequired ==>
                  id in Next(dropped, Acquire(other, pid, kind, backup)).leases
                  && other in Next(dropped, Acquire(other, pid, kind, backup)).leases)
  {
    var dropped := w.(locked := LockAfterClose(w.locked, w.leases[id].pid));
    assert id in dropped.leases && dropped.locked != Some(dropped.leases[id].pid);
  }
}
