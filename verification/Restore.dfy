/**
 The restore transaction of internal/checkpoint/restore.go over one target root.

 Three things live apart, as they do in the source: the directories on disk (target, backup and
 failed), the persisted record, and the in-memory record a running call carries. Every effectful
 step asks an oracle whether it works, fails, or is where the agent dies. A crash at a step falls
 before that step's effect, so a crash after an effect is a crash at the step that follows it.
 */
module Restore {
  import opened Wrappers

  /** A directory tree. Only equality and emptiness matter: rename(2) refuses a non-empty destination. */
  datatype Tree = Dir(entries: set<int>)

  datatype State = Preparing | FilesystemSwitched | ProcessRunning | Validated | Committed | RollingBack | RolledBack

  /** hasBackup is "BackupRoot is not the empty string"; the path itself never varies in one transaction. */
  datatype Record = Record(state: State, hasBackup: bool)

  datatype Disk = Disk(target: Option<Tree>, backup: Option<Tree>, failed: Option<Tree>)

  datatype Fault = Fine | Fails | Crashes

  datatype PrepareStep =
    | PutPreparing | Stage | LstatRoot | PutBackup | RenameToBackup | PutFresh
    | OpenStaging | RenameIn | CloneTree | RemovePartial | RemoveStaged | RenameBackupBack
    | SyncSwitch | PutSwitched | RegisterWorkload | PutRegistered | StartProcess
    | PutRunning | Validate | PutValidated

  datatype RollbackStep =
    | PutRollingBack | StopWorkload | LstatBackup | PinTarget | LstatTarget | MoveAside | RenameBack
    | Reinstate | PutRolledBack | SyncParent | RemoveFailed

  datatype CommitStep = ReapSource | RemoveBackup | RemoveStaging | PutCommitted

  /** How a rollback ended: completed, or stopped at a step by an error or by a crash. */
  datatype Exit = Completed | Stopped(at: RollbackStep, crashed: bool)

  datatype CommitExit = CommitDone | CommitRefused | CommitStopped(at: CommitStep)

  /** How the steps of Prepare ended, with the in-memory record where one survives. */
  datatype Progress = Refused | Ready(record: Record) | Broken(record: Record) | Died

  // ---------------------------------------------------------------- what a rollback decides on

  predicate BackupOnDisk(d: Disk, record: Record) {
    record.hasBackup && d.backup.Some?
  }

  predicate CountsAsSwitched(state: State) {
    state.FilesystemSwitched? || state.ProcessRunning? || state.Validated? || state.RollingBack?
  }

  predicate Terminal(state: State) {
    state.Committed? || state.RolledBack?
  }

  /** The interruption points of a rollback at which the backup has not been renamed back yet. */
  predicate BeforeRenameBack(at: RollbackStep) {
    || at.PutRollingBack? || at.StopWorkload? || at.LstatBackup?
    || at.PinTarget? || at.LstatTarget? || at.MoveAside? || at.RenameBack?
  }

  /** The persisted record a rollback leaves when it is stopped at a step. */
  ghost function Interrupted(at: RollbackStep, env: RollbackStep -> Fault, record: Record, before: Record): Record {
    if at == SyncParent then record.(state := RolledBack)
    else if env(PutRollingBack).Fine? then record.(state := RollingBack)
    else before
  }

  /** A rollback stops only where the oracle says so, or where the name to move the tree aside to is taken. */
  ghost predicate StopsAt(exit: Exit, env: RollbackStep -> Fault)
    requires exit.Stopped?
  {
    && (exit.crashed <==> env(exit.at).Crashes?)
    && (env(exit.at).Fine? ==> exit.at.MoveAside?)
    && (exit.at.PutRollingBack? || exit.at.StopWorkload? || exit.at.LstatBackup? || exit.at.Reinstate? ==> exit.crashed)
    && !exit.at.RemoveFailed?
  }

  /**
   Where a completed rollback leaves the target, and whether the backup was consumed. seen is whether the Lstat
   of the backup worked: any error of it reads as "no backup".
   */
  function Undo(d: Disk, record: Record, seen: bool): Disk {
    if BackupOnDisk(d, record) && seen then Disk(d.backup, None, d.failed)
    else if CountsAsSwitched(record.state) then Disk(None, d.backup, d.failed)
    else d
  }

  /** Nothing stops a rollback entered on this disk and record, the name to move the target aside to included. */
  ghost predicate RollbackFine(env: RollbackStep -> Fault, d: Disk, record: Record) {
    var found := BackupOnDisk(d, record) && env(LstatBackup).Fine?;
    && !env(PutRollingBack).Crashes? && !env(StopWorkload).Crashes? && !env(LstatBackup).Crashes?
    && (found || CountsAsSwitched(record.state) ==> SwitchBackFine(env, d, found))
    && !env(Reinstate).Crashes? && env(PutRolledBack).Fine? && env(SyncParent).Fine?
  }

  ghost predicate SwitchBackFine(env: RollbackStep -> Fault, d: Disk, found: bool) {
    && env(PinTarget).Fine? && env(LstatTarget).Fine?
    && (d.target.Some? ==> env(MoveAside).Fine? && CanRename(d.target, d.failed))
    && (found ==> env(RenameBack).Fine?)
  }

  /** Nothing stops a Commit of a validated record. */
  ghost predicate CommitFine(env: CommitStep -> Fault, record: Record) {
    && !env(ReapSource).Crashes? && (record.hasBackup ==> env(RemoveBackup).Fine?)
    && !env(RemoveStaging).Crashes? && env(PutCommitted).Fine?
  }

  /** Nothing stops the recovery of one record. */
  ghost predicate RecoverFine(undo: RollbackStep -> Fault, commit: CommitStep -> Fault, alive: bool, d: Disk, record: Record) {
    if Terminal(record.state) then true
    else if record.state.Validated? && alive then CommitFine(commit, record)
    else RollbackFine(undo, d, record)
  }

  /** The fault of two steps in a row. */
  function Then(first: Fault, second: Fault): Fault {
    if first.Fine? then second else first
  }

  /** How materializeRootAt ends. A crash while a partial copy is removed is a crash, a failed removal is not told apart. */
  ghost function MaterializeFault(env: PrepareStep -> Fault, crossDevice: bool): Fault {
    Then(env(OpenStaging),
         if !env(RenameIn).Fails? || !crossDevice then env(RenameIn)
         else match env(CloneTree)
           case Fine => env(RemoveStaged)
           case Crashes => Crashes
           case Fails => if env(RemovePartial).Crashes? then Crashes else Fails)
  }

  /** How the switch ends; after a failed materialize the backup is renamed back, which may be where the agent dies. */
  ghost function SwitchFault(env: PrepareStep -> Fault, crossDevice: bool, present: bool): Fault {
    var materialize := MaterializeFault(env, crossDevice);
    Then(env(LstatRoot),
         if !present then Then(env(PutFresh), materialize)
         else Then(env(PutBackup), Then(env(RenameToBackup),
                   if materialize.Fails? && env(RenameBackupBack).Crashes? then Crashes else materialize)))
  }

  ghost function StartFault(env: PrepareStep -> Fault): Fault {
    Then(env(SyncSwitch), Then(env(PutSwitched), Then(env(RegisterWorkload), Then(env(PutRegistered),
         Then(env(StartProcess), Then(env(PutRunning), Then(env(Validate), env(PutValidated))))))))
  }

  /** How Prepare ends: the first of its steps that does not work decides. */
  ghost function PrepareFault(env: PrepareStep -> Fault, crossDevice: bool, present: bool): Fault {
    Then(env(PutPreparing), Then(env(Stage), Then(SwitchFault(env, crossDevice, present), StartFault(env))))
  }

  /** The persisted record when the steps after the switch end: the last write that worked. */
  ghost function StartRecord(env: PrepareStep -> Fault, before: Option<Record>, switched: Record): Option<Record> {
    if !Then(env(SyncSwitch), env(PutSwitched)).Fine? then before
    else if !Then(env(RegisterWorkload), Then(env(PutRegistered), Then(env(StartProcess), env(PutRunning)))).Fine? then Some(switched)
    else if !Then(env(Validate), env(PutValidated)).Fine? then Some(switched.(state := ProcessRunning))
    else Some(switched.(state := Validated))
  }

  /** What becomes of the tree a rollback moves aside: removed at the end unless the agent died or the removal fails. */
  ghost function FailedAfter(d: Disk, record: Record, env: RollbackStep -> Fault, exit: Exit): Option<Tree> {
    var moves := (BackupOnDisk(d, record) && env(LstatBackup).Fine?) || CountsAsSwitched(record.state);
    if !moves || d.target.None? || (exit.Stopped? && BeforeRenameBack(exit.at) && !exit.at.RenameBack?) then d.failed
    else if (exit.Completed? || !exit.crashed) && env(RemoveFailed).Fine? then None
    else d.target
  }

  /** materializeRootAt succeeds: the rename worked, or it crossed devices and the copy and its clean-up worked. */
  ghost predicate MaterializeFine(env: PrepareStep -> Fault, crossDevice: bool) {
    && env(OpenStaging).Fine?
    && (|| env(RenameIn).Fine?
        || (env(RenameIn).Fails? && crossDevice && env(CloneTree).Fine? && env(RemoveStaged).Fine?))
  }

  ghost predicate SwitchFine(env: PrepareStep -> Fault, crossDevice: bool, present: bool) {
    && env(LstatRoot).Fine?
    && (if present then env(PutBackup).Fine? && env(RenameToBackup).Fine? else env(PutFresh).Fine?)
    && MaterializeFine(env, crossDevice)
  }

  /** Nothing Prepare does goes wrong. */
  ghost predicate PrepareFine(env: PrepareStep -> Fault, crossDevice: bool, present: bool) {
    env(PutPreparing).Fine? && env(Stage).Fine? && SwitchFine(env, crossDevice, present) && StartFine(env)
  }

  ghost predicate StartFine(env: PrepareStep -> Fault) {
    && env(SyncSwitch).Fine? && env(PutSwitched).Fine? && env(RegisterWorkload).Fine? && env(PutRegistered).Fine?
    && env(StartProcess).Fine? && env(PutRunning).Fine? && env(Validate).Fine? && env(PutValidated).Fine?
  }

  /**
   What a Commit stopped at a step leaves on disk. Removing a tree is not atomic: stopped there, it
   leaves some remains of the backup.
   */
  function AfterCommit(d: Disk, record: Record, at: CommitStep, remains: Option<Tree>): Disk {
    if !record.hasBackup || at == ReapSource then d
    else d.(backup := if at == RemoveBackup then remains else None)
  }

  predicate CanRename(source: Option<Tree>, destination: Option<Tree>) {
    source.Some? && (destination.None? || destination.value.entries == {})
  }

  // ---------------------------------------------------------------- invariants

  /** The original tree is still somewhere a rollback can reach. */
  ghost predicate Kept(original: Option<Tree>, d: Disk) {
    d.target == original || d.backup == original
  }

  /** The three shapes an interrupted Prepare leaves: nothing moved, the original aside, a fresh target. */
  ghost predicate Undoable(original: Option<Tree>, d: Disk, record: Record) {
    || (d.target == original && d.backup.None? && record.state == Preparing)
    || (original.Some? && d.backup == original && record.hasBackup)
    || (original.None? && d.backup.None? && CountsAsSwitched(record.state))
  }

  /** What the persisted record and the disk agree on in every reachable state before Commit starts. */
  ghost predicate Tracks(original: Option<Tree>, d: Disk, record: Record) {
    && (d.backup.Some? ==> d.backup == original && record.hasBackup)
    && (record.state == Preparing ==> Undoable(original, d, record))
    && (original.None? && record.state == RolledBack ==> d.target.None?)
  }

  /** A rollback entered now gives the original back: it finds the backup, or nothing was switched or moved. */
  ghost predicate Reentrant(original: Option<Tree>, d: Disk, record: Record, seen: bool) {
    (BackupOnDisk(d, record) && seen) || (record.state == Preparing && d.target == original)
  }

  /** No rollback entered now can lose the original, wherever it stops. */
  predicate Salvageable(d: Disk, record: Record) {
    BackupOnDisk(d, record) || record.state == Preparing
  }

  // ---------------------------------------------------------------- laws of the rollback decision

  /** One completed rollback that can see the backup undoes every shape an interrupted Prepare can leave. */
  lemma UndoRestores(original: Option<Tree>, d: Disk, record: Record)
    requires Undoable(original, d, record)
    ensures Undo(d, record, true).target == original
  {
  }

  /** Re-entry is exact: an originally present root survives if and only if the rollback is Reentrant. */
  lemma ReentryIff(original: Option<Tree>, d: Disk, record: Record, seen: bool)
    requires Tracks(original, d, record) && original.Some?
    requires !Terminal(record.state)
    ensures Undo(d, record, seen).target == original <==> Reentrant(original, d, record, seen)
  {
  }

  /** The failing family, concretely: nothing was moved, ROLLING_BACK was written, the agent died, the root is lost. */
  lemma ReentryLosesUntouchedRoot(tree: Tree, seen: bool)
    ensures var d := Disk(Some(tree), None, None);
            && Undo(d, Record(Preparing, true), seen).target == Some(tree)
            && Undo(d, Record(RollingBack, true), seen).target == None
  {
  }

  /**
   The other failing family: the Lstat of the backup fails. From PREPARING nothing comes back, from
   FILESYSTEM_SWITCHED the restored tree goes too. The original stays under its backup name, and since the
   record then reads ROLLED_BACK no later start looks at it again.
   */
  lemma UnseenBackupStaysAside(tree: Tree, restored: Tree)
    ensures var d := Disk(None, Some(tree), None);
            Undo(d, Record(Preparing, true), false) == d
    ensures var d := Disk(Some(restored), Some(tree), None);
            Undo(d, Record(FilesystemSwitched, true), false) == Disk(None, Some(tree), None)
  {
  }

  /** The commit window: once Commit has started on the backup, a rollback no longer gives the original back. */
  lemma CommitWindowIff(original: Option<Tree>, d: Disk, at: CommitStep, remains: Option<Tree>, seen: bool)
    requires original.Some? && d.backup == original
    ensures var record := Record(Validated, true);
            Undo(AfterCommit(d, record, at, remains), record, seen).target == original
            <==> seen && (at == ReapSource || (at == RemoveBackup && remains == original))
  {
  }

  // ---------------------------------------------------------------- restart after restart

  /** Where the original is between two starts: aside as the backup, back but not recorded so, or past saving. */
  datatype Fate = Aside | Back | Doomed

  /** The start saw the backup and stopped after renaming it back, before ROLLED_BACK was written. */
  predicate RenamedUnrecorded(exit: Exit, undo: RollbackStep -> Fault) {
    exit.Stopped? && (exit.at.Reinstate? || exit.at.PutRolledBack?) && undo(LstatBackup).Fine?
  }

  /** What an interrupted start does to the original; preparing is whether the record still reads PREPARING after it. */
  function NextFate(fate: Fate, exit: Exit, undo: RollbackStep -> Fault, preparing: bool): Fate {
    if fate.Aside? && !RenamedUnrecorded(exit, undo) then Aside
    else if !fate.Doomed? && preparing then Back
    else Doomed
  }

  /** The record still reads PREPARING: it did, and no start managed to write ROLLING_BACK. */
  ghost predicate StillPreparing(preparing: bool, undos: seq<RollbackStep -> Fault>) {
    preparing && forall j | 0 <= j < |undos| :: !undos[j](PutRollingBack).Fine?
  }

  /** Where the original is when the first start finds this disk and record. */
  function StartFate(d: Disk, record: Record): Fate {
    if BackupOnDisk(d, record) then Aside else if record.state == Preparing then Back else Doomed
  }

  ghost function FateOf(start: Fate, preparing: bool, undos: seq<RollbackStep -> Fault>, exits: seq<Exit>): Fate
    requires |exits| == |undos|
    decreases |exits|
  {
    if exits == [] then start
    else
      var n := |exits| - 1;
      NextFate(FateOf(start, preparing, undos[..n], exits[..n]), exits[n], undos[n], StillPreparing(preparing, undos))
  }

  /** From a switched record: the original is still aside if and only if no start renamed it back without recording it. */
  lemma {:induction false} FateIff(undos: seq<RollbackStep -> Fault>, exits: seq<Exit>)
    requires |exits| == |undos|
    ensures FateOf(Aside, false, undos, exits).Aside? <==> forall j | 0 <= j < |exits| :: !RenamedUnrecorded(exits[j], undos[j])
    ensures !FateOf(Aside, false, undos, exits).Back?
    decreases |exits|
  {
    if exits != [] {
      var n := |exits| - 1;
      FateIff(undos[..n], exits[..n]);
      assert forall j | 0 <= j < n :: exits[..n][j] == exits[j] && undos[..n][j] == undos[j];
    }
  }

  /** From an untouched root: it is safe exactly as long as no start manages to write ROLLING_BACK. */
  lemma {:induction false} UntouchedFate(undos: seq<RollbackStep -> Fault>, exits: seq<Exit>)
    requires |exits| == |undos|
    ensures FateOf(Back, true, undos, exits) == if StillPreparing(true, undos) then Back else Doomed
    decreases |exits|
  {
    if exits != [] {
      var n := |exits| - 1;
      UntouchedFate(undos[..n], exits[..n]);
      assert StillPreparing(true, undos) ==> StillPreparing(true, undos[..n]);
    }
  }

  lemma {:induction false} DoomedFate(preparing: bool, undos: seq<RollbackStep -> Fault>, exits: seq<Exit>)
    requires |exits| == |undos|
    ensures FateOf(Doomed, preparing, undos, exits).Doomed?
    decreases |exits|
  {
    if exits != [] {
      DoomedFate(preparing, undos[..|exits| - 1], exits[..|exits| - 1]);
    }
  }

  class Transaction {
    ghost const original: Option<Tree>
    const restored: Tree
    var target: Option<Tree>
    var backup: Option<Tree>
    var failed: Option<Tree>
    var persisted: Option<Record>

    ghost function View(): Disk
      reads this
    {
      Disk(target, backup, failed)
    }

    /** Holds before, between and after every call up to the start of Commit. */
    ghost predicate Valid()
      reads this
    {
      && (persisted.None? ==> target == original && backup.None?)
      && (persisted.Some? ==> Tracks(original, View(), persisted.value))
    }

    /** A session id is fresh, so neither its backup nor its failed name exists yet. */
    constructor (root: Option<Tree>, staged: Tree)
      ensures Valid() && original == root && restored == staged
      ensures target == root && backup.None? && failed.None? && persisted.None?
    {
      original, restored := root, staged;
      target, backup, failed, persisted := root, None, None, None;
    }

    /**
     materializeRootAt: one rename, or across devices a copy that is removed when it fails. A crash or
     a failed removal leaves whatever part of the tree had been copied.
     */
    method Materialize(env: PrepareStep -> Fault, crossDevice: bool, partial: Option<Tree>) returns (outcome: Fault)
      requires target.None?
      modifies this`target
      ensures outcome.Fine? ==> target == Some(restored)
      ensures outcome.Fine? <==> MaterializeFine(env, crossDevice)
      ensures outcome == MaterializeFault(env, crossDevice)
      // After a failure the target is absent, unless the copy stayed because it or its staging could not be removed.
      ensures outcome.Fails? ==>
                target == if !crossDevice || !env(OpenStaging).Fine? then None
                          else if env(CloneTree).Fine? then Some(restored)
                          else if env(RemovePartial).Fine? then None else partial
    {
      if !env(OpenStaging).Fine? { return env(OpenStaging); }
      if env(RenameIn).Crashes? { return Crashes; }
      if env(RenameIn).Fine? {
        target := Some(restored);
        return Fine;
      }
      if !crossDevice { return Fails; }
      match env(CloneTree)
      case Crashes =>
        target := partial;
        return Crashes;
      case Fails =>
        target := partial;
        if env(RemovePartial).Fine? { target := None; }
        return if env(RemovePartial).Crashes? then Crashes else Fails;
      case Fine =>
        target := Some(restored);
        return env(RemoveStaged);
    }

    /** The switch: record what is about to happen, move the original aside, bring the restored tree in. */
    method Switch(start: Record, env: PrepareStep -> Fault, crossDevice: bool, partial: Option<Tree>)
      returns (outcome: Fault, record: Record)
      requires start == Record(Preparing, true) && persisted == Some(start)
      requires target == original && backup.None?
      modifies this`target, this`backup, this`persisted
      ensures Valid() && persisted.Some?
      ensures Undoable(original, View(), persisted.value) && !Terminal(persisted.value.state)
      ensures Tracks(original, View(), record) && Undoable(original, View(), record)
      ensures record.state in {Preparing, FilesystemSwitched}
      ensures outcome.Fine? <==> SwitchFine(env, crossDevice, original.Some?)
      ensures outcome == SwitchFault(env, crossDevice, original.Some?)
      // A failure undoes itself when nothing is in the way of the backup.
      ensures outcome.Fails? && !crossDevice && env(RenameBackupBack).Fine? ==> target == original && backup.None?
      ensures outcome.Fine? ==> target == Some(restored) && backup == original && record.hasBackup == original.Some?
      ensures outcome.Fine? ==> (original.None? ==> record.state == FilesystemSwitched) && persisted == Some(record)
    {
      record := start;
      if !env(LstatRoot).Fine? { return env(LstatRoot), record; }
      if target.Some? {
        if !env(PutBackup).Fine? { return env(PutBackup), record; }
        persisted := Some(record);
        if env(RenameToBackup).Crashes? { return Crashes, record; }
        if env(RenameToBackup).Fails? {
          record := record.(hasBackup := false);
          return Fails, record;
        }
        backup, target := target, None;
      } else {
        record := Record(FilesystemSwitched, false);
        if !env(PutFresh).Fine? { return env(PutFresh), record; }
        persisted := Some(record);
      }
      outcome := Materialize(env, crossDevice, partial);
      if outcome.Fails? && record.hasBackup {
        if env(RenameBackupBack).Crashes? { return Crashes, record; }
        if env(RenameBackupBack).Fine? && CanRename(backup, target) {
          target, backup := backup, None;
        }
      }
    }

    /** Everything Prepare does until it returns VALIDATED or stops; the deferred rollback is in Prepare. */
    method PrepareSteps(env: PrepareStep -> Fault, crossDevice: bool, partial: Option<Tree>) returns (progress: Progress)
      requires Valid() && persisted.None?
      modifies this`target, this`backup, this`persisted
      ensures Valid()
      ensures progress.Died? && persisted.Some? ==> Undoable(original, View(), persisted.value) && !Terminal(persisted.value.state)
      ensures progress.Broken? ==> persisted.Some? && Tracks(original, View(), progress.record)
                                   && Undoable(original, View(), progress.record)
                                   && !Terminal(progress.record.state)
      ensures progress.Refused? ==> persisted.None?
      ensures progress.Ready? ==> && persisted == Some(progress.record)
                                  && progress.record == Record(Validated, original.Some?)
                                  && target == Some(restored) && backup == original
      ensures progress.Ready? <==> PrepareFine(env, crossDevice, original.Some?)
      // A crash ends it where it is, a failure hands a record to the rollback, a failed first write refuses.
      ensures progress.Died? <==> PrepareFault(env, crossDevice, original.Some?).Crashes?
      ensures progress.Refused? <==> env(PutPreparing).Fails?
      ensures progress.Broken? <==> env(PutPreparing).Fine? && PrepareFault(env, crossDevice, original.Some?).Fails?
    {
      if env(PutPreparing).Crashes? { return Died; }
      if env(PutPreparing).Fails? { return Refused; }
      var record := Record(Preparing, true);
      persisted := Some(record);
      if !env(Stage).Fine? { return Stop(env(Stage), record); }
      var outcome;
      outcome, record := Switch(record, env, crossDevice, partial);
      if !outcome.Fine? { return Stop(outcome, record); }
      progress := StartSteps(record.(state := FilesystemSwitched), env);
    }

    /** After the switch: record it, register and start the workload, validate it. */
    method StartSteps(switched: Record, env: PrepareStep -> Fault) returns (progress: Progress)
      requires Valid() && persisted.Some? && Undoable(original, View(), persisted.value) && !Terminal(persisted.value.state)
      requires switched == Record(FilesystemSwitched, original.Some?)
      requires target == Some(restored) && backup == original
      modifies this`persisted
      ensures persisted.Some? && Tracks(original, View(), persisted.value) && Undoable(original, View(), persisted.value)
      ensures !Terminal(persisted.value.state)
      ensures progress.Broken? ==> progress.record.hasBackup == switched.hasBackup && CountsAsSwitched(progress.record.state)
      ensures progress.Ready? ==> progress.record == switched.(state := Validated) && persisted == Some(progress.record)
      ensures !progress.Refused?
      ensures progress.Ready? <==> StartFine(env)
      ensures progress.Died? <==> StartFault(env).Crashes?
      ensures persisted == StartRecord(env, old(persisted), switched)
    {
      var record := switched;
      if !env(SyncSwitch).Fine? { return Stop(env(SyncSwitch), record); }
      if !env(PutSwitched).Fine? { return Stop(env(PutSwitched), record); }
      persisted := Some(record);
      if !env(RegisterWorkload).Fine? { return Stop(env(RegisterWorkload), record); }
      if !env(PutRegistered).Fine? { return Stop(env(PutRegistered), record); }
      if !env(StartProcess).Fine? { return Stop(env(StartProcess), record); }
      record := record.(state := ProcessRunning);
      if !env(PutRunning).Fine? { return Stop(env(PutRunning), record); }
      persisted := Some(record);
      if !env(Validate).Fine? { return Stop(env(Validate), record); }
      record := record.(state := Validated);
      if !env(PutValidated).Fine? { return Stop(env(PutValidated), record); }
      persisted := Some(record);
      return Ready(record);
    }

    static function Stop(fault: Fault, record: Record): Progress {
      if fault.Crashes? then Died else Broken(record)
    }

    /**
     rollback on a record: the persisted one when Recover or an operator enters it, the in-memory one
     when a failed Prepare does.
     */
    method Rollback(record: Record, env: RollbackStep -> Fault) returns (exit: Exit)
      requires persisted.Some? && !Terminal(record.state)
      modifies this`target, this`backup, this`failed, this`persisted
      ensures persisted.Some?
      ensures old(Entered(record)) ==> Valid()
      // A completed rollback is exactly Undo, and says so on disk.
      ensures exit.Completed? || !BeforeRenameBack(exit.at) ==>
                && target == Undo(old(View()), record, env(LstatBackup).Fine?).target
                && backup == Undo(old(View()), record, env(LstatBackup).Fine?).backup
      ensures exit.Completed? ==> persisted == Some(record.(state := RolledBack))
      ensures exit.Completed? <==> RollbackFine(env, old(View()), record)
      // A root that could be given back is never lost, wherever the rollback stops.
      ensures original.Some? && old(Entered(record) && Salvageable(View(), record)) ==> Kept(original, View())
      // Interruption points: with ROLLING_BACK on disk, a later rollback can give the root back exactly
      // when the backup was there and had not yet been renamed back.
      ensures exit.Stopped? && env(PutRollingBack).Fine? ==>
                (BackupOnDisk(View(), persisted.value) <==>
                 old(BackupOnDisk(View(), record)) && (BeforeRenameBack(exit.at) || !env(LstatBackup).Fine?))
      ensures exit.Stopped? && BeforeRenameBack(exit.at) ==>
                backup == old(backup) && target == if exit.at.RenameBack? then None else old(target)
      ensures exit.Stopped? && exit.at.RenameBack? ==> BackupOnDisk(old(View()), record) && env(LstatBackup).Fine?
      ensures failed == FailedAfter(old(View()), record, env, exit)
      ensures exit.Stopped? ==> persisted == Some(Interrupted(exit.at, env, record, old(persisted.value)))
      ensures exit.Stopped? ==> StopsAt(exit, env)
    {
      exit := RollbackSteps(record, env);
    }

    /** The steps of rollback in order, and exactly what each stopping point leaves. */
    method RollbackSteps(record: Record, env: RollbackStep -> Fault) returns (exit: Exit)
      requires persisted.Some? && !Terminal(record.state)
      modifies this`target, this`backup, this`failed, this`persisted
      ensures exit.Completed? || !BeforeRenameBack(exit.at) ==>
                && target == Undo(old(View()), record, env(LstatBackup).Fine?).target
                && backup == Undo(old(View()), record, env(LstatBackup).Fine?).backup
      ensures exit.Stopped? && BeforeRenameBack(exit.at) ==>
                backup == old(backup) && target == if exit.at.RenameBack? then None else old(target)
      ensures exit.Stopped? && exit.at.RenameBack? ==> BackupOnDisk(old(View()), record) && env(LstatBackup).Fine?
      ensures failed == FailedAfter(old(View()), record, env, exit)
      ensures exit.Completed? ==> persisted == Some(record.(state := RolledBack))
      ensures exit.Completed? <==> RollbackFine(env, old(View()), record)
      ensures exit.Stopped? ==> persisted == Some(Interrupted(exit.at, env, record, old(persisted.value)))
      ensures exit.Stopped? ==> StopsAt(exit, env)
    {
      var current := record.(state := RollingBack);
      if env(PutRollingBack).Crashes? { return Stopped(PutRollingBack, true); }
      if env(PutRollingBack).Fine? { persisted := Some(current); }
      if env(StopWorkload).Crashes? { return Stopped(StopWorkload, true); }
      if env(LstatBackup).Crashes? { return Stopped(LstatBackup, true); }
      var backupOnDisk := record.hasBackup && backup.Some? && env(LstatBackup).Fine?;
      var moved := false;
      if backupOnDisk || CountsAsSwitched(record.state) {
        exit, moved := SwitchBack(backupOnDisk, env);
        if exit.Stopped? { return; }
      }
      if env(Reinstate).Crashes? { return Stopped(Reinstate, true); }
      if env(PutRolledBack).Crashes? { return Stopped(PutRolledBack, true); }
      if env(PutRolledBack).Fails? {
        DropFailed(moved, env);
        return Stopped(PutRolledBack, false);
      }
      persisted := Some(current.(state := RolledBack));
      if env(SyncParent).Crashes? { return Stopped(SyncParent, true); }
      DropFailed(moved, env);
      return if env(SyncParent).Fails? then Stopped(SyncParent, false) else Completed;
    }

    /** A rollback is entered on the persisted record, or on an in-memory record a failed Prepare left undoable. */
    ghost predicate Entered(record: Record)
      reads this
    {
      && Valid() && Tracks(original, View(), record)
      && (persisted == Some(record) || Undoable(original, View(), record))
    }

    /** The tree motion of a rollback: the restored tree aside, then the backup back to its name. */
    method SwitchBack(backupOnDisk: bool, env: RollbackStep -> Fault) returns (exit: Exit, moved: bool)
      requires backupOnDisk ==> backup.Some?
      modifies this`target, this`backup, this`failed
      ensures exit.Completed? <==> SwitchBackFine(env, old(View()), backupOnDisk)
      ensures exit.Completed? ==> && target == (if backupOnDisk then old(backup) else None)
                                  && backup == (if backupOnDisk then None else old(backup))
                                  && failed == (if old(target).Some? then old(target) else old(failed))
                                  && (moved <==> old(target).Some?)
      ensures exit.Stopped? ==> backup == old(backup) && target == if exit.at.RenameBack? then None else old(target)
      ensures exit.Stopped? ==> && (exit.at.PinTarget? || exit.at.LstatTarget? || exit.at.MoveAside? || (exit.at.RenameBack? && backupOnDisk))
                                && (exit.crashed <==> env(exit.at).Crashes?)
                                && (env(exit.at).Fine? ==> exit.at.MoveAside?)
      ensures exit.Stopped? ==>
                failed == if !exit.at.RenameBack? || old(target).None? then old(failed)
                          else if !exit.crashed && env(RemoveFailed).Fine? then None else old(target)
    {
      moved := false;
      if !env(PinTarget).Fine? { return Stopped(PinTarget, env(PinTarget).Crashes?), false; }
      if !env(LstatTarget).Fine? { return Stopped(LstatTarget, env(LstatTarget).Crashes?), false; }
      if target.Some? {
        if env(MoveAside).Crashes? { return Stopped(MoveAside, true), false; }
        if env(MoveAside).Fails? || !CanRename(target, failed) { return Stopped(MoveAside, false), false; }
        failed, target, moved := target, None, true;
      }
      if backupOnDisk {
        if env(RenameBack).Crashes? { return Stopped(RenameBack, true), moved; }
        if env(RenameBack).Fails? {
          DropFailed(moved, env);
          return Stopped(RenameBack, false), moved;
        }
        target, backup := backup, None;
      }
      exit := Completed;
    }

    /** The deferred removal of the tree a rollback moved aside; its failure is only logged. */
    method DropFailed(moved: bool, env: RollbackStep -> Fault)
      modifies this`failed
      ensures failed == if moved && env(RemoveFailed).Fine? then None else old(failed)
    {
      if moved && env(RemoveFailed).Fine? { failed := None; }
    }

    /** Prepare with its deferred rollback. Whatever happens, an original root is never lost. */
    method Prepare(env: PrepareStep -> Fault, undo: RollbackStep -> Fault, crossDevice: bool, partial: Option<Tree>)
      returns (progress: Progress, exit: Exit, ghost stopped: Disk, ghost written: Option<Record>)
      requires Valid() && persisted.None?
      modifies this`target, this`backup, this`failed, this`persisted
      ensures Valid() && (original.Some? ==> Kept(original, View()))
      ensures progress.Ready? <==> PrepareFine(env, crossDevice, original.Some?)
      ensures progress.Ready? ==> target == Some(restored) && backup == original && persisted == Some(progress.record)
      ensures progress.Refused? || (progress.Died? && persisted.None?) ==> target == original
      ensures progress.Died? <==> PrepareFault(env, crossDevice, original.Some?).Crashes?
      ensures progress.Refused? <==> env(PutPreparing).Fails?
      // stopped and written are the disk and the persisted record on which the deferred rollback started.
      ensures progress.Broken? ==> Undoable(original, stopped, progress.record) && written.Some?
      // A failed Prepare is rolled back, which completes exactly when nothing stops it, and otherwise stops where something does.
      ensures progress.Broken? ==> (exit.Completed? <==> RollbackFine(undo, stopped, progress.record))
      ensures progress.Broken? && exit.Completed? ==> persisted == Some(progress.record.(state := RolledBack))
      ensures exit.Stopped? ==> && progress.Broken? && StopsAt(exit, undo)
                                && persisted == Some(Interrupted(exit.at, undo, progress.record, written.value))
      ensures !progress.Broken? ==> View() == stopped && persisted == written
      ensures progress.Broken? && exit.Completed? ==>
                (target == original <==> original.None? || Reentrant(original, stopped, progress.record, undo(LstatBackup).Fine?))
      ensures progress.Broken? && exit.Completed? && undo(LstatBackup).Fine? ==> target == original && backup.None?
      ensures progress.Died? && persisted.Some? ==> Undoable(original, View(), persisted.value) && !Terminal(persisted.value.state)
    {
      exit := Completed;
      progress := PrepareSteps(env, crossDevice, partial);
      stopped, written := View(), persisted;
      if progress.Broken? {
        exit := Rollback(progress.record, undo);
        if original.Some? { ReentryIff(original, stopped, progress.record, undo(LstatBackup).Fine?); }
      }
    }

    /** Commit removes the backup before it writes COMMITTED. */
    method Commit(env: CommitStep -> Fault, remains: Option<Tree>) returns (exit: CommitExit)
      modifies this`backup, this`persisted
      ensures exit.CommitRefused? <==> old(persisted.None? || persisted.value.state !in {Validated, Committed})
      ensures exit.CommitRefused? ==> backup == old(backup) && persisted == old(persisted)
      ensures exit.CommitDone? && old(persisted.value.state) == Committed ==> View() == old(View()) && persisted == old(persisted)
      ensures exit.CommitDone? && old(persisted.value.state) == Validated ==>
                && View() == AfterCommit(old(View()), old(persisted.value), PutCommitted, None)
                && persisted == Some(old(persisted.value).(state := Committed))
      ensures old(persisted.Some? && persisted.value.state == Validated) ==>
                (exit.CommitDone? <==> CommitFine(env, old(persisted.value)))
      ensures exit.CommitStopped? ==> && persisted == old(persisted) && persisted.Some? && persisted.value.state == Validated
                                      && View() == AfterCommit(old(View()), persisted.value, exit.at, remains)
    {
      if persisted.None? { return CommitRefused; }
      var record := persisted.value;
      if record.state == Committed { return CommitDone; }
      if record.state != Validated { return CommitRefused; }
      if env(ReapSource).Crashes? { return CommitStopped(ReapSource); }
      if record.hasBackup {
        if !env(RemoveBackup).Fine? {
          backup := remains;
          return CommitStopped(RemoveBackup);
        }
        backup := None;
      }
      if env(RemoveStaging).Crashes? { return CommitStopped(RemoveStaging); }
      if !env(PutCommitted).Fine? { return CommitStopped(PutCommitted); }
      persisted := Some(record.(state := Committed));
      return CommitDone;
    }

    /** Recover undoes everything unfinished except a validated restore whose process survived. */
    ghost predicate RollsBack(alive: bool)
      reads this
    {
      persisted.Some? && !Terminal(persisted.value.state) && (alive ==> !persisted.value.state.Validated?)
    }

    /** Recover after a restart: finish a validated restore whose process survived, roll everything else back. */
    method Recover(undo: RollbackStep -> Fault, env: CommitStep -> Fault, remains: Option<Tree>, alive: bool) returns (ok: bool)
      requires persisted.Some?
      modifies this`target, this`backup, this`failed, this`persisted
      ensures persisted.Some? && (ok ==> Terminal(persisted.value.state))
      ensures ok <==> RecoverFine(undo, env, alive, old(View()), old(persisted.value))
      ensures old(persisted.value.state) in {Committed, RolledBack} ==> ok && View() == old(View()) && persisted == old(persisted)
      ensures old(Valid() && persisted.value.state !in {Committed, RolledBack, Validated}) ==> Valid()
      // Error-free recovery undoes: the root as it was, if and only if the rollback was re-entrant.
      ensures ok && old(Valid() && RollsBack(alive)) ==>
                && persisted.value.state == RolledBack
                && (target == original <==>
                    original.None? || old(Reentrant(original, View(), persisted.value, undo(LstatBackup).Fine?)))
      ensures original.Some? && old(Valid() && RollsBack(alive) && Salvageable(View(), persisted.value)) ==> Kept(original, View())
      // A validated restore whose process survived is kept, also after a Commit that stopped anywhere.
      ensures ok && alive && old(persisted.value.state) == Validated ==>
                persisted.value.state == Committed && target == old(target)
                && (persisted.value.hasBackup ==> backup.None?)
      ensures ok && !alive && old(persisted.value.state) == Validated ==>
                persisted.value.state == RolledBack && target == Undo(old(View()), old(persisted.value), undo(LstatBackup).Fine?).target
    {
      var record := persisted.value;
      if record.state in {Preparing, FilesystemSwitched, ProcessRunning, RollingBack} {
        var exit := Rollback(record, undo);
        return exit.Completed?;
      } else if record.state == Validated {
        if !alive {
          var exit := Rollback(record, undo);
          return exit.Completed?;
        }
        var exit := Commit(env, remains);
        return exit.CommitDone?;
      }
      return true;
    }

    /**
     The crash theorem of Prepare: stopped by a failure or a crash between any two of its steps, the one rollback
     that completes, its own or that of the next start, leaves the target root exactly as before if and only if it
     was Reentrant on the disk and record it found; and whenever it could stat the backup, it was.
     */
    method PrepareThenRecover(env: PrepareStep -> Fault, own: RollbackStep -> Fault, next: RollbackStep -> Fault,
                              commit: CommitStep -> Fault, crossDevice: bool, partial: Option<Tree>)
      returns (progress: Progress, undone: bool, ghost stopped: Disk, ghost left: Option<Record>)
      requires Valid() && persisted.None?
      modifies this`target, this`backup, this`failed, this`persisted
      ensures progress.Ready? <==> PrepareFine(env, crossDevice, original.Some?)
      // left is the record the rollback was entered on, none when nothing had been recorded.
      ensures left.Some? <==> progress.Broken? || (progress.Died? && persisted.Some?)
      ensures left.Some? ==> Undoable(original, stopped, left.value)
      // Undone exactly when nothing stops that one rollback.
      ensures undone <==> left.None? || RollbackFine(if progress.Broken? then own else next, stopped, left.value)
      ensures undone && !progress.Ready? && left.None? ==> target == original
      ensures undone && left.Some? ==>
                var seen := if progress.Broken? then own(LstatBackup).Fine? else next(LstatBackup).Fine?;
                && (target == original <==> original.None? || Reentrant(original, stopped, left.value, seen))
                && (seen ==> target == original)
      ensures original.Some? && !progress.Ready? ==> Kept(original, View())
    {
      var exit;
      ghost var written;
      progress, exit, stopped, written := Prepare(env, own, crossDevice, partial);
      undone, left := exit.Completed?, if progress.Broken? then Some(progress.record) else None;
      if progress.Died? && persisted.Some? {
        stopped, left := View(), persisted;
        undone := Recover(next, commit, None, false);
      }
    }

    /**
     The agent restarted over and over, under any faults, each start rolling the same unfinished restore back until
     the record reads ROLLED_BACK. Whatever the first start found, an originally present root is as it was in the end
     exactly when the original was still aside and the last start saw it, or it was in place and the record still
     PREPARING. In particular, from an untouched root that is when no start managed to write ROLLING_BACK, and from a
     switched record when none renamed the backup back without recording it.
     */
    method Restarts(undos: seq<RollbackStep -> Fault>)
      returns (done: bool, last: nat, ghost exits: seq<Exit>, ghost entry: Disk)
      requires Valid() && persisted.Some? && !Terminal(persisted.value.state)
      modifies this`target, this`backup, this`failed, this`persisted
      ensures Valid() && |exits| == last <= |undos| && (done <==> last < |undos|)
      ensures done <==> persisted.Some? && Terminal(persisted.value.state)
      ensures done && original.None? ==> target == original
      ensures done && original.Some? ==>
                var preparing := old(persisted.value.state) == Preparing;
                var fate := FateOf(old(StartFate(View(), persisted.value)), preparing, undos[..last], exits);
                target == original <==>
                  || fate.Back?
                  || (fate.Aside? && (|| undos[last](LstatBackup).Fine?
                                      || (StillPreparing(preparing, undos[..last]) && entry.target == original)))
      // The original is somewhere on disk unless it was renamed back, or never moved, and that was not recorded.
      ensures !FateOf(old(StartFate(View(), persisted.value)), old(persisted.value.state) == Preparing, undos[..last], exits).Doomed?
              ==> Kept(original, View())
      // From each start the condition is on the interruption points alone.
      ensures done && original.Some? && old(BackupOnDisk(View(), persisted.value) && CountsAsSwitched(persisted.value.state)) ==>
                (target == original <==>
                   && undos[last](LstatBackup).Fine?
                   && forall j | 0 <= j < last :: !RenamedUnrecorded(exits[j], undos[j]))
      ensures done && original.Some? && old(StartFate(View(), persisted.value)).Back? ==>
                (target == original <==> StillPreparing(true, undos[..last]))
      ensures done && original.Some? && old(StartFate(View(), persisted.value)).Doomed? ==> target != original
    {
      exits, entry := [], View();
      ghost var preparing := persisted.value.state == Preparing;
      ghost var start := StartFate(View(), persisted.value);
      ghost var fate := start;
      last := 0;
      while last < |undos|
        invariant last <= |undos| && |exits| == last && fate == FateOf(start, preparing, undos[..last], exits)
        invariant Valid() && persisted.Some? && !Terminal(persisted.value.state) && Placed(fate)
        invariant persisted.value.state == Preparing <==> StillPreparing(preparing, undos[..last])
      {
        entry := View();
        var exit := OneStart(undos[last], fate);
        assert undos[..last + 1] == undos[..last] + [undos[last]];
        if Terminal(persisted.value.state) {
          FateIff(undos[..last], exits);
          UntouchedFate(undos[..last], exits);
          DoomedFate(preparing, undos[..last], exits);
          return true, last, exits, entry;
        }
        exits := exits + [exit];
        assert exits[..last] == exits[..|exits| - 1] && undos[..last + 1][..last] == undos[..last];
        fate := NextFate(fate, exit, undos[last], StillPreparing(preparing, undos[..last + 1]));
        last := last + 1;
      }
      return false, last, exits, entry;
    }

    /** One start of the agent over the unfinished record, seen from where the original is. */
    method OneStart(undo: RollbackStep -> Fault, ghost fate: Fate) returns (exit: Exit)
      requires Valid() && persisted.Some? && !Terminal(persisted.value.state) && Placed(fate)
      modifies this`target, this`backup, this`failed, this`persisted
      ensures Valid() && persisted.Some?
      ensures Terminal(persisted.value.state) ==>
                && (original.None? ==> target == original)
                && (original.Some? ==>
                      (target == original <==>
                         || fate.Back?
                         || (fate.Aside? && (undo(LstatBackup).Fine? || old(persisted.value.state == Preparing && target == original)))))
                && (!fate.Doomed? ==> Kept(original, View()))
      ensures !Terminal(persisted.value.state) ==>
                && (persisted.value.state == Preparing <==> old(persisted.value.state) == Preparing && !undo(PutRollingBack).Fine?)
                && Placed(NextFate(fate, exit, undo, persisted.value.state == Preparing))
    {
      exit := Rollback(persisted.value, undo);
    }

    /** The disk and record that go with each fate. */
    ghost predicate Placed(fate: Fate)
      requires persisted.Some?
      reads this
    {
      match fate
      case Aside => backup == original && BackupOnDisk(View(), persisted.value)
      case Back => target == original && backup.None? && persisted.value.state == Preparing
      case Doomed => backup.None? && CountsAsSwitched(persisted.value.state)
    }
  }

  // ---------------------------------------------------------------- the start of the agent

  /** What the environment answers while one record is recovered. */
  datatype Weather = Weather(undo: RollbackStep -> Fault, commit: CommitStep -> Fault, remains: Option<Tree>, alive: bool)

  /** Nothing stops the recovery of this record as it stands. */
  ghost predicate FineAt(t: Transaction, w: Weather)
    requires t.persisted.Some?
    reads t
  {
    RecoverFine(w.undo, w.commit, w.alive, t.View(), t.persisted.value)
  }

  /**
   Recover over every stored record, stopping at the first error. Records before the stop are finished, those
   after it are untouched, and no root that could be given back is lost anywhere.
   */
  method RecoverAll(all: seq<Transaction>, weather: seq<Weather>) returns (ok: bool, reached: nat)
    requires |weather| == |all|
    requires forall i, j | 0 <= i < j < |all| :: all[i] != all[j]
    requires forall t <- all :: t.persisted.Some?
    modifies all
    ensures reached <= |all| && (ok <==> reached == |all|)
    ensures forall i | 0 <= i < |all| :: all[i].persisted.Some?
    // It stops at the first record whose recovery something stops, and only there.
    ensures forall i | 0 <= i < reached :: old(FineAt(all[i], weather[i]))
    ensures !ok ==> !old(FineAt(all[reached], weather[reached]))
    ensures forall i | 0 <= i < reached :: Terminal(all[i].persisted.value.state)
    ensures forall i | reached < i < |all| :: unchanged(all[i])
    ensures forall i | 0 <= i < reached && old(all[i].Valid() && all[i].RollsBack(weather[i].alive)) ::
              all[i].target == all[i].original
              <==> all[i].original.None? || old(Reentrant(all[i].original, all[i].View(), all[i].persisted.value, weather[i].undo(LstatBackup).Fine?))
    ensures forall i | 0 <= i < |all| && all[i].original.Some? && old(all[i].Valid() && all[i].RollsBack(weather[i].alive))
                     && old(Salvageable(all[i].View(), all[i].persisted.value)) ::
              Kept(all[i].original, all[i].View())
  {
    for i := 0 to |all|
      invariant forall j | 0 <= j < |all| :: all[j].persisted.Some?
      invariant forall j | 0 <= j < i :: old(FineAt(all[j], weather[j]))
      invariant forall j | 0 <= j < i :: Terminal(all[j].persisted.value.state)
      invariant forall j | i <= j < |all| :: unchanged(all[j])
      invariant forall j | 0 <= j < i && old(all[j].Valid() && all[j].RollsBack(weather[j].alive)) ::
                  all[j].target == all[j].original
                  <==> all[j].original.None? || old(Reentrant(all[j].original, all[j].View(), all[j].persisted.value, weather[j].undo(LstatBackup).Fine?))
      invariant forall j | 0 <= j < i && all[j].original.Some? && old(all[j].Valid() && all[j].RollsBack(weather[j].alive))
                         && old(Salvageable(all[j].View(), all[j].persisted.value)) ::
                  Kept(all[j].original, all[j].View())
    {
      var w := weather[i];
      var done := all[i].Recover(w.undo, w.commit, w.remains, w.alive);
      if !done { return false, i; }
    }
    return true, |all|;
  }
}
