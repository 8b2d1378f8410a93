/**
 What every run of the upgrade keeps. A run is clean when no state write goes
 wrong in one of three named ways; `SafetyExact` proves that clean runs are safe
 at every point and that each of the three ways leaves a point at which a crash
 is not recovered.
 */
module UpgradeSafety {
  import opened UpgradeMachine
  import opened UpgradeOrder

  /**
   The live pair is the truth, or the promoted pair over which a `Completed`
   record landed, or startup will restore the truth from the backup the record
   names.
   */
  predicate Safe(s: State) {
    s.live == s.truth || s.live == s.accepted || (InRestoreStage(s.record) && Saved(s, s.record.backup))
  }

  /** The backup can be loaded and equals the truth. */
  predicate Saved(s: State, id: nat) {
    Loadable(s, id) && s.backups[id].pair == s.truth
  }

  /**
   Putting `originals` back over `promoted` passes through no other pair: one file is removed, nothing
   else differs.
   */
  predicate RestoresAtOnce(promoted: Pair, originals: Pair) {
    originals.database.NoDatabase? && promoted.settings == originals.settings && !originals.settings.Settings?
  }

  /**
   The state writes after which a crash may not be recovered: the record of an installed promotion
   left unreadable, or landing as `Completed` and then reported as failed while
   the originals cannot be put back at once; and the `Completed` record of an
   admission left unreadable.
   */
  predicate Fatal(s: State, e: Event) {
    e.Act? &&
    ((s.parent.RecordInstalled? && Marked(s.live.database)
      && (e.outcome.Torn? || (Reported(s, e) && !RestoresAtOnce(s.live, s.truth))))
     || (s.parent.RecordCompleted? && e.outcome.Torn?))
  }

  /** A `Completed` record that ends a promotion without admission lands and is reported as failed. */
  predicate Reported(s: State, e: Event) {
    e.Act? && s.parent.RecordInstalled? && Marked(s.live.database) && !s.admission && e.outcome.DoneThenRaised?
  }

  predicate Clean(s: State, events: seq<Event>)
    decreases |events|
  {
    events == [] || (!Fatal(s, events[0]) && Clean(Next(s, events[0]), events[1..]))
  }

  // ----- The invariant -----

  predicate FilesAgree(s: State) {
    && (s.accepted == s.truth || Marked(s.accepted.database))
    && (!InRestoreStage(s.record) ==> s.live == s.truth || s.live == s.accepted)
    && (InRestoreStage(s.record) ==>
          && s.accepted == s.truth && !Marked(s.truth.database) && s.truth.database != TornDatabase
          && (s.record.stage != Migrating ==> Loadable(s, s.record.backup))
          && (Loadable(s, s.record.backup) ==> Saved(s, s.record.backup))
          && (Marked(s.live.database) ==> s.live.settings == s.promoted.settings))
    && (IsAt(s.record, Migrating) ==> s.live == s.truth && s.record.signature == s.live)
  }

  predicate ChildAgrees(s: State) {
    ChildOrdered(s) && (s.child.Starting? || s.child.Waiting? ==> s.accepted == s.truth)
  }

  /** An attempt that has changed nothing yet. */
  predicate Untouched(s: State) {
    Idle(s) && s.accepted == s.truth && s.live.database != TornDatabase
  }

  predicate Idle(s: State) {
    s.child.NotRunning? && s.live == s.truth && !Marked(s.live.database)
  }

  /** The record is at this stage, and its backup holds the truth. */
  predicate Recorded(s: State, id: nat, stage: Stage) {
    && s.child.NotRunning? && IsAt(s.record, stage) && s.record.backup == id && Saved(s, id) && id in s.working
    && !Marked(s.truth.database)
  }

  predicate Restorable(s: State, id: nat) {
    && s.child.NotRunning? && Saved(s, id)
    && ((InRestoreStage(s.record) && s.record.stage != Migrating && s.record.backup == id) || Undoing(s))
  }

  /** A reported promotion is taken back although its record landed. */
  predicate Undoing(s: State) {
    IsAt(s.record, Completed) && RestoresAtOnce(s.accepted, s.truth) && (s.live == s.accepted || s.live == s.truth)
  }

  predicate ParentAgrees(s: State) {
    match s.parent
    case Off => s.child.NotRunning?
    case Check => s.child.NotRunning? && !InRestoreStage(s.record)
    case CaptureDatabase => Idle(s) && !InRestoreStage(s.record)
    case CaptureSettings(id) =>
      && Untouched(s) && !InRestoreStage(s.record)
      && id in s.backups && s.backups[id].pair.database == s.live.database
    case CaptureManifest(id) =>
      Untouched(s) && !InRestoreStage(s.record) && id in s.backups && s.backups[id].pair == s.live
    case PrepareWorking(id) => Untouched(s) && !InRestoreStage(s.record) && Saved(s, id)
    case RecordMigrating(id) => Untouched(s) && !InRestoreStage(s.record) && Saved(s, id) && id in s.working
    case DropBackup(id) => Untouched(s) && (InRestoreStage(s.record) ==> IsAt(s.record, Migrating))
    case RunMigration(id) => Untouched(s) && Recorded(s, id, Migrating)
    case RecordPromoting(id) => Untouched(s) && Recorded(s, id, Migrating)
    case PromoteSettings(id) =>
      && Recorded(s, id, Promoting) && s.live.database == s.truth.database
      && s.promoted.database == s.working[id].database
      && s.promoted.settings == if s.working[id].settings.NoSettings? then s.live.settings else s.working[id].settings
    case PromoteDatabase(id) =>
      && Recorded(s, id, Promoting) && s.live.settings == s.promoted.settings
      && s.promoted.database == s.working[id].database
    case RecordInstalled(id) => Recorded(s, id, Promoting) && s.live == s.promoted
    case RestoreDatabase(id, _) => Restorable(s, id)
    case RestoreSettings(id, _) => Restorable(s, id) && s.live.database == s.truth.database
    case RecordRestored(id, _, _) => s.child.NotRunning? && s.live == s.truth
    case StartTarget => s.child.NotRunning? && (InRestoreStage(s.record) ==> Pending(s))
    case AwaitValidation(token) => Pending(s) && Behind(s, token) && token !in s.admitted
    case RecordCompleted(token) => Pending(s) && Behind(s, token) && token !in s.admitted
    case RecordAdmitted(token) => IsAt(s.record, Completed) && Behind(s, token) && token !in s.admitted
    case Watch => !InRestoreStage(s.record)
    case StopCommitted => !InRestoreStage(s.record)
    case NoteFailure => s.child.NotRunning? && !InRestoreStage(s.record)
    case StopPending => Pending(s) && !s.child.Serving?
  }

  predicate Inv(s: State) {
    FilesAgree(s) && ChildAgrees(s) && ParentAgrees(s)
  }

  lemma InitInv(s: State)
    requires Init(s)
    ensures Inv(s)
  {
  }

  lemma InvIsSafe(s: State)
    requires Inv(s)
    ensures Safe(s)
  {
  }

  // ----- Every step keeps it -----

  lemma ChoosingKeeps(s: State, image: nat, admission: bool)
    requires Inv(s) && s.parent.Off?
    ensures Inv(s.(image := image, admission := admission))
  {
  }

  lemma BootKeeps(s: State)
    requires Inv(s) && s.parent.Off?
    ensures Inv(Booted(s))
  {
  }

  lemma CheckKeeps(s: State)
    requires Inv(s) && s.parent.Check?
    ensures Inv(Checked(s))
  {
  }

  lemma CaptureKeeps(s: State, id: nat, outcome: Outcome)
    requires Inv(s) && s.parent.CaptureDatabase? && id !in s.backups
    ensures Inv(Captured(s, id, outcome))
  {
  }

  lemma CaptureSettingsKeeps(s: State, id: nat, outcome: Outcome)
    requires Inv(s) && s.parent == CaptureSettings(id)
    ensures Inv(ActedCaptureSettings(s, id, outcome))
  {
  }

  lemma CaptureManifestKeeps(s: State, id: nat, outcome: Outcome)
    requires Inv(s) && s.parent == CaptureManifest(id)
    ensures Inv(ActedCaptureManifest(s, id, outcome))
  {
  }

  lemma PrepareWorkingKeeps(s: State, id: nat, outcome: Outcome)
    requires Inv(s) && s.parent == PrepareWorking(id)
    ensures Inv(ActedPrepareWorking(s, id, outcome))
  {
  }

  lemma RecordMigratingKeeps(s: State, id: nat, outcome: Outcome)
    requires Inv(s) && s.parent == RecordMigrating(id)
    ensures Inv(ActedRecordMigrating(s, id, outcome))
  {
  }

  lemma DropBackupKeeps(s: State, id: nat, outcome: Outcome)
    requires Inv(s) && s.parent == DropBackup(id)
    ensures Inv(ActedDropBackup(s, id, outcome))
  {
  }

  lemma MigrationKeeps(s: State, result: Pair, passed: bool)
    requires Inv(s) && s.parent.RunMigration?
    ensures Inv(Next(s, Migrated(result, passed)))
  {
  }

  lemma RecordPromotingKeeps(s: State, id: nat, outcome: Outcome)
    requires Inv(s) && s.parent == RecordPromoting(id)
    ensures Inv(ActedRecordPromoting(s, id, outcome))
  {
  }

  lemma PromoteSettingsKeeps(s: State, id: nat, outcome: Outcome)
    requires Inv(s) && s.parent == PromoteSettings(id)
    ensures Inv(ActedPromoteSettings(s, id, outcome))
  {
  }

  lemma PromoteDatabaseKeeps(s: State, id: nat, outcome: Outcome)
    requires Inv(s) && s.parent == PromoteDatabase(id)
    ensures Inv(ActedPromoteDatabase(s, id, outcome))
  {
  }

  lemma RecordInstalledKeeps(s: State, id: nat, outcome: Outcome)
    requires Inv(s) && s.parent == RecordInstalled(id) && !Fatal(s, Act(outcome))
    ensures Inv(ActedRecordInstalled(s, id, outcome))
  {
  }

  lemma RestoreDatabaseKeeps(s: State, id: nat, cause: Cause, outcome: Outcome)
    requires Inv(s) && s.parent == RestoreDatabase(id, cause)
    ensures Inv(ActedRestoreDatabase(s, id, cause, outcome))
  {
  }

  lemma RestoreSettingsKeeps(s: State, id: nat, cause: Cause, outcome: Outcome)
    requires Inv(s) && s.parent == RestoreSettings(id, cause)
    ensures Inv(ActedRestoreSettings(s, id, cause, outcome))
  {
  }

  lemma RecordRestoredKeeps(s: State, id: nat, cause: Cause, untouched: bool, outcome: Outcome)
    requires Inv(s) && s.parent == RecordRestored(id, cause, untouched)
    ensures Inv(ActedRecordRestored(s, id, cause, untouched, outcome))
  {
  }

  lemma RestorePendingKeeps(s: State)
    requires FilesAgree(s) && ChildAgrees(s) && s.child.NotRunning?
    ensures Inv(RestorePending(s))
  {
  }

  lemma SpawnKeeps(s: State, token: nat, started: bool)
    requires Inv(s) && s.parent.StartTarget? && token !in s.used
    ensures Inv(Spawned(s, token, started))
  {
    hide RestorePending;
    if IsAt(s.record, PromotedPendingStartup) && !started {
      RestorePendingKeeps(
        s.(used := s.used + {token}, validated := s.validated - {token}, admitted := s.admitted - {token}));
    }
  }

  lemma RecordCompletedKeeps(s: State, token: nat, outcome: Outcome)
    requires Inv(s) && s.parent == RecordCompleted(token) && !Fatal(s, Act(outcome))
    ensures Inv(ActedRecordCompleted(s, token, outcome))
  {
  }

  lemma AwaitValidationKeeps(s: State, outcome: Outcome)
    requires Inv(s) && s.parent.AwaitValidation?
    ensures Inv(Acted(s, outcome))
  {
  }

  lemma RecordAdmittedKeeps(s: State, outcome: Outcome)
    requires Inv(s) && s.parent.RecordAdmitted?
    ensures Inv(Acted(s, outcome))
  {
  }

  lemma WatchKeeps(s: State, outcome: Outcome)
    requires Inv(s) && s.parent.Watch?
    ensures Inv(Acted(s, outcome))
  {
  }

  lemma StopCommittedKeeps(s: State, outcome: Outcome)
    requires Inv(s) && (s.parent.StopCommitted? || s.parent.NoteFailure?)
    ensures Inv(Acted(s, outcome))
  {
  }

  lemma StopPendingKeeps(s: State)
    requires Inv(s) && s.parent.StopPending?
    ensures Inv(RestorePending(s.(child := NotRunning)))
  {
    RestorePendingKeeps(s.(child := NotRunning));
  }

  lemma CrashKeeps(s: State, e: Event)
    requires Inv(s) && e.Crash?
    ensures Inv(Next(s, e))
  {
  }

  lemma GiveUpKeeps(s: State, e: Event)
    requires Inv(s) && e.GiveUp?
    ensures Inv(Next(s, e))
  {
    if s.parent.AwaitValidation? {
      assert Inv(s.(parent := StopPending));
    } else if s.parent.Watch? {
      assert Inv(s.(parent := StopCommitted));
    }
  }

  lemma ValidateKeeps(s: State, e: Event)
    requires Inv(s) && e.Validate?
    ensures Inv(Next(s, e))
  {
  }

  lemma EnterKeeps(s: State, e: Event)
    requires Inv(s) && e.Enter?
    ensures Inv(Next(s, e))
  {
  }

  lemma ExitKeeps(s: State, e: Event)
    requires Inv(s) && e.Exit?
    ensures Inv(Next(s, e))
  {
  }

  lemma WriterKeeps(s: State, e: Event)
    requires Inv(s) && (e.Serve? || e.Outside?)
    ensures Inv(Next(s, e))
  {
  }

  lemma ActKeeps(s: State, outcome: Outcome)
    requires Inv(s) && !Fatal(s, Act(outcome))
    ensures Inv(Acted(s, outcome))
  {
    hide Inv, Fatal, Checked, RestorePending, ActedCaptureSettings, ActedCaptureManifest, ActedPrepareWorking,
      ActedRecordMigrating, ActedDropBackup, ActedRecordPromoting, ActedPromoteSettings, ActedPromoteDatabase,
      ActedRecordInstalled, ActedRestoreDatabase, ActedRestoreSettings, ActedRecordRestored, ActedRecordCompleted;
    match s.parent
    case Off =>
    case Check => CheckKeeps(s);
    case CaptureDatabase =>
    case CaptureSettings(id) => CaptureSettingsKeeps(s, id, outcome);
    case CaptureManifest(id) => CaptureManifestKeeps(s, id, outcome);
    case PrepareWorking(id) => PrepareWorkingKeeps(s, id, outcome);
    case RecordMigrating(id) => RecordMigratingKeeps(s, id, outcome);
    case DropBackup(id) => DropBackupKeeps(s, id, outcome);
    case RunMigration(_) =>
    case RecordPromoting(id) => RecordPromotingKeeps(s, id, outcome);
    case PromoteSettings(id) => PromoteSettingsKeeps(s, id, outcome);
    case PromoteDatabase(id) => PromoteDatabaseKeeps(s, id, outcome);
    case RecordInstalled(id) => RecordInstalledKeeps(s, id, outcome);
    case RestoreDatabase(id, cause) => RestoreDatabaseKeeps(s, id, cause, outcome);
    case RestoreSettings(id, cause) => RestoreSettingsKeeps(s, id, cause, outcome);
    case RecordRestored(id, cause, untouched) => RecordRestoredKeeps(s, id, cause, untouched, outcome);
    case StartTarget =>
    case AwaitValidation(_) => AwaitValidationKeeps(s, outcome);
    case RecordCompleted(token) => RecordCompletedKeeps(s, token, outcome);
    case RecordAdmitted(_) => RecordAdmittedKeeps(s, outcome);
    case Watch => WatchKeeps(s, outcome);
    case StopCommitted => StopCommittedKeeps(s, outcome);
    case NoteFailure => StopCommittedKeeps(s, outcome);
    case StopPending => StopPendingKeeps(s);
  }

  /** Every step keeps the invariant, a fatal one apart. */
  lemma NextKeeps(s: State, e: Event)
    requires Inv(s) && !Fatal(s, e)
    ensures Inv(Next(s, e))
  {
    hide Inv, Fatal, Booted, Acted, Captured, Spawned;
    match e
    case Boot(image, admission) =>
      if s.parent.Off? {
        ChoosingKeeps(s, image, admission);
        BootKeeps(s.(image := image, admission := admission));
      }
    case Crash => CrashKeeps(s, e);
    case Outside(_) => WriterKeeps(s, e);
    case Act(outcome) => ActKeeps(s, outcome);
    case Capture(id, outcome) =>
      if s.parent.CaptureDatabase? && id !in s.backups {
        CaptureKeeps(s, id, outcome);
      }
    case Migrated(result, passed) =>
      if s.parent.RunMigration? {
        MigrationKeeps(s, result, passed);
      }
    case Spawn(token, started) =>
      if s.parent.StartTarget? && token !in s.used {
        SpawnKeeps(s, token, started);
      }
    case GiveUp => GiveUpKeeps(s, e);
    case Validate(_) => ValidateKeeps(s, e);
    case Enter => EnterKeeps(s, e);
    case Serve(_) => WriterKeeps(s, e);
    case Exit => ExitKeeps(s, e);
  }
}
