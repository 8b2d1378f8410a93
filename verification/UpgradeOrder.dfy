/**
 What every run of the upgrade keeps, whatever goes wrong: the order in which
 promotion and restore replace the files, and the handshake between parent and
 child. Nothing here speaks of the data to protect, so no state write is excluded.
 */
module UpgradeOrder {
  import opened UpgradeMachine

  /** A live database with the marker has the promoted settings beside it. */
  predicate MarkerAgrees(s: State) {
    Marked(s.live.database) ==> s.live.settings == s.promoted.settings
  }

  /** The backup was taken from a database without the marker. */
  predicate Unmarked(s: State, id: nat) {
    id in s.backups ==> !Marked(s.backups[id].pair.database)
  }

  predicate FilesOrdered(s: State) {
    InRestoreStage(s.record) ==> MarkerAgrees(s) && Unmarked(s, s.record.backup)
  }

  predicate ChildOrdered(s: State) {
    && s.admitted <= s.used && s.validated <= s.used
    && (s.child.Serving? ==> !InRestoreStage(s.record))
    && (s.child.Starting? || s.child.Waiting? ==>
          s.child.token in s.used && (s.child.token in s.admitted ==> IsAt(s.record, Completed)))
  }

  /** The promoted pair is in place and waits for the target. */
  predicate Pending(s: State) {
    IsAt(s.record, PromotedPendingStartup) && s.live == s.promoted && Marked(s.live.database)
  }

  predicate Behind(s: State, token: nat) {
    token in s.used && (s.child.NotRunning? || s.child == Starting(token) || s.child == Waiting(token))
  }

  /** An attempt that has not replaced anything, with its backup. */
  predicate Attempting(s: State, id: nat) {
    s.child.NotRunning? && !Marked(s.live.database) && Unmarked(s, id)
  }

  /** The working copy is being promoted. */
  predicate Installing(s: State, id: nat) {
    && s.child.NotRunning? && IsAt(s.record, Promoting) && Unmarked(s, id) && id in s.working
    && s.promoted.database == s.working[id].database
  }

  predicate ParentOrdered(s: State) {
    match s.parent
    case Off => s.child.NotRunning?
    case Check => s.child.NotRunning? && !InRestoreStage(s.record)
    case CaptureDatabase => s.child.NotRunning? && !Marked(s.live.database) && !InRestoreStage(s.record)
    case CaptureSettings(id) => Attempting(s, id) && !InRestoreStage(s.record)
    case CaptureManifest(id) => Attempting(s, id) && !InRestoreStage(s.record)
    case PrepareWorking(id) => Attempting(s, id) && !InRestoreStage(s.record)
    case RecordMigrating(id) => Attempting(s, id) && !InRestoreStage(s.record)
    case DropBackup(id) => Attempting(s, id)
    case RunMigration(id) => Attempting(s, id) && IsAt(s.record, Migrating)
    case RecordPromoting(id) => Attempting(s, id) && IsAt(s.record, Migrating) && id in s.working
    case PromoteSettings(id) =>
      && Installing(s, id) && !Marked(s.live.database)
      && s.promoted.settings == if s.working[id].settings.NoSettings? then s.live.settings else s.working[id].settings
    case PromoteDatabase(id) => Installing(s, id) && s.live.settings == s.promoted.settings
    case RecordInstalled(id) => Installing(s, id) && s.live == s.promoted
    case RestoreDatabase(id, _) => s.child.NotRunning? && Unmarked(s, id) && MarkerAgrees(s)
    case RestoreSettings(id, _) => s.child.NotRunning? && !Marked(s.live.database)
    case RecordRestored(_, _, _) => s.child.NotRunning?
    case StartTarget => s.child.NotRunning? && (InRestoreStage(s.record) ==> Pending(s))
    case AwaitValidation(token) => Pending(s) && Behind(s, token) && token !in s.admitted
    case RecordCompleted(token) => Pending(s) && Behind(s, token) && token !in s.admitted
    case RecordAdmitted(token) => IsAt(s.record, Completed) && Behind(s, token) && token !in s.admitted
    case Watch => !InRestoreStage(s.record)
    case StopCommitted => !InRestoreStage(s.record)
    case NoteFailure => s.child.NotRunning? && !InRestoreStage(s.record)
    case StopPending => !s.child.Serving? && !IsAt(s.record, Completed)
  }

  predicate Ordered(s: State) {
    FilesOrdered(s) && ChildOrdered(s) && ParentOrdered(s)
  }

  lemma InitOrdered(s: State)
    requires Init(s)
    ensures Ordered(s)
  {
  }

  // ----- Every step keeps it -----

  lemma ChoosingOrders(s: State, image: nat, admission: bool)
    requires Ordered(s) && s.parent.Off?
    ensures Ordered(s.(image := image, admission := admission))
  {
  }

  lemma BootOrders(s: State)
    requires Ordered(s) && s.parent.Off?
    ensures Ordered(Booted(s))
  {
  }

  lemma CheckOrders(s: State)
    requires Ordered(s) && s.parent.Check?
    ensures Ordered(Checked(s))
  {
  }

  lemma CaptureOrders(s: State, id: nat, outcome: Outcome)
    requires Ordered(s) && s.parent.CaptureDatabase? && id !in s.backups
    ensures Ordered(Captured(s, id, outcome))
  {
  }

  lemma CaptureSettingsOrders(s: State, id: nat, outcome: Outcome)
    requires Ordered(s) && s.parent == CaptureSettings(id)
    ensures Ordered(ActedCaptureSettings(s, id, outcome))
  {
  }

  lemma CaptureManifestOrders(s: State, id: nat, outcome: Outcome)
    requires Ordered(s) && s.parent == CaptureManifest(id)
    ensures Ordered(ActedCaptureManifest(s, id, outcome))
  {
  }

  lemma PrepareWorkingOrders(s: State, id: nat, outcome: Outcome)
    requires Ordered(s) && s.parent == PrepareWorking(id)
    ensures Ordered(ActedPrepareWorking(s, id, outcome))
  {
  }

  lemma RecordMigratingOrders(s: State, id: nat, outcome: Outcome)
    requires Ordered(s) && s.parent == RecordMigrating(id)
    ensures Ordered(ActedRecordMigrating(s, id, outcome))
  {
  }

  lemma DropBackupOrders(s: State, id: nat, outcome: Outcome)
    requires Ordered(s) && s.parent == DropBackup(id)
    ensures Ordered(ActedDropBackup(s, id, outcome))
  {
  }

  lemma RecordPromotingOrders(s: State, id: nat, outcome: Outcome)
    requires Ordered(s) && s.parent == RecordPromoting(id)
    ensures Ordered(ActedRecordPromoting(s, id, outcome))
  {
  }

  lemma PromoteSettingsOrders(s: State, id: nat, outcome: Outcome)
    requires Ordered(s) && s.parent == PromoteSettings(id)
    ensures Ordered(ActedPromoteSettings(s, id, outcome))
  {
  }

  lemma PromoteDatabaseOrders(s: State, id: nat, outcome: Outcome)
    requires Ordered(s) && s.parent == PromoteDatabase(id)
    ensures Ordered(ActedPromoteDatabase(s, id, outcome))
  {
  }

  lemma RecordInstalledOrders(s: State, id: nat, outcome: Outcome)
    requires Ordered(s) && s.parent == RecordInstalled(id)
    ensures Ordered(ActedRecordInstalled(s, id, outcome))
  {
  }

  lemma MigrationOrders(s: State, result: Pair, passed: bool)
    requires Ordered(s) && s.parent.RunMigration?
    ensures Ordered(Next(s, Migrated(result, passed)))
  {
  }

  lemma RestoreDatabaseOrders(s: State, id: nat, cause: Cause, outcome: Outcome)
    requires Ordered(s) && s.parent == RestoreDatabase(id, cause)
    ensures Ordered(ActedRestoreDatabase(s, id, cause, outcome))
  {
  }

  lemma RestoreSettingsOrders(s: State, id: nat, cause: Cause, outcome: Outcome)
    requires Ordered(s) && s.parent == RestoreSettings(id, cause)
    ensures Ordered(ActedRestoreSettings(s, id, cause, outcome))
  {
  }

  lemma RecordRestoredOrders(s: State, id: nat, cause: Cause, untouched: bool, outcome: Outcome)
    requires Ordered(s) && s.parent == RecordRestored(id, cause, untouched)
    ensures Ordered(ActedRecordRestored(s, id, cause, untouched, outcome))
  {
  }

  lemma RestorePendingOrders(s: State)
    requires FilesOrdered(s) && ChildOrdered(s) && s.child.NotRunning?
    ensures Ordered(RestorePending(s))
  {
  }

  lemma SpawnOrders(s: State, token: nat, started: bool)
    requires Ordered(s) && s.parent.StartTarget? && token !in s.used
    ensures Ordered(Spawned(s, token, started))
  {
    hide RestorePending;
    if IsAt(s.record, PromotedPendingStartup) && !started {
      RestorePendingOrders(
        s.(used := s.used + {token}, validated := s.validated - {token}, admitted := s.admitted - {token}));
    }
  }

  lemma RecordCompletedOrders(s: State, token: nat, outcome: Outcome)
    requires Ordered(s) && s.parent == RecordCompleted(token)
    ensures Ordered(ActedRecordCompleted(s, token, outcome))
  {
    var t := ActedRecordCompleted(s, token, outcome);
    match outcome
    case Done => assert t.parent == RecordAdmitted(token);
    case DoneThenRaised => assert t.parent == StopCommitted;
    case Raised => assert t.record == s.record && t.parent == StopPending;
    case Torn => assert t.record == NoRecord && t.parent == StopPending;
  }

  lemma AwaitValidationOrders(s: State, outcome: Outcome)
    requires Ordered(s) && s.parent.AwaitValidation?
    ensures Ordered(Acted(s, outcome))
  {
  }

  lemma RecordAdmittedOrders(s: State, outcome: Outcome)
    requires Ordered(s) && s.parent.RecordAdmitted?
    ensures Ordered(Acted(s, outcome))
  {
  }

  lemma WatchOrders(s: State, outcome: Outcome)
    requires Ordered(s) && s.parent.Watch?
    ensures Ordered(Acted(s, outcome))
  {
  }

  lemma StopCommittedOrders(s: State, outcome: Outcome)
    requires Ordered(s) && (s.parent.StopCommitted? || s.parent.NoteFailure?)
    ensures Ordered(Acted(s, outcome))
  {
  }

  lemma StopPendingOrders(s: State)
    requires Ordered(s) && s.parent.StopPending?
    ensures Ordered(RestorePending(s.(child := NotRunning)))
  {
    RestorePendingOrders(s.(child := NotRunning));
  }

  lemma CrashOrders(s: State, e: Event)
    requires Ordered(s) && e.Crash?
    ensures Ordered(Next(s, e))
  {
  }

  lemma GiveUpOrders(s: State, e: Event)
    requires Ordered(s) && e.GiveUp?
    ensures Ordered(Next(s, e))
  {
  }

  lemma ValidateOrders(s: State, e: Event)
    requires Ordered(s) && e.Validate?
    ensures Ordered(Next(s, e))
  {
  }

  lemma EnterOrders(s: State, e: Event)
    requires Ordered(s) && e.Enter?
    ensures Ordered(Next(s, e))
  {
  }

  lemma ExitOrders(s: State, e: Event)
    requires Ordered(s) && e.Exit?
    ensures Ordered(Next(s, e))
  {
  }

  lemma WriterOrders(s: State, e: Event)
    requires Ordered(s) && (e.Serve? || e.Outside?)
    ensures Ordered(Next(s, e))
  {
  }

  lemma ActOrders(s: State, outcome: Outcome)
    requires Ordered(s)
    ensures Ordered(Acted(s, outcome))
  {
    hide Ordered, Checked, RestorePending, ActedCaptureSettings, ActedCaptureManifest, ActedPrepareWorking,
      ActedRecordMigrating, ActedDropBackup, ActedRecordPromoting, ActedPromoteSettings, ActedPromoteDatabase,
      ActedRecordInstalled, ActedRestoreDatabase, ActedRestoreSettings, ActedRecordRestored, ActedRecordCompleted;
    match s.parent
    case Off =>
    case Check => CheckOrders(s);
    case CaptureDatabase =>
    case CaptureSettings(id) => CaptureSettingsOrders(s, id, outcome);
    case CaptureManifest(id) => CaptureManifestOrders(s, id, outcome);
    case PrepareWorking(id) => PrepareWorkingOrders(s, id, outcome);
    case RecordMigrating(id) => RecordMigratingOrders(s, id, outcome);
    case DropBackup(id) => DropBackupOrders(s, id, outcome);
    case RunMigration(_) =>
    case RecordPromoting(id) => RecordPromotingOrders(s, id, outcome);
    case PromoteSettings(id) => PromoteSettingsOrders(s, id, outcome);
    case PromoteDatabase(id) => PromoteDatabaseOrders(s, id, outcome);
    case RecordInstalled(id) => RecordInstalledOrders(s, id, outcome);
    case RestoreDatabase(id, cause) => RestoreDatabaseOrders(s, id, cause, outcome);
    case RestoreSettings(id, cause) => RestoreSettingsOrders(s, id, cause, outcome);
    case RecordRestored(id, cause, untouched) => RecordRestoredOrders(s, id, cause, untouched, outcome);
    case StartTarget =>
    case AwaitValidation(_) => AwaitValidationOrders(s, outcome);
    case RecordCompleted(token) => RecordCompletedOrders(s, token, outcome);
    case RecordAdmitted(_) => RecordAdmittedOrders(s, outcome);
    case Watch => WatchOrders(s, outcome);
    case StopCommitted => StopCommittedOrders(s, outcome);
    case NoteFailure => StopCommittedOrders(s, outcome);
    case StopPending => StopPendingOrders(s);
  }

  /** Every step keeps the order. */
  lemma NextOrders(s: State, e: Event)
    requires Ordered(s)
    ensures Ordered(Next(s, e))
  {
    hide Ordered, Booted, Acted, Captured, Spawned;
    match e
    case Boot(image, admission) =>
      if s.parent.Off? {
        ChoosingOrders(s, image, admission);
        BootOrders(s.(image := image, admission := admission));
      }
    case Crash => CrashOrders(s, e);
    case Outside(_) => WriterOrders(s, e);
    case Act(outcome) => ActOrders(s, outcome);
    case Capture(id, outcome) =>
      if s.parent.CaptureDatabase? && id !in s.backups {
        CaptureOrders(s, id, outcome);
      }
    case Migrated(result, passed) =>
      if s.parent.RunMigration? {
        MigrationOrders(s, result, passed);
      }
    case Spawn(token, started) =>
      if s.parent.StartTarget? && token !in s.used {
        SpawnOrders(s, token, started);
      }
    case GiveUp => GiveUpOrders(s, e);
    case Validate(_) => ValidateOrders(s, e);
    case Enter => EnterOrders(s, e);
    case Serve(_) => WriterOrders(s, e);
    case Exit => ExitOrders(s, e);
  }

  lemma {:induction false} RunOrders(s: State, events: seq<Event>)
    requires Ordered(s)
    ensures Ordered(Run(s, events))
    decreases |events|
  {
    hide Ordered, Next;
    if events != [] {
      NextOrders(s, events[0]);
      RunOrders(Next(s, events[0]), events[1..]);
    }
  }

  // ----- Who writes the record -----

  lemma CompletedIsWritten(s: State, e: Event)
    requires !IsAt(s.record, Completed) && IsAt(Next(s, e).record, Completed)
    ensures e.Act? && Lands(e.outcome) && (s.parent.RecordInstalled? || s.parent.RecordCompleted?)
  {
    hide Next, Acted;
    if e.Act? {
      ActIsNext(s, e.outcome);
      if Recorder(s.parent) {
        RecordersWrite(s, e.outcome);
      } else {
        OthersKeepRecord(s, e.outcome);
      }
    } else {
      OnlyActsRecord(s, e);
    }
  }

  /** The program counters that write a new record. */
  predicate Recorder(p: Parent) {
    p.RecordMigrating? || p.RecordPromoting? || p.RecordInstalled? || p.RecordRestored? || p.RecordCompleted?
  }

  lemma OthersKeepRecord(s: State, outcome: Outcome)
    requires !Recorder(s.parent)
    ensures Acted(s, outcome).record in {s.record, NoRecord}
  {
    hide Checked, RestorePending, ActedCaptureSettings, ActedCaptureManifest, ActedPrepareWorking, ActedDropBackup,
      ActedPromoteSettings, ActedPromoteDatabase, ActedRestoreDatabase, ActedRestoreSettings;
  }

  lemma RecordersWrite(s: State, outcome: Outcome)
    requires Recorder(s.parent)
    ensures IsAt(Acted(s, outcome).record, Completed) && !IsAt(s.record, Completed) ==>
              Lands(outcome) && (s.parent.RecordInstalled? || s.parent.RecordCompleted?)
  {
  }

  lemma ActIsNext(s: State, outcome: Outcome)
    ensures Next(s, Act(outcome)) == Acted(s, outcome)
  {
  }

  lemma OnlyActsRecord(s: State, e: Event)
    requires !e.Act?
    ensures Next(s, e).record == s.record
    ensures forall id :: Loadable(s, id) ==> Loadable(Next(s, e), id)
    ensures Next(s, e).parent.DropBackup? ==> s.parent.DropBackup?
  {
  }
}
