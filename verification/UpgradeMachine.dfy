/**
 The automatic upgrade as a step machine over the files it keeps. A step is one
 effect of the starting program (the parent), one effect of the application it
 starts (the child), a write by the user while nothing runs, or a crash. A crash
 takes both programs and leaves the files.
 */
module UpgradeMachine {
  // ----- The files -----

  datatype Database = NoDatabase | TornDatabase | Database(content: nat, marked: bool)

  datatype Settings = NoSettings | TornSettings | Settings(content: nat)

  datatype Pair = Pair(database: Database, settings: Settings)

  /** A backup directory; it can be loaded once its manifest is written. */
  datatype Backup = Backup(pair: Pair, manifest: bool)

  datatype Stage =
    | Running | Migrating | Promoting | PromotedPendingStartup
    | Completed | Failed | InterruptedUnchanged | InterruptedRestored

  /** The state file: absent or unreadable, or a record. `signature` stands for the hashes it holds. */
  datatype Record = NoRecord | Record(stage: Stage, backup: nat, image: nat, signature: Pair)

  predicate Marked(database: Database) {
    database.Database? && database.marked
  }

  /** The stages startup restores from. */
  predicate InRestoreStage(record: Record) {
    record.Record? && record.stage in {Running, Migrating, Promoting, PromotedPendingStartup}
  }

  predicate IsAt(record: Record, stage: Stage) {
    record.Record? && record.stage == stage
  }

  // ----- The programs -----

  datatype Cause = InterruptedRun | PromotionFailure | StartupFailure

  /** What the parent does next. */
  datatype Parent =
    | Off
    | Check
    | CaptureDatabase | CaptureSettings(id: nat) | CaptureManifest(id: nat)
    | PrepareWorking(id: nat) | RecordMigrating(id: nat) | DropBackup(id: nat)
    | RunMigration(id: nat) | RecordPromoting(id: nat)
    | PromoteSettings(id: nat) | PromoteDatabase(id: nat) | RecordInstalled(id: nat)
    | RestoreDatabase(id: nat, cause: Cause) | RestoreSettings(id: nat, cause: Cause)
    | RecordRestored(id: nat, cause: Cause, untouched: bool)
    | StartTarget
    | AwaitValidation(token: nat) | RecordCompleted(token: nat) | RecordAdmitted(token: nat)
    | Watch | StopCommitted | NoteFailure | StopPending

  /** `Serving` is past admission, or was started without a token. */
  datatype Child = NotRunning | Starting(token: nat) | Waiting(token: nat) | Serving

  /**
   `truth` is the pair the user must not lose: the live pair as last written by
   the user or by an admitted target, or as committed by a `Completed` record.
   `accepted` is the promoted pair once a `Completed` record over it has landed,
   even when that is reported as failed, and `truth` otherwise. `promoted` is the
   pair the last promotion installs.
   */
  datatype State = State(
    live: Pair,
    record: Record,
    backups: map<nat, Backup>,
    working: map<nat, Pair>,
    validated: set<nat>,
    admitted: set<nat>,
    used: set<nat>,
    image: nat,
    admission: bool,
    parent: Parent,
    child: Child,
    truth: Pair,
    accepted: Pair,
    promoted: Pair)

  /** `Torn` leaves a replaced file half written, and a state file unreadable. */
  datatype Outcome = Done | DoneThenRaised | Raised | Torn

  datatype Event =
    | Boot(image: nat, admission: bool)
    | Crash
    | Outside(live: Pair)
    | Act(outcome: Outcome)
    | Capture(id: nat, outcome: Outcome)
    | Migrated(result: Pair, passed: bool)
    | Spawn(token: nat, started: bool)
    | GiveUp
    | Validate(outcome: Outcome)
    | Enter
    | Serve(live: Pair)
    | Exit

  // ----- Effects -----

  function InstallDatabase(live: Pair, source: Database, outcome: Outcome): Pair {
    match outcome
    case Done => live.(database := source)
    case DoneThenRaised => live.(database := source)
    case Raised => live
    case Torn => if source.NoDatabase? then live else live.(database := TornDatabase)
  }

  function InstallSettings(live: Pair, source: Settings, outcome: Outcome): Pair {
    match outcome
    case Done => live.(settings := source)
    case DoneThenRaised => live.(settings := source)
    case Raised => live
    case Torn => if source.NoSettings? then live else live.(settings := TornSettings)
  }

  predicate Lands(outcome: Outcome) {
    outcome.Done? || outcome.DoneThenRaised?
  }

  function WriteRecord(old_: Record, new_: Record, outcome: Outcome): Record {
    match outcome
    case Done => new_
    case DoneThenRaised => new_
    case Raised => old_
    case Torn => NoRecord
  }

  predicate Loadable(s: State, id: nat) {
    id in s.backups && s.backups[id].manifest
  }

  // ----- One step -----

  /** The next state; an event that cannot happen in `s` changes nothing. */
  function Next(s: State, e: Event): State {
    match e
    case Boot(image, admission) =>
      if s.parent.Off? then Booted(s.(image := image, admission := admission)) else s
    case Crash => s.(parent := Off, child := NotRunning)
    case Outside(live) =>
      if s.parent.Off? && !InRestoreStage(s.record) then s.(live := live, truth := live, accepted := live) else s
    case Act(outcome) => Acted(s, outcome)
    case Capture(id, outcome) =>
      if s.parent.CaptureDatabase? && id !in s.backups then Captured(s, id, outcome) else s
    case Migrated(result, passed) =>
      if s.parent.RunMigration? then
        s.(working := s.working[s.parent.id := result],
           parent := if passed then RecordPromoting(s.parent.id)
                     else RecordRestored(s.parent.id, PromotionFailure, true))
      else s
    case Spawn(token, started) =>
      if s.parent.StartTarget? && token !in s.used then Spawned(s, token, started) else s
    case GiveUp =>
      if s.parent.AwaitValidation? then s.(parent := StopPending)
      else if s.parent.Watch? then s.(parent := StopCommitted)
      else s
    case Validate(outcome) =>
      if !s.child.Starting? then s
      else
        s.(validated := if Lands(outcome) then s.validated + {s.child.token} else s.validated,
           child := if outcome.Done? then Waiting(s.child.token) else NotRunning)
    case Enter =>
      if s.child.Waiting? && s.child.token in s.admitted then
        s.(child := Serving, validated := s.validated - {s.child.token}, admitted := s.admitted - {s.child.token})
      else s
    case Serve(live) => if s.child.Serving? then s.(live := live, truth := live, accepted := live) else s
    case Exit => s.(child := NotRunning)
  }

  /** `main` up to the first effect: refuse, recover, check or start the target. */
  function Booted(s: State): (t: State)
    ensures t.record == s.record && t.truth == s.truth && t.accepted == s.accepted && t.backups == s.backups
  {
    if Marked(s.live.database) && !InRestoreStage(s.record) then Ready(s)
    else if IsAt(s.record, Completed) && !Marked(s.live.database) && !VerifiedRollback(s) then s.(parent := Off)
    else if !InRestoreStage(s.record) then s.(parent := Check)
    else if !Loadable(s, s.record.backup) then s.(parent := Off)
    else if s.record.stage == Migrating && s.record.signature == s.live then
      s.(parent := RecordRestored(s.record.backup, InterruptedRun, true))
    else s.(parent := RestoreDatabase(s.record.backup, InterruptedRun))
  }

  function Ready(s: State): (t: State)
    ensures t.record == s.record && t.truth == s.truth && t.accepted == s.accepted && t.backups == s.backups
  {
    s.(parent := if s.admission then StartTarget else Off)
  }

  /** The user put the backup of a completed upgrade back in place. */
  predicate VerifiedRollback(s: State)
    requires s.record.Record?
  {
    && Loadable(s, s.record.backup)
    && s.backups[s.record.backup].pair == s.live && s.live.database != NoDatabase
  }

  function Captured(s: State, id: nat, outcome: Outcome): (t: State)
    ensures t.record == s.record && t.truth == s.truth
  {
    if outcome.Done? && s.live.database != TornDatabase then
      s.(backups := s.backups[id := Backup(Pair(s.live.database, NoSettings), false)],
         accepted := s.truth, parent := CaptureSettings(id))
    else s.(backups := s.backups[id := Backup(Pair(TornDatabase, NoSettings), false)], parent := Off)
  }

  function Spawned(s: State, token: nat, started: bool): (t: State)
    ensures t.record == s.record && t.truth == s.truth && t.accepted == s.accepted && t.backups == s.backups
  {
    if IsAt(s.record, PromotedPendingStartup) then
      var begun := s.(used := s.used + {token}, validated := s.validated - {token}, admitted := s.admitted - {token});
      if started then begun.(child := Starting(token), parent := AwaitValidation(token))
      else RestorePending(begun)
    else if started then s.(child := Serving, parent := Watch)
    else s.(parent := Off)
  }

  /** `_restore_after_target_startup_failure` up to its first effect. */
  function RestorePending(s: State): (t: State)
    ensures t.record == s.record && t.truth == s.truth && t.accepted == s.accepted && t.backups == s.backups
  {
    if IsAt(s.record, PromotedPendingStartup) && Loadable(s, s.record.backup)
    then s.(parent := RestoreDatabase(s.record.backup, StartupFailure))
    else s.(parent := Off)
  }

  /** The parent's next effect. */
  function Acted(s: State, outcome: Outcome): State {
    match s.parent
    case Off => s
    case Check => Checked(s)
    case CaptureDatabase => s
    case CaptureSettings(id) => ActedCaptureSettings(s, id, outcome)
    case CaptureManifest(id) => ActedCaptureManifest(s, id, outcome)
    case PrepareWorking(id) => ActedPrepareWorking(s, id, outcome)
    case RecordMigrating(id) => ActedRecordMigrating(s, id, outcome)
    case DropBackup(id) => ActedDropBackup(s, id, outcome)
    case RunMigration(_) => s
    case RecordPromoting(id) => ActedRecordPromoting(s, id, outcome)
    case PromoteSettings(id) => ActedPromoteSettings(s, id, outcome)
    case PromoteDatabase(id) => ActedPromoteDatabase(s, id, outcome)
    case RecordInstalled(id) => ActedRecordInstalled(s, id, outcome)
    case RestoreDatabase(id, cause) => ActedRestoreDatabase(s, id, cause, outcome)
    case RestoreSettings(id, cause) => ActedRestoreSettings(s, id, cause, outcome)
    case RecordRestored(id, cause, untouched) => ActedRecordRestored(s, id, cause, untouched, outcome)
    case StartTarget => s
    case AwaitValidation(token) =>
      if s.child.NotRunning? then s.(parent := StopPending)
      else if token in s.validated then s.(parent := RecordCompleted(token))
      else s
    case RecordCompleted(token) => ActedRecordCompleted(s, token, outcome)
    case RecordAdmitted(token) =>
      s.(admitted := if Lands(outcome) then s.admitted + {token} else s.admitted,
         parent := if outcome.Done? then Watch else StopCommitted)
    case Watch =>
      if s.child.NotRunning? then s.(parent := NoteFailure)
      else if s.child.Serving? && IsAt(s.record, Completed) then s.(record := WriteRecord(s.record, s.record, outcome))
      else s
    case StopCommitted => s.(child := NotRunning, parent := NoteFailure)
    case NoteFailure =>
      s.(record := if IsAt(s.record, Completed) then WriteRecord(s.record, s.record, outcome) else s.record,
         parent := Off)
    case StopPending => RestorePending(s.(child := NotRunning))
  }

  /** After recovery: ready, refused because this image failed on this data, or a fresh attempt. */
  function Checked(s: State): (t: State)
    ensures t.record == s.record && t.truth == s.truth && t.accepted == s.accepted && t.backups == s.backups
  {
    if Marked(s.live.database) then Ready(s)
    else if IsAt(s.record, Failed) && s.record.image == s.image && s.record.signature == s.live then s.(parent := Off)
    else s.(parent := CaptureDatabase)
  }

  function ActedCaptureSettings(s: State, id: nat, outcome: Outcome): (t: State)
    ensures t.record == s.record && t.truth == s.truth && t.accepted == s.accepted
  {
    if id !in s.backups || !outcome.Done? then s.(parent := Off)
    else
      s.(backups := s.backups[id := Backup(s.backups[id].pair.(settings := s.live.settings), false)],
         parent := CaptureManifest(id))
  }

  function ActedCaptureManifest(s: State, id: nat, outcome: Outcome): (t: State)
    ensures t.record == s.record && t.truth == s.truth && t.accepted == s.accepted
  {
    if id !in s.backups || !Lands(outcome) then s.(parent := Off)
    else
      s.(backups := s.backups[id := Backup(s.backups[id].pair, true)],
         parent := if outcome.Done? then PrepareWorking(id) else Off)
  }

  function ActedPrepareWorking(s: State, id: nat, outcome: Outcome): (t: State)
    ensures t.record == s.record && t.truth == s.truth && t.accepted == s.accepted && t.backups == s.backups
  {
    if id !in s.backups || !outcome.Done? then s.(parent := DropBackup(id))
    else s.(working := s.working[id := s.backups[id].pair], parent := RecordMigrating(id))
  }

  function ActedRecordMigrating(s: State, id: nat, outcome: Outcome): (t: State)
    ensures t.truth == s.truth && t.accepted == s.accepted
  {
    s.(record := WriteRecord(s.record, Record(Migrating, id, s.image, s.live), outcome),
       parent := if outcome.Done? then RunMigration(id) else DropBackup(id))
  }

  /** `rmtree` with errors ignored: everything, something or nothing goes. */
  function ActedDropBackup(s: State, id: nat, outcome: Outcome): (t: State)
    ensures t.record == s.record && t.truth == s.truth && t.accepted == s.accepted
  {
    s.(backups :=
         if id !in s.backups || outcome.Raised? then s.backups
         else if outcome.Torn? then s.backups[id := s.backups[id].(manifest := false)]
         else map other | other in s.backups && other != id :: s.backups[other],
       parent := Off)
  }

  function ActedRecordPromoting(s: State, id: nat, outcome: Outcome): (t: State)
    ensures t.truth == s.truth && t.accepted == s.accepted
  {
    var work := if id in s.working then s.working[id] else Pair(NoDatabase, NoSettings);
    s.(record := WriteRecord(s.record, Record(Promoting, id, s.image, s.live), outcome),
       promoted := Pair(work.database, if work.settings.NoSettings? then s.live.settings else work.settings),
       parent := if outcome.Done? then PromoteSettings(id) else RecordRestored(id, PromotionFailure, true))
  }

  function ActedPromoteSettings(s: State, id: nat, outcome: Outcome): (t: State)
    ensures t.record == s.record && t.truth == s.truth && t.accepted == s.accepted && t.backups == s.backups
  {
    if id !in s.working || !Marked(s.working[id].database) then s.(parent := RestoreDatabase(id, PromotionFailure))
    else if s.working[id].settings.NoSettings? then s.(parent := PromoteDatabase(id))
    else
      s.(live := InstallSettings(s.live, s.working[id].settings, outcome),
         parent :=
           match outcome
           case Done => PromoteDatabase(id)
           case Torn => s.parent
           case _ => RestoreDatabase(id, PromotionFailure))
  }

  function ActedPromoteDatabase(s: State, id: nat, outcome: Outcome): (t: State)
    ensures t.record == s.record && t.truth == s.truth && t.accepted == s.accepted && t.backups == s.backups
  {
    if id !in s.working then s.(parent := RestoreDatabase(id, PromotionFailure))
    else
      s.(live := InstallDatabase(s.live, s.working[id].database, outcome),
         parent :=
           match outcome
           case Done => RecordInstalled(id)
           case Torn => s.parent
           case _ => RestoreDatabase(id, PromotionFailure))
  }

  /** The marker check and the record that ends the promotion. */
  function ActedRecordInstalled(s: State, id: nat, outcome: Outcome): State {
    if !Marked(s.live.database) then s.(parent := RestoreDatabase(id, PromotionFailure))
    else
      var stage := if s.admission then PromotedPendingStartup else Completed;
      s.(record := WriteRecord(s.record, Record(stage, id, s.image, s.live), outcome),
         truth := if !s.admission && outcome.Done? then s.live else s.truth,
         accepted := if !s.admission && Lands(outcome) then s.live else s.accepted,
         parent :=
           if !outcome.Done? then RestoreDatabase(id, PromotionFailure)
           else if s.admission then StartTarget
           else Off)
  }

  function ActedRestoreDatabase(s: State, id: nat, cause: Cause, outcome: Outcome): (t: State)
    ensures t.record == s.record && t.truth == s.truth && t.accepted == s.accepted && t.backups == s.backups
  {
    if !(id in s.backups) then s.(parent := Off)
    else
      s.(live := InstallDatabase(s.live, s.backups[id].pair.database, outcome),
         parent :=
           match outcome
           case Done => RestoreSettings(id, cause)
           case Torn => s.parent
           case _ => Off)
  }

  function ActedRestoreSettings(s: State, id: nat, cause: Cause, outcome: Outcome): (t: State)
    ensures t.record == s.record && t.truth == s.truth && t.accepted == s.accepted && t.backups == s.backups
  {
    if !(id in s.backups) then s.(parent := Off)
    else
      s.(live := InstallSettings(s.live, s.backups[id].pair.settings, outcome),
         parent :=
           match outcome
           case Done => RecordRestored(id, cause, false)
           case Torn => s.parent
           case _ => Off)
  }

  function ActedRecordRestored(s: State, id: nat, cause: Cause, untouched: bool, outcome: Outcome): (t: State)
    ensures t.truth == s.truth && t.accepted == s.accepted
  {
    var stage :=
      if !cause.InterruptedRun? then Failed else if untouched then InterruptedUnchanged else InterruptedRestored;
    s.(record := WriteRecord(s.record, Record(stage, id, s.image, s.live), outcome),
       parent := if cause.InterruptedRun? && outcome.Done? then Check else Off)
  }

  /** The commit of an admission. When the write raises, the parent reads the record again. */
  function ActedRecordCompleted(s: State, token: nat, outcome: Outcome): State {
    if !IsAt(s.record, PromotedPendingStartup) then
      s.(parent := if IsAt(s.record, Completed) then StopCommitted else StopPending)
    else
      var record := WriteRecord(s.record, s.record.(stage := Completed), outcome);
      s.(record := record,
         truth := if Lands(outcome) then s.live else s.truth,
         accepted := if Lands(outcome) then s.live else s.accepted,
         parent :=
           if outcome.Done? then RecordAdmitted(token)
           else if IsAt(record, Completed) then StopCommitted
           else StopPending)
  }

  // ----- Runs -----

  /** Nothing runs, and either nothing was recorded or an older attempt left an intact backup of the originals. */
  predicate Init(s: State) {
    && s.parent.Off? && s.child.NotRunning? && s.validated == {} && s.admitted == {} && s.used == {}
    && (s.record.NoRecord? || s.record.stage == Running)
    && s.accepted == s.truth && (s.record.NoRecord? ==> s.live == s.truth)
    && (s.record.Record? ==>
          && Loadable(s, s.record.backup) && s.backups[s.record.backup].pair == s.truth
          && !Marked(s.truth.database) && s.truth.database != TornDatabase
          && (Marked(s.live.database) ==> s.live.settings == s.promoted.settings))
  }

  function Run(s: State, events: seq<Event>): State
    decreases |events|
  {
    if events == [] then s else Run(Next(s, events[0]), events[1..])
  }
}
