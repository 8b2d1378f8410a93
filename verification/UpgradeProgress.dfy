/**
 What the upgrade gets done. The safety laws say what no run does; these say
 where a run arrives when nothing fails, and what a start answers to an attempt
 that failed, was interrupted, or was taken back.
 */
module UpgradeProgress {
  import opened UpgradeMachine
  import opened UpgradeOrder
  import opened UpgradeSafety
  import opened UpgradeGuarantees

  /** One more event at the end of a run. */
  lemma Step(start: State, events: seq<Event>, s: State, e: Event) returns (more: seq<Event>, t: State)
    requires Run(start, events) == s
    ensures more == events + [e] && t == Next(s, e) && Run(start, more) == t
  {
    hide Next;
    RunOn(start, events, e);
    more, t := events + [e], Next(s, e);
  }

  // ----- An attempt -----

  /** A start goes as far as an attempt: the pair is old and whole, and this image has not failed on it. */
  predicate Attemptable(s: State) {
    && s.child.NotRunning? && s.live == s.truth && !InRestoreStage(s.record)
    && !Marked(s.live.database) && s.live.database != TornDatabase
    && !(IsAt(s.record, Failed) && s.record.image == s.image && s.record.signature == s.live)
  }

  /** The migrated database, with the migrated settings or, where there are none, the old ones. */
  function Installed(old_: Pair, result: Pair): Pair {
    Pair(result.database, if result.settings.NoSettings? then old_.settings else result.settings)
  }

  /** Up to the backup, then up to the migration. */
  function Preparation(id: nat): seq<Event> {
    [Act(Done), Capture(id, Done), Act(Done), Act(Done)] + [Act(Done), Act(Done)]
  }

  /** The migration and its record, then both files and the record of the promotion. */
  function Installation(result: Pair): seq<Event> {
    [Migrated(result, true), Act(Done)] + [Act(Done), Act(Done), Act(Done)]
  }

  /** Up to the validated target, then up to its admission. */
  function Admission(token: nat): seq<Event> {
    [Spawn(token, true), Validate(Done), Act(Done)] + [Act(Done), Act(Done), Enter]
  }

  lemma {:induction false} RunAppend(s: State, events: seq<Event>, more: seq<Event>)
    ensures Run(s, events + more) == Run(Run(s, events), more)
    decreases |events|
  {
    hide Next;
    if events == [] {
      assert events + more == more;
    } else {
      assert (events + more)[1..] == events[1..] + more;
      RunAppend(Next(s, events[0]), events[1..], more);
    }
  }

  lemma CaptureRuns(s: State, id: nat)
    requires s.parent.Check? && Attemptable(s) && id !in s.backups
    ensures Run(s, [Act(Done), Capture(id, Done), Act(Done), Act(Done)]) ==
              s.(parent := PrepareWorking(id), accepted := s.truth, backups := s.backups[id := Backup(s.live, true)])
  {
    hide Run;
    var events, t := [], s;
    assert Run(s, events) == t by { RunNone(s); }
    events, t := Step(s, events, t, Act(Done));
    events, t := Step(s, events, t, Capture(id, Done));
    events, t := Step(s, events, t, Act(Done));
    assert t.backups == s.backups[id := Backup(s.live, false)];
    events, t := Step(s, events, t, Act(Done));
    assert t.backups == s.backups[id := Backup(s.live, true)];
    assert events == [Act(Done), Capture(id, Done), Act(Done), Act(Done)];
  }

  lemma RecordingRuns(s: State)
    requires s.parent.PrepareWorking? && s.parent.id in s.backups
    ensures var id := s.parent.id;
            Run(s, [Act(Done), Act(Done)]) ==
              s.(parent := RunMigration(id), record := Record(Migrating, id, s.image, s.live),
                 working := s.working[id := s.backups[id].pair])
  {
    RunTwo(s, Act(Done), Act(Done));
  }

  lemma PreparationRuns(s: State, id: nat)
    requires s.parent.Check? && Attemptable(s) && id !in s.backups
    ensures Run(s, Preparation(id)) ==
              s.(parent := RunMigration(id), accepted := s.truth, record := Record(Migrating, id, s.image, s.live),
                 backups := s.backups[id := Backup(s.live, true)], working := s.working[id := s.live])
  {
    hide Run, Next;
    CaptureRuns(s, id);
    RecordingRuns(Run(s, [Act(Done), Capture(id, Done), Act(Done), Act(Done)]));
    RunAppend(s, [Act(Done), Capture(id, Done), Act(Done), Act(Done)], [Act(Done), Act(Done)]);
  }

  lemma MigratingRuns(s: State, result: Pair)
    requires s.parent.RunMigration?
    ensures var id := s.parent.id;
            Run(s, [Migrated(result, true), Act(Done)]) ==
              s.(working := s.working[id := result], promoted := Installed(s.live, result),
                 record := Record(Promoting, id, s.image, s.live), parent := PromoteSettings(id))
  {
    RunTwo(s, Migrated(result, true), Act(Done));
  }

  lemma PromotingRuns(s: State)
    requires s.parent.PromoteSettings? && s.parent.id in s.working && Marked(s.working[s.parent.id].database)
    ensures var id := s.parent.id;
            var new_ := Installed(s.live, s.working[id]);
            Run(s, [Act(Done), Act(Done), Act(Done)]) ==
              s.(live := new_,
                 record := Record(if s.admission then PromotedPendingStartup else Completed, id, s.image, new_),
                 truth := if s.admission then s.truth else new_,
                 accepted := if s.admission then s.accepted else new_,
                 parent := if s.admission then StartTarget else Off)
  {
    hide Run;
    var id := s.parent.id;
    var events, t := [], s;
    assert Run(s, events) == t by { RunNone(s); }
    events, t := Step(s, events, t, Act(Done));
    assert t == s.(live := s.live.(settings := Installed(s.live, s.working[id]).settings), parent :=
        PromoteDatabase(id));
    events, t := Step(s, events, t, Act(Done));
    assert t == s.(live := Installed(s.live, s.working[id]), parent := RecordInstalled(id));
    events, t := Step(s, events, t, Act(Done));
    assert events == [Act(Done), Act(Done), Act(Done)];
  }

  lemma InstallationRuns(s: State, result: Pair)
    requires s.parent.RunMigration? && Marked(result.database)
    ensures var id, new_ := s.parent.id, Installed(s.live, result);
            Run(s, Installation(result)) ==
              s.(working := s.working[id := result], promoted := new_, live := new_,
                 record := Record(if s.admission then PromotedPendingStartup else Completed, id, s.image, new_),
                 truth := if s.admission then s.truth else new_,
                 accepted := if s.admission then s.accepted else new_,
                 parent := if s.admission then StartTarget else Off)
  {
    hide Run, Next;
    MigratingRuns(s, result);
    PromotingRuns(Run(s, [Migrated(result, true), Act(Done)]));
    RunAppend(s, [Migrated(result, true), Act(Done)], [Act(Done), Act(Done), Act(Done)]);
  }

  lemma ValidationRuns(s: State, token: nat)
    requires s.parent.StartTarget? && IsAt(s.record, PromotedPendingStartup) && token !in s.used
    ensures Run(s, [Spawn(token, true), Validate(Done), Act(Done)]) ==
              s.(used := s.used + {token}, validated := s.validated + {token}, admitted := s.admitted - {token},
                 child := Waiting(token), parent := RecordCompleted(token))
  {
    hide Run;
    var events, t := [], s;
    assert Run(s, events) == t by { RunNone(s); }
    events, t := Step(s, events, t, Spawn(token, true));
    events, t := Step(s, events, t, Validate(Done));
    assert t.validated == s.validated + {token};
    events, t := Step(s, events, t, Act(Done));
    assert events == [Spawn(token, true), Validate(Done), Act(Done)];
  }

  /**
   When the commit of an admission and the token behind it are written, the
   waiting target reads the token and serves, over the promoted pair.
   */
  lemma AdmissionCompletes(s: State, token: nat)
    requires s.parent == RecordCompleted(token) && s.child == Waiting(token)
    requires IsAt(s.record, PromotedPendingStartup)
    ensures Run(s, [Act(Done), Act(Done), Enter]) ==
              s.(record := s.record.(stage := Completed), truth := s.live, accepted := s.live,
                 validated := s.validated - {token}, admitted := s.admitted - {token},
                 child := Serving, parent := Watch)
  {
    hide Run, Next;
    var t := s.(record := s.record.(stage := Completed), truth := s.live, accepted := s.live,
                parent := RecordAdmitted(token));
    CommitLands(s, t, token);
    TokenRead(t, token);
    RunAppend(s, [Act(Done)], [Act(Done), Enter]);
    RunOne(s, Act(Done));
    RunTwo(t, Act(Done), Enter);
    assert [Act(Done)] + [Act(Done), Enter] == [Act(Done), Act(Done), Enter];
  }

  lemma CommitLands(s: State, t: State, token: nat)
    requires s.parent == RecordCompleted(token) && IsAt(s.record, PromotedPendingStartup)
    requires t == s.(record := s.record.(stage := Completed), truth := s.live, accepted := s.live,
                     parent := RecordAdmitted(token))
    ensures Next(s, Act(Done)) == t
  {
  }

  lemma TokenRead(s: State, token: nat)
    requires s.parent == RecordAdmitted(token) && s.child == Waiting(token)
    ensures Next(Next(s, Act(Done)), Enter) ==
              s.(validated := s.validated - {token}, admitted := s.admitted - {token},
                 child := Serving, parent := Watch)
  {
    var t := Next(s, Act(Done));
    assert t == s.(admitted := s.admitted + {token}, parent := Watch);
    assert t.admitted - {token} == s.admitted - {token};
  }

  lemma AdmissionRuns(s: State, token: nat)
    requires s.parent.StartTarget? && IsAt(s.record, PromotedPendingStartup) && token !in s.used
    ensures var t := Run(s, Admission(token));
            && t.child.Serving? && t.parent.Watch? && t.record == s.record.(stage := Completed)
            && t.live == t.truth == t.accepted == s.live && t.backups == s.backups && t.admission == s.admission
  {
    hide Run, Next;
    ValidationRuns(s, token);
    AdmissionCompletes(Run(s, [Spawn(token, true), Validate(Done), Act(Done)]), token);
    RunAppend(s, [Spawn(token, true), Validate(Done), Act(Done)], [Act(Done), Act(Done), Enter]);
  }

  /** What an attempt does when nothing fails: preparation, installation and, where asked for, admission. */
  function Attempt(s: State, id: nat, token: nat, result: Pair): seq<Event> {
    Preparation(id) + Installation(result) + if s.admission then Admission(token) else []
  }

  /** The upgrade is done: recorded over the new pair, with the old pair in a backup that can be loaded. */
  predicate UpgradedTo(s: State, old_: Pair, id: nat, new_: Pair) {
    && IsAt(s.record, Completed) && s.record.backup == id && Loadable(s, id) && s.backups[id].pair == old_
    && s.live == s.truth == new_
    && if s.admission then s.child.Serving? && s.parent.Watch? else s.child.NotRunning? && s.parent.Off?
  }

  /**
   An attempt in which nothing fails ends with the promoted pair live, recorded
   as completed and protected from then on, the old pair in the backup, and,
   where admission is required, the target past it.
   */
  lemma AttemptCompletes(s: State, id: nat, token: nat, result: Pair)
    requires s.parent.Check? && Attemptable(s) && id !in s.backups && token !in s.used && Marked(result.database)
    ensures var t := Run(s, Attempt(s, id, token, result));
            UpgradedTo(t, s.live, id, Installed(s.live, result)) && t.admission == s.admission
  {
    hide Run, Next, Preparation, Installation, Admission;
    PreparationRuns(s, id);
    var prepared := Run(s, Preparation(id));
    InstallationRuns(prepared, result);
    var installed := Run(prepared, Installation(result));
    RunAppend(s, Preparation(id), Installation(result));
    if s.admission {
      AdmissionRuns(installed, token);
      RunAppend(s, Preparation(id) + Installation(result), Admission(token));
    } else {
      assert Attempt(s, id, token, result) == Preparation(id) + Installation(result);
    }
  }

  // ----- Starts -----

  /** Nothing runs, and no record or backup stands in the way of an attempt. */
  predicate Startable(s: State, image: nat) {
    && s.parent.Off? && Inv(s)
    && if InRestoreStage(s.record) then Loadable(s, s.record.backup)
       else
         && !Marked(s.live.database) && s.live.database != TornDatabase
         && (IsAt(s.record, Completed) ==> VerifiedRollback(s))
         && !(IsAt(s.record, Failed) && s.record.image == image && s.record.signature == s.live)
  }

  /** A start in which nothing fails: recovery where the record asks for it, and an attempt. */
  function Upgrade(s: State, image: nat, admission: bool, id: nat, token: nat, result: Pair): seq<Event> {
    (if InRestoreStage(s.record) then Recovery(s, image, admission) else [Boot(image, admission)])
    + Attempt(s.(admission := admission), id, token, result)
  }

  /**
   From every state with a whole, old pair live or to be restored, a start in
   which nothing fails completes the upgrade of that pair.
   */
  lemma UpgradeCompletes(s: State, image: nat, admission: bool, id: nat, token: nat, result: Pair)
    requires Startable(s, image) && id !in s.backups && token !in s.used && Marked(result.database)
    ensures UpgradedTo(Run(s, Upgrade(s, image, admission, id, token, result)), s.truth, id, Installed(s.truth, result))
  {
    hide Run, Next, Attempt, UpgradedTo, Installed, Recovery;
    var starting := if InRestoreStage(s.record) then Recovery(s, image, admission) else [Boot(image, admission)];
    StartReaches(s, image, admission);
    var t := Run(s, starting);
    AttemptCompletes(t, id, token, result);
    RunAppend(s, starting, Attempt(t, id, token, result));
    assert Attempt(t, id, token, result) == Attempt(s.(admission := admission), id, token, result) by {
      SameAttempt(t, s.(admission := admission), id, token, result);
    }
  }

  lemma SameAttempt(s: State, t: State, id: nat, token: nat, result: Pair)
    requires s.admission == t.admission
    ensures Attempt(s, id, token, result) == Attempt(t, id, token, result)
  {
  }

  lemma StartReaches(s: State, image: nat, admission: bool)
    requires Startable(s, image)
    ensures var t :=
              Run(s, if InRestoreStage(s.record) then Recovery(s, image, admission) else [Boot(image, admission)]);
            && t.parent.Check? && Attemptable(t) && t.live == s.truth
            && t.admission == admission && t.backups == s.backups && t.used == s.used
  {
    if InRestoreStage(s.record) {
      RecoveryExact(s, image, admission);
    } else {
      PlainStart(s, image, admission);
    }
  }

  lemma PlainStart(s: State, image: nat, admission: bool)
    requires Startable(s, image) && !InRestoreStage(s.record)
    ensures Run(s, [Boot(image, admission)]) == s.(image := image, admission := admission, parent := Check)
    ensures s.live == s.truth
  {
    RunOne(s, Boot(image, admission));
  }

  /**
   A pair with the marker is not migrated again: the application is started over
   it, without a token, and serves. Without admission there is nothing to do.
   */
  lemma MarkedStarts(s: State, image: nat, token: nat)
    requires s.parent.Off? && Marked(s.live.database) && !InRestoreStage(s.record) && token !in s.used
    ensures Run(s, [Boot(image, true), Spawn(token, true)]) ==
              s.(image := image, admission := true, parent := Watch, child := Serving)
    ensures Run(s, [Boot(image, true), Spawn(token, false)]) == s.(image := image, admission := true)
    ensures Run(s, [Boot(image, false)]) == s.(image := image, admission := false)
  {
    RunTwo(s, Boot(image, true), Spawn(token, true));
    RunTwo(s, Boot(image, true), Spawn(token, false));
    RunOne(s, Boot(image, false));
  }

  /** A migration that does not pass changes nothing, and is recorded with the image and the data it failed on. */
  lemma FailedMigrationIsRecorded(s: State, result: Pair)
    requires s.parent.RunMigration?
    ensures Run(s, [Migrated(result, false), Act(Done)]) ==
              s.(working := s.working[s.parent.id := result], parent := Off,
                 record := Record(Failed, s.parent.id, s.image, s.live))
  {
    RunTwo(s, Migrated(result, false), Act(Done));
  }

  /**
   After a failed attempt and any further writes by the user, a start over an
   unmarked pair makes a new attempt exactly when the image or the pair is
   another one, and changes nothing otherwise.
   */
  lemma FailedIsRefused(s: State, live: Pair, image: nat, admission: bool)
    requires s.parent.Off? && IsAt(s.record, Failed) && !Marked(live.database)
    ensures var outside := Next(s, Outside(live));
            var t := Next(Next(outside, Boot(image, admission)), Act(Done));
            && outside.live == live
            && (t.parent.CaptureDatabase? <==> image != s.record.image || live != s.record.signature)
            && (!t.parent.CaptureDatabase? ==> t == outside.(image := image, admission := admission))
  {
  }

  /**
   After a completed upgrade a start over an unmarked pair makes a new attempt
   exactly when that pair is the one in the backup and there is a database in it;
   any other unmarked pair is refused and left as it is.
   */
  lemma RollbackIsRetried(s: State, old_: Pair, id: nat, new_: Pair, live: Pair, image: nat, admission: bool)
    requires UpgradedTo(s, old_, id, new_) && s.parent.Off? && !Marked(live.database)
    ensures var outside := Next(s, Outside(live));
            var t := Next(Next(outside, Boot(image, admission)), Act(Done));
            && outside.live == live
            && (t.parent.CaptureDatabase? <==> live == old_ && !old_.database.NoDatabase?)
            && (!t.parent.CaptureDatabase? ==> t == outside.(image := image, admission := admission))
  {
  }

  // ----- Failures that are made good -----

  /** The attempt is taken back: the old pair is live, nothing runs, and the failure is recorded. */
  predicate TakenBack(s: State, old_: Pair) {
    && s.parent.Off? && s.child.NotRunning? && s.live == s.truth == old_
    && IsAt(s.record, Failed) && s.record.image == s.image && s.record.signature == old_
  }

  /**
   An attempt that cannot be prepared ends with the record, the live pair and all other backups as they
   were; its own backup is dropped again, or can be loaded only where the write of its manifest landed.
   */
  lemma FailedPreparationLeavesNothing(s: State, outcome: Outcome)
    requires !outcome.Done?
    ensures s.parent.CaptureSettings? || s.parent.CaptureManifest? ==>
              var t, id := Next(s, Act(outcome)), s.parent.id;
              && t == s.(parent := Off, backups := t.backups) && t.backups.Keys == s.backups.Keys
              && (forall other | other in s.backups && other != id :: t.backups[other] == s.backups[other])
              && (Loadable(t, id) && !Loadable(s, id) ==> s.parent.CaptureManifest? && Lands(outcome))
    ensures s.parent.PrepareWorking? || (s.parent.RecordMigrating? && outcome.Raised?) ==>
              var t := Next(Next(s, Act(outcome)), Act(Done));
              && t == s.(parent := Off, backups := t.backups) && t.backups.Keys == s.backups.Keys - {s.parent.id}
              && (forall other | other in t.backups :: t.backups[other] == s.backups[other])
  {
    if s.parent.PrepareWorking? || (s.parent.RecordMigrating? && outcome.Raised?) {
      assert Next(s, Act(outcome)) == s.(parent := DropBackup(s.parent.id));
    }
  }

  /** A backup can be loaded exactly from the write of its manifest on, if that landed. */
  lemma LoadableOnceManifested(s: State, id: nat, outcome: Outcome)
    requires s.parent.CaptureDatabase? ==> id !in s.backups
    requires s.parent.CaptureSettings? || s.parent.CaptureManifest? ==> id == s.parent.id && id in s.backups
    ensures s.parent.CaptureDatabase? ==> !Loadable(Next(s, Capture(id, outcome)), id)
    ensures s.parent.CaptureSettings? ==> (Loadable(Next(s, Act(outcome)), id) ==> Loadable(s, id))
    ensures s.parent.CaptureManifest? ==>
              (Loadable(Next(s, Act(outcome)), id) <==> Lands(outcome) || Loadable(s, id))
  {
  }

  /**
   A token counts once its file is there, even when the write was reported as
   failed: the parent then sees the validation, and the target its admission,
   unless it is stopped before.
   */
  lemma LandedTokensCount(s: State, outcome: Outcome)
    requires s.child.Starting? || (s.child.Waiting? && s.parent == RecordAdmitted(s.child.token))
    requires s.child.token !in s.validated && s.child.token !in s.admitted
    ensures s.child.Starting? ==> (s.child.token in Next(s, Validate(outcome)).validated <==> Lands(outcome))
    ensures s.child.Waiting? ==> (Next(Next(s, Act(outcome)), Enter).child.Serving? <==> Lands(outcome))
  {
  }

  const UNDO: seq<Event> := [Act(Done), Act(Done), Act(Done)]

  lemma UndoRuns(s: State)
    requires Inv(s) && s.parent.RestoreDatabase? && !s.parent.cause.InterruptedRun?
    ensures TakenBack(Run(s, UNDO), s.truth)
  {
    hide Run, Inv;
    RestoringHasBackup(s);
    var id, cause := s.parent.id, s.parent.cause;
    var events, t := [], s;
    assert Run(s, events) == t by { RunNone(s); }
    events, t := Step(s, events, t, Act(Done));
    assert t == s.(live := s.live.(database := s.truth.database), parent := RestoreSettings(id, cause));
    events, t := Step(s, events, t, Act(Done));
    assert t == s.(live := s.truth, parent := RecordRestored(id, cause, false));
    events, t := Step(s, events, t, Act(Done));
    assert events == UNDO;
  }

  lemma RestoringHasBackup(s: State)
    requires Inv(s) && s.parent.RestoreDatabase?
    ensures Saved(s, s.parent.id) && s.child.NotRunning?
  {
  }

  /** A promotion that fails, on a file or because the migrated database carries no marker, is taken back. */
  lemma FailedPromotionIsUndone(s: State, outcome: Outcome)
    requires Inv(s) && !outcome.Torn?
    requires || (s.parent.PromoteDatabase? && !outcome.Done?)
             || (s.parent.PromoteSettings? && !Marked(s.working[s.parent.id].database))
             || (s.parent.PromoteSettings? && !s.working[s.parent.id].settings.NoSettings? && !outcome.Done?)
    ensures TakenBack(Run(s, [Act(outcome)] + UNDO), s.truth)
  {
    hide Run;
    var t := Next(s, Act(outcome));
    assert t.parent.RestoreDatabase? && !t.parent.cause.InterruptedRun? && t.truth == s.truth;
    NextKeeps(s, Act(outcome));
    UndoRuns(t);
    RunOne(s, Act(outcome));
    RunAppend(s, [Act(outcome)], UNDO);
  }

  /** A target that cannot be started is taken back with the promotion. */
  lemma FailedSpawnIsUndone(s: State, token: nat)
    requires Inv(s) && s.parent.StartTarget? && InRestoreStage(s.record) && token !in s.used
    ensures TakenBack(Run(s, [Spawn(token, false)] + UNDO), s.truth)
  {
    hide Run;
    var t := Next(s, Spawn(token, false));
    assert t.parent.RestoreDatabase? && !t.parent.cause.InterruptedRun? && t.truth == s.truth;
    NextKeeps(s, Spawn(token, false));
    UndoRuns(t);
    RunOne(s, Spawn(token, false));
    RunAppend(s, [Spawn(token, false)], UNDO);
  }

  lemma StopPendingRuns(s: State)
    requires Inv(s) && s.parent.StopPending?
    ensures TakenBack(Run(s, [Act(Done)] + UNDO), s.truth)
  {
    hide Run;
    var t := Next(s, Act(Done));
    assert t.parent.RestoreDatabase? && !t.parent.cause.InterruptedRun? && t.truth == s.truth;
    NextKeeps(s, Act(Done));
    UndoRuns(t);
    RunOne(s, Act(Done));
    RunAppend(s, [Act(Done)], UNDO);
  }

  /** How a target fails to get as far as its validation. */
  predicate Unvalidated(s: State, events: seq<Event>) {
    || events == [GiveUp]
    || events == [Exit, Act(Done)]
    || (s.child.Starting? && exists outcome: Outcome :: !outcome.Done? && events == [Validate(outcome), Act(Done)])
  }

  /** A target that is given up, ends, or cannot say that it is validated is stopped, and the promotion taken back. */
  lemma UnvalidatedIsUndone(s: State, events: seq<Event>)
    requires Inv(s) && s.parent.AwaitValidation? && Unvalidated(s, events)
    ensures TakenBack(Run(s, events + ([Act(Done)] + UNDO)), s.truth)
  {
    hide Run, Inv;
    UnvalidatedStops(s, events);
    StopPendingRuns(Run(s, events));
    RunAppend(s, events, [Act(Done)] + UNDO);
  }

  lemma UnvalidatedStops(s: State, events: seq<Event>)
    requires Inv(s) && s.parent.AwaitValidation? && Unvalidated(s, events)
    ensures var t := Run(s, events); Inv(t) && t.parent.StopPending? && t.truth == s.truth
  {
    hide Run, Inv;
    NextKeeps(s, events[0]);
    if |events| == 1 {
      RunOne(s, events[0]);
    } else {
      RunTwo(s, events[0], Act(Done));
      NextKeeps(Next(s, events[0]), Act(Done));
    }
  }

  /**
   A failed commit of an admission is decided by what landed: where the record
   stayed the promotion is taken back, and where it is `Completed` the promoted
   pair stays and only the target is stopped.
   */
  lemma FailedCommitIsDecided(s: State)
    requires Inv(s) && s.parent.RecordCompleted?
    ensures TakenBack(Run(s, [Act(Raised), Act(Done)] + UNDO), s.truth)
    ensures var t := Run(s, [Act(DoneThenRaised), Act(Done), Act(Done)]);
            && t.parent.Off? && t.child.NotRunning? && t.record == s.record.(stage := Completed)
            && t.live == t.truth == s.live
  {
    hide Run, Inv;
    PendingHere(s);
    var t := Next(s, Act(Raised));
    NextKeeps(s, Act(Raised));
    StopPendingRuns(t);
    RunOne(s, Act(Raised));
    RunAppend(s, [Act(Raised)], [Act(Done)] + UNDO);
    assert [Act(Raised)] + ([Act(Done)] + UNDO) == [Act(Raised), Act(Done)] + UNDO;
    CommittedStops(Next(s, Act(DoneThenRaised)));
    RunOne(s, Act(DoneThenRaised));
    RunAppend(s, [Act(DoneThenRaised)], [Act(Done), Act(Done)]);
    assert [Act(DoneThenRaised)] + [Act(Done), Act(Done)] == [Act(DoneThenRaised), Act(Done), Act(Done)];
  }

  lemma PendingHere(s: State)
    requires Inv(s) && s.parent.RecordCompleted?
    ensures IsAt(s.record, PromotedPendingStartup)
  {
  }

  lemma CommittedStops(s: State)
    requires s.parent.StopCommitted?
    ensures Run(s, [Act(Done), Act(Done)]) == s.(parent := Off, child := NotRunning)
  {
    hide Run;
    RunTwo(s, Act(Done), Act(Done));
    assert Next(s, Act(Done)) == s.(parent := NoteFailure, child := NotRunning);
    NotedEnds(s.(parent := NoteFailure, child := NotRunning));
  }

  lemma NotedEnds(s: State)
    requires s.parent.NoteFailure?
    ensures Next(s, Act(Done)) == s.(parent := Off)
  {
  }

  lemma EndedIsNoted(s: State)
    requires s.parent.Watch?
    ensures Run(Next(s, Exit), [Act(Done), Act(Done)]) == s.(parent := Off, child := NotRunning)
  {
    hide Run;
    RunTwo(Next(s, Exit), Act(Done), Act(Done));
    assert Next(Next(s, Exit), Act(Done)) == s.(parent := NoteFailure, child := NotRunning);
    NotedEnds(s.(parent := NoteFailure, child := NotRunning));
  }

  /** Once an upgrade is committed, a target that ends or is stopped takes nothing back. */
  lemma ServedStays(s: State)
    requires s.parent.Watch?
    ensures Run(s, [Exit] + [Act(Done), Act(Done)]) == s.(parent := Off, child := NotRunning)
    ensures Run(s, [GiveUp] + [Act(Done), Act(Done)]) == s.(parent := Off, child := NotRunning)
  {
    hide Run;
    EndedIsNoted(s);
    RunOne(s, Exit);
    RunAppend(s, [Exit], [Act(Done), Act(Done)]);
    var t := Next(s, GiveUp);
    assert t == s.(parent := StopCommitted);
    CommittedStops(t);
    RunOne(s, GiveUp);
    RunAppend(s, [GiveUp], [Act(Done), Act(Done)]);
  }

  /**
   In every run, whatever went wrong before: when the parent commits the
   admission of a waiting target and its two writes succeed, the target serves.
   */
  lemma WaitingIsAdmitted(s: State, events: seq<Event>, token: nat)
    requires Init(s) && Run(s, events).parent == RecordCompleted(token) && Run(s, events).child == Waiting(token)
    ensures var t := Run(s, events + [Act(Done), Act(Done), Enter]);
            t.child.Serving? && t.parent.Watch? && IsAt(t.record, Completed) && t.live == t.truth == Run(s, events).live
  {
    hide Run, Next;
    InitOrdered(s);
    RunOrders(s, events);
    AdmissionCompletes(Run(s, events), token);
    RunAppend(s, events, [Act(Done), Act(Done), Enter]);
  }
}
