/** What the upgrade promises over whole runs, and exactly when. */
module UpgradeGuarantees {
  import opened UpgradeMachine
  import opened UpgradeOrder
  import opened UpgradeSafety

  // ----- Safety -----

  lemma {:induction false} RunKeeps(s: State, events: seq<Event>)
    requires Inv(s) && Clean(s, events)
    ensures Inv(Run(s, events))
    decreases |events|
  {
    hide Inv, Fatal, Next;
    if events != [] {
      NextKeeps(s, events[0]);
      RunKeeps(Next(s, events[0]), events[1..]);
    }
  }

  /** Neither is anything live that the user can be left with, nor does startup restore it. */
  predicate Unrecovered(s: State) {
    !Safe(s) && !InRestoreStage(s.record)
  }

  /** The effects behind a fatal write up to the point at which a crash is not recovered. */
  function ToThePoint(s: State, e: Event): seq<Event> {
    if e.Act? && e.outcome.Torn? then []
    else if !s.truth.database.NoDatabase? then [Act(Torn)]
    else if s.live.settings != s.truth.settings then [Act(Done)]
    else [Act(Done), Act(Torn)]
  }

  lemma FatalExposes(s: State, e: Event)
    requires Inv(s) && Fatal(s, e)
    ensures Unrecovered(Run(Next(s, e), ToThePoint(s, e)))
  {
    var t := Next(s, e);
    RunNone(t);
    RunOne(t, Act(Done));
    RunOne(t, Act(Torn));
    RunTwo(t, Act(Done), Act(Torn));
    if s.parent.RecordInstalled? {
      InstallExposes(s, e);
    }
  }

  lemma InstallExposes(s: State, e: Event)
    requires Inv(s) && Fatal(s, e) && s.parent.RecordInstalled?
    ensures var t := Next(s, e);
            && (e.outcome.Torn? ==> Unrecovered(t))
            && (!e.outcome.Torn? && !s.truth.database.NoDatabase? ==> Unrecovered(Next(t, Act(Torn))))
            && (!e.outcome.Torn? && s.truth.database.NoDatabase? ==>
                  var u := Next(t, Act(Done));
                  if s.live.settings != s.truth.settings then Unrecovered(u) else Unrecovered(Next(u, Act(Torn))))
  {
  }

  /** A crash at such a point: whatever is started next restores nothing, and the same pair stays live. */
  lemma CrashIsFinal(s: State, image: nat, admission: bool)
    requires Unrecovered(s)
    ensures var t := Next(Next(s, Crash), Boot(image, admission));
            t.live == s.live && Unrecovered(t) && (t.parent.Off? || t.parent.Check? || t.parent.StartTarget?)
  {
  }

  /**
   Without a crash every failed write of the record that ends a promotion is
   made good: when none of its effects fails, the handler puts the originals
   back and records the failure.
   */
  lemma FailedInstallIsUndone(s: State, outcome: Outcome)
    requires Inv(s) && s.parent.RecordInstalled? && Marked(s.live.database) && !outcome.Done?
    ensures var t := Next(Next(Next(Next(s, Act(outcome)), Act(Done)), Act(Done)), Act(Done));
            t.live == t.truth == s.truth && IsAt(t.record, Failed) && t.parent.Off? && Safe(t)
  {
    var id := s.parent.id;
    var first := Next(s, Act(outcome));
    assert first == s.(record := first.record, accepted := first.accepted, parent :=
        RestoreDatabase(id, PromotionFailure));
    var second := Next(first, Act(Done));
    assert second ==
        first.(live := s.live.(database := s.truth.database), parent := RestoreSettings(id, PromotionFailure));
    var third := Next(second, Act(Done));
    assert third == second.(live := s.truth, parent := RecordRestored(id, PromotionFailure, false));
  }

  /** An unreadable record of an admission stays: the promoted pair is live, and nothing names the backup. */
  lemma TornCommitStays(s: State)
    requires Inv(s) && s.parent.RecordCompleted?
    ensures var t := Next(Next(s, Act(Torn)), Act(Done));
            t.live == s.promoted && t.record == NoRecord && t.parent.Off? && Unrecovered(t)
  {
  }

  /**
   In every run from an initial state, with a crash or a failed effect between
   any two steps, the state is safe at every point as long as the run is clean;
   and after a clean run every fatal write, and no other step, leads to a point
   at which a crash is not recovered, although from then on every write of the
   record either lands and returns or raises without landing.
   */
  lemma SafetyExact(s: State, events: seq<Event>)
    requires Init(s) && Clean(s, events)
    ensures Safe(Run(s, events))
    ensures forall e :: Fatal(Run(s, events), e) <==> LeavesAPoint(Run(s, events), e)
  {
    hide Inv, Fatal, Next, Init, Safe, LeavesAPoint;
    InitInv(s);
    RunKeeps(s, events);
    InvIsSafe(Run(s, events));
    forall e
      ensures Fatal(Run(s, events), e) <==> LeavesAPoint(Run(s, events), e)
    {
      FatalExactly(Run(s, events), e);
    }
  }

  /** The program counters that write the state file, with a new record or with the same one. */
  predicate WritesRecord(p: Parent) {
    Recorder(p) || p.Watch? || p.NoteFailure?
  }

  /** Every write of the record either lands and returns or raises without landing. */
  predicate Plain(s: State, events: seq<Event>)
    decreases |events|
  {
    events == [] || (PlainStep(s, events[0]) && Plain(Next(s, events[0]), events[1..]))
  }

  predicate PlainStep(s: State, e: Event) {
    e.Act? && WritesRecord(s.parent) ==> e.outcome.Done? || e.outcome.Raised?
  }

  lemma {:induction false} PlainIsClean(s: State, events: seq<Event>)
    requires Plain(s, events)
    ensures Clean(s, events)
    decreases |events|
  {
    hide Next;
    if events != [] {
      PlainIsClean(Next(s, events[0]), events[1..]);
    }
  }

  /** After the step a run of plain writes leads to a point at which a crash is not recovered. */
  ghost predicate LeavesAPoint(s: State, e: Event) {
    exists more :: Plain(Next(s, e), more) && Unrecovered(Run(Next(s, e), more))
  }

  lemma FatalExactly(s: State, e: Event)
    requires Inv(s)
    ensures Fatal(s, e) <==> LeavesAPoint(s, e)
  {
    hide Inv, Fatal, Next, Safe, ToThePoint;
    if Fatal(s, e) {
      FatalExposes(s, e);
      PointIsPlain(s, e);
      var more := ToThePoint(s, e);
      assert Plain(Next(s, e), more) && Unrecovered(Run(Next(s, e), more));
    } else {
      NextKeeps(s, e);
      forall more | Plain(Next(s, e), more)
        ensures !Unrecovered(Run(Next(s, e), more))
      {
        PlainIsClean(Next(s, e), more);
        RunKeeps(Next(s, e), more);
        InvIsSafe(Run(Next(s, e), more));
      }
    }
  }

  /** The way to the point writes no record. */
  lemma PointIsPlain(s: State, e: Event)
    requires Inv(s) && Fatal(s, e)
    ensures Plain(Next(s, e), ToThePoint(s, e))
  {
    var t := Next(s, e);
    if !e.outcome.Torn? {
      assert t.parent.RestoreDatabase?;
      var u := Next(t, Act(Done));
      assert u.parent.RestoreSettings?;
      PlainTwo(t, Act(Done), Act(Torn));
      PlainOne(t, Act(Torn));
      PlainOne(t, Act(Done));
    }
  }

  lemma PlainOne(s: State, e: Event)
    requires PlainStep(s, e)
    ensures Plain(s, [e])
  {
    assert [e][1..] == [];
  }

  lemma PlainTwo(s: State, e: Event, f: Event)
    requires PlainStep(s, e) && PlainStep(Next(s, e), f)
    ensures Plain(s, [e, f])
  {
    PlainOne(Next(s, e), f);
    assert [e, f][1..] == [f];
  }

  lemma RunNone(s: State)
    ensures Run(s, []) == s
  {
  }

  lemma RunOne(s: State, e: Event)
    ensures Run(s, [e]) == Next(s, e)
  {
    hide Next;
    RunNone(Next(s, e));
    assert [e][1..] == [];
  }

  // ----- What moves the truth -----

  /**
   In every run the data to protect changes only when the user or an admitted
   target writes it, or when the `Completed` record lands over the pair that was
   promoted in full. So in a clean run, which is safe throughout, a write made
   after admission is never rolled back.
   */
  lemma TruthMoves(s: State, events: seq<Event>, e: Event)
    requires Init(s) && Next(Run(s, events), e).truth != Run(s, events).truth
    ensures var t, u := Run(s, events), Next(Run(s, events), e);
            && u.live == u.truth
            && (e.Outside? || (e.Serve? && t.child.Serving?) || (e.Act? && IsAt(u.record, Completed)))
            && (e.Act? ==> t.live == t.promoted && Marked(t.live.database) && u.live == t.live)
  {
    hide Next, Ordered, Init;
    InitOrdered(s);
    RunOrders(s, events);
    var t := Run(s, events);
    if e.Act? {
      ActIsNext(t, e.outcome);
      TruthActs(t, e.outcome);
    } else {
      OnlyWritersMove(t, e);
    }
  }

  lemma OnlyWritersMove(s: State, e: Event)
    requires !e.Act? && Next(s, e).truth != s.truth
    ensures Next(s, e).live == Next(s, e).truth && (e.Outside? || (e.Serve? && s.child.Serving?))
  {
  }

  lemma TruthActs(s: State, outcome: Outcome)
    requires Ordered(s) && Acted(s, outcome).truth != s.truth
    ensures var t := Acted(s, outcome);
            t.live == t.truth == s.live == s.promoted && Marked(s.live.database) && IsAt(t.record, Completed)
  {
    hide FilesOrdered, ChildOrdered;
    OnlyCommitsMove(s, outcome);
  }

  lemma OnlyCommitsMove(s: State, outcome: Outcome)
    requires Acted(s, outcome).truth != s.truth
    ensures s.parent.RecordInstalled? || s.parent.RecordCompleted?
  {
    hide Checked, RestorePending, ActedCaptureSettings, ActedCaptureManifest, ActedPrepareWorking, ActedDropBackup,
      ActedPromoteSettings, ActedPromoteDatabase, ActedRestoreDatabase, ActedRestoreSettings,
      ActedRecordMigrating, ActedRecordPromoting, ActedRecordRestored;
  }

  /**
   In every run what else counts as kept is set to the truth, or to the promoted
   pair when a `Completed` record over it lands and is reported as failed.
   */
  lemma AcceptedMoves(s: State, events: seq<Event>, e: Event)
    requires Init(s) && Next(Run(s, events), e).accepted != Run(s, events).accepted
    ensures var t, u := Run(s, events), Next(Run(s, events), e);
            || u.accepted == u.truth
            || (u.accepted == u.live == t.live == t.promoted && IsAt(u.record, Completed) && Reported(t, e))
  {
    hide Next, Ordered, Init;
    InitOrdered(s);
    RunOrders(s, events);
    AcceptedStep(Run(s, events), e);
  }

  lemma AcceptedStep(s: State, e: Event)
    requires Ordered(s) && Next(s, e).accepted != s.accepted
    ensures var t := Next(s, e);
            || t.accepted == t.truth
            || (t.accepted == t.live == s.live == s.promoted && IsAt(t.record, Completed) && Reported(s, e))
  {
    hide FilesOrdered, ChildOrdered, Checked, RestorePending, ActedCaptureSettings, ActedCaptureManifest,
      ActedPrepareWorking, ActedDropBackup, ActedPromoteSettings, ActedPromoteDatabase, ActedRestoreDatabase,
      ActedRestoreSettings, ActedRecordMigrating, ActedRecordPromoting, ActedRecordRestored;
  }

  /** In every run a record becomes `Completed` only over the promoted pair. */
  lemma CompletedIsPromoted(s: State, events: seq<Event>, e: Event)
    requires Init(s) && !IsAt(Run(s, events).record, Completed) && IsAt(Next(Run(s, events), e).record, Completed)
    ensures var t, u := Run(s, events), Next(Run(s, events), e);
            && t.live == t.promoted && Marked(t.live.database)
            && u.live == t.live && u.accepted == t.live && (Reported(t, e) || u.truth == t.live)
  {
    hide Next, Ordered, Init;
    InitOrdered(s);
    RunOrders(s, events);
    CompletedStep(Run(s, events), e);
  }

  lemma CompletedStep(s: State, e: Event)
    requires Ordered(s) && !IsAt(s.record, Completed) && IsAt(Next(s, e).record, Completed)
    ensures s.live == s.promoted && Marked(s.live.database)
    ensures Next(s, e).live == s.live && Next(s, e).accepted == s.live && (Reported(s, e) || Next(s, e).truth == s.live)
  {
    CompletedIsWritten(s, e);
  }

  // ----- The handshake -----

  /**
   In every run a target started with a token passes admission only when the
   record is already `Completed`; in a clean run the live pair is then the truth.
   */
  lemma AdmittedOnlyWhenCompleted(s: State, events: seq<Event>, e: Event)
    requires Init(s)
    requires Run(s, events).child.Waiting? && Next(Run(s, events), e).child.Serving?
    ensures IsAt(Run(s, events).record, Completed)
    ensures Clean(s, events) ==> Run(s, events).live == Run(s, events).truth
  {
    InitOrdered(s);
    RunOrders(s, events);
    if Clean(s, events) {
      InitInv(s);
      RunKeeps(s, events);
    }
  }

  /** No record lands as `Completed` and is reported as failed. */
  predicate Steady(s: State, events: seq<Event>)
    decreases |events|
  {
    events == [] || (!Reported(s, events[0]) && Steady(Next(s, events[0]), events[1..]))
  }

  predicate RestoresUncommitted(s: State) {
    s.parent.RestoreDatabase? || s.parent.RestoreSettings? ==> !IsAt(s.record, Completed)
  }

  lemma UncommittedNext(s: State, e: Event)
    requires Ordered(s) && RestoresUncommitted(s) && !Reported(s, e)
    ensures RestoresUncommitted(Next(s, e))
  {
    hide Next, Acted, Ordered;
    if e.Act? {
      ActIsNext(s, e.outcome);
      if Recorder(s.parent) {
        RecordersRestore(s, e.outcome);
      } else if s.parent.PromoteSettings? || s.parent.PromoteDatabase? || s.parent.RestoreDatabase? ||
          s.parent.StopPending? {
        UndoersRestore(s, e.outcome);
      } else {
        OthersDoNotUndo(s, e.outcome);
      }
    } else {
      OnlyActsRecord(s, e);
      StartsRestore(s, e);
    }
  }

  lemma RecordersRestore(s: State, outcome: Outcome)
    requires Ordered(s) && Recorder(s.parent) && !Reported(s, Act(outcome))
    ensures RestoresUncommitted(Acted(s, outcome))
  {
  }

  lemma UndoersRestore(s: State, outcome: Outcome)
    requires Ordered(s) && RestoresUncommitted(s)
    requires s.parent.PromoteSettings? || s.parent.PromoteDatabase? || s.parent.RestoreDatabase? ||
               s.parent.StopPending?
    ensures RestoresUncommitted(Acted(s, outcome))
  {
    hide InstallDatabase, InstallSettings, ChildOrdered, FilesOrdered;
  }

  lemma OthersDoNotUndo(s: State, outcome: Outcome)
    requires RestoresUncommitted(s) && !Recorder(s.parent)
    requires !s.parent.PromoteSettings? && !s.parent.PromoteDatabase? && !s.parent.RestoreDatabase? &&
               !s.parent.StopPending?
    ensures RestoresUncommitted(Acted(s, outcome))
  {
    hide InstallDatabase, InstallSettings;
  }

  lemma StartsRestore(s: State, e: Event)
    requires RestoresUncommitted(s) && !e.Act?
    ensures RestoresUncommitted(Next(s, e))
  {
  }

  lemma {:induction false} SteadyKeeps(s: State, events: seq<Event>)
    requires Ordered(s) && RestoresUncommitted(s) && Steady(s, events)
    ensures Ordered(Run(s, events)) && RestoresUncommitted(Run(s, events))
    decreases |events|
  {
    hide Ordered, RestoresUncommitted, Next, Reported;
    if events != [] {
      NextOrders(s, events[0]);
      UncommittedNext(s, events[0]);
      SteadyKeeps(Next(s, events[0]), events[1..]);
    }
  }

  /**
   In every run the backup is written back only while no target process is alive,
   and, unless a `Completed` record lands and is reported as failed, only while
   the record is not `Completed`. In a clean run what is written back is the
   truth, and it is the backup the record names unless such a report came before.
   */
  lemma RestoresAlone(s: State, events: seq<Event>)
    requires Init(s)
    requires Run(s, events).parent.RestoreDatabase? || Run(s, events).parent.RestoreSettings?
    ensures var t := Run(s, events);
            && t.child.NotRunning?
            && (Steady(s, events) ==> !IsAt(t.record, Completed))
            && (Clean(s, events) ==> Saved(t, t.parent.id))
            && (Clean(s, events) && Steady(s, events) ==> InRestoreStage(t.record) && t.parent.id == t.record.backup)
  {
    hide Next, Fatal, Reported;
    InitOrdered(s);
    RunOrders(s, events);
    if Steady(s, events) {
      SteadyKeeps(s, events);
    }
    if Clean(s, events) {
      InitInv(s);
      RunKeeps(s, events);
    }
  }

  /** The program counters of a promotion and of a restore. */
  predicate Replacing(p: Parent) {
    p.PromoteSettings? || p.PromoteDatabase? || p.RecordInstalled? || p.RestoreDatabase? || p.RestoreSettings?
  }

  /**
   In every run, whatever writes went wrong, a live database with the marker has
   the promoted settings beside it at every point of a promotion and of a restore
   and as long as the record is in a restore stage; a crash there, and the start
   behind it, leave both as they are.
   */
  lemma MarkerMeansPromotedSettings(s: State, events: seq<Event>, image: nat, admission: bool)
    requires Init(s)
    ensures var t := Run(s, events);
            InRestoreStage(t.record) || Replacing(t.parent) ==>
              && (Marked(t.live.database) ==> t.live.settings == t.promoted.settings)
              && var u := Next(Next(t, Crash), Boot(image, admission)); u.live == t.live && u.promoted == t.promoted
  {
    InitOrdered(s);
    RunOrders(s, events);
  }

  // ----- Recovery -----

  /** A start after an interruption in which no effect fails. */
  function Recovery(s: State, image: nat, admission: bool): seq<Event> {
    [Boot(image, admission), Act(Done)] + if IsAt(s.record, Migrating) then [] else [Act(Done), Act(Done)]
  }

  /** The truth is live again, and the record says whether anything had been replaced. */
  function Recovered(s: State, image: nat, admission: bool): State
    requires s.record.Record?
  {
    var stage := if IsAt(s.record, Migrating) then InterruptedUnchanged else InterruptedRestored;
    s.(image := image, admission := admission, live := s.truth, parent := Check,
       record := Record(stage, s.record.backup, image, s.truth))
  }

  /**
   Starting again recovers exactly when the recorded backup can be loaded: then
   the truth is live and recorded as such. Otherwise the start is refused, the
   record stays, and the data is unchanged.
   */
  lemma RecoveryExact(s: State, image: nat, admission: bool)
    requires Inv(s) && s.parent.Off? && InRestoreStage(s.record)
    ensures var t := Run(s, Recovery(s, image, admission));
            && t.truth == s.truth && t.live == s.truth
            && (Loadable(s, s.record.backup) <==> t.parent.Check?)
            && (Loadable(s, s.record.backup) <==> !InRestoreStage(t.record))
            && (!Loadable(s, s.record.backup) ==> t == s.(image := image, admission := admission))
            && (Loadable(s, s.record.backup) ==> t == Recovered(s, image, admission))
  {
    hide Inv, Next;
    var t := Next(s, Boot(image, admission));
    RecoveryBoots(s, image, admission);
    RunTwo(s, Boot(image, admission), Act(Done));
    RunFour(s, Boot(image, admission), Act(Done), Act(Done), Act(Done));
    if t.parent.RestoreDatabase? {
      RestoringEnds(t);
    } else {
      RecordingEnds(t);
      assert [Boot(image, admission), Act(Done)] + [] == [Boot(image, admission), Act(Done)];
      if t.parent.Off? {
        RecordingEnds(Next(t, Act(Done)));
        RecordingEnds(Next(Next(t, Act(Done)), Act(Done)));
      }
    }
  }

  lemma RunTwo(s: State, e: Event, f: Event)
    ensures Run(s, [e, f]) == Next(Next(s, e), f)
  {
    hide Next;
    var t, events := Next(s, e), [e, f];
    assert events[1..] == [f] && [f][1..] == [];
    assert Run(t, [f]) == Next(t, f);
  }

  lemma RunFour(s: State, e: Event, f: Event, g: Event, h: Event)
    ensures Run(s, [e, f] + [g, h]) == Next(Next(Next(Next(s, e), f), g), h)
  {
    hide Next;
    var t, events := Next(Next(s, e), f), [e, f] + [g, h];
    assert events[1..] == [f, g, h] && [f, g, h][1..] == [g, h];
    RunTwo(t, g, h);
  }

  lemma RecoveryBoots(s: State, image: nat, admission: bool)
    requires Inv(s) && s.parent.Off? && InRestoreStage(s.record)
    ensures var t, id := Next(s, Boot(image, admission)), s.record.backup;
            t == s.(image := image, admission := admission, parent :=
                      if !Loadable(s, id) then Off
                      else if IsAt(s.record, Migrating) then RecordRestored(id, InterruptedRun, true)
                      else RestoreDatabase(id, InterruptedRun))
    ensures IsAt(s.record, Migrating) || !Loadable(s, s.record.backup) ==> s.live == s.truth
    ensures !Loadable(s, s.record.backup) ==> IsAt(s.record, Migrating)
    ensures Loadable(s, s.record.backup) ==> Saved(s, s.record.backup)
  {
  }

  lemma RestoringEnds(s: State)
    requires s.parent.RestoreDatabase? && s.parent.cause.InterruptedRun? && Saved(s, s.parent.id)
    ensures var t := Next(Next(Next(s, Act(Done)), Act(Done)), Act(Done));
            t == s.(live := s.truth, parent := Check,
                    record := Record(InterruptedRestored, s.parent.id, s.image, s.truth))
  {
    var first := Next(s, Act(Done));
    assert first == s.(live := s.live.(database := s.truth.database),
                       parent := RestoreSettings(s.parent.id, InterruptedRun));
    var second := Next(first, Act(Done));
    assert second == s.(live := s.truth, parent := RecordRestored(s.parent.id, InterruptedRun, false));
  }

  lemma RecordingEnds(s: State)
    requires s.parent.Off? || (s.parent.RecordRestored? && s.parent.cause.InterruptedRun?)
    ensures var t := Next(s, Act(Done));
            if s.parent.Off? then t == s
            else t == s.(parent := Check,
                         record := Record(if s.parent.untouched then InterruptedUnchanged else InterruptedRestored,
                                          s.parent.id, s.image, s.live))
  {
  }

  /** Between an interruption and the record that ends its recovery. */
  predicate Recovering(s: State) {
    && InRestoreStage(s.record)
    && match s.parent
       case Off => true
       case RestoreDatabase(_, cause) => cause.InterruptedRun?
       case RestoreSettings(_, cause) => cause.InterruptedRun?
       case RecordRestored(_, cause, _) => cause.InterruptedRun?
       case _ => false
  }

  /** Every event happens during a recovery; the last one may end it. */
  predicate OnlyRecovery(s: State, events: seq<Event>)
    decreases |events|
  {
    events == [] || (Recovering(s) && OnlyRecovery(Next(s, events[0]), events[1..]))
  }

  /**
   However often a recovery fails or crashes and is started again, the backup it
   works from and the data it aims for stay the same, and whenever it ends that
   data is live.
   */
  lemma {:induction false} RecoveryRepeats(s: State, events: seq<Event>)
    requires Inv(s) && Recovering(s) && OnlyRecovery(s, events)
    ensures var t := Run(s, events);
            && t.truth == s.truth && t.backups == s.backups
            && (!InRestoreStage(t.record) ==> t.live == s.truth)
    decreases |events|
  {
    hide Inv, Next;
    if events != [] {
      var t := Next(s, events[0]);
      RecoveryStep(s, events[0]);
      if Recovering(t) {
        RecoveryRepeats(t, events[1..]);
      }
    }
  }

  lemma RecoveryStep(s: State, e: Event)
    requires Inv(s) && Recovering(s)
    ensures var t := Next(s, e);
            && Inv(t) && t.truth == s.truth && t.backups == s.backups
            && (!InRestoreStage(t.record) ==> t.live == s.truth) && (Recovering(t) <==> InRestoreStage(t.record))
  {
    hide Next;
    NextKeeps(s, e);
    RecoveryMoves(s, e);
  }

  lemma RecoveryMoves(s: State, e: Event)
    requires Inv(s) && Recovering(s)
    ensures var t := Next(s, e);
            && t.truth == s.truth && t.accepted == s.accepted && t.backups == s.backups
            && (Recovering(t) <==> InRestoreStage(t.record))
  {
    hide FilesAgree, InstallDatabase, InstallSettings;
  }

  // ----- The write that ends recoverability -----

  /** The `Migrating` record lands and is reported as failed, so that the backup it names is dropped. */
  predicate Orphaning(s: State, e: Event) {
    e.Act? && s.parent.RecordMigrating? && e.outcome.DoneThenRaised?
  }

  /** After it every later start is refused, although the data is unchanged. */
  lemma OrphanedIsRefused(s: State, image: nat, admission: bool)
    requires Inv(s) && s.parent.RecordMigrating?
    ensures var t := Next(Next(s, Act(DoneThenRaised)), Act(Done));
            && t.live == s.truth && InRestoreStage(t.record) && !Loadable(t, t.record.backup)
            && Next(t, Boot(image, admission)) == t.(image := image, admission := admission)
  {
  }

  predicate Kept(s: State) {
    InRestoreStage(s.record) ==> Loadable(s, s.record.backup) && !s.parent.DropBackup?
  }

  lemma KeptNext(s: State, e: Event)
    requires Inv(s) && Kept(s) && !Orphaning(s, e)
    ensures Kept(Next(s, e))
  {
    hide Next, Acted, Inv;
    if e.Act? {
      ActIsNext(s, e.outcome);
      if Recorder(s.parent) {
        KeptRecording(s, e.outcome);
      } else if s.parent.CaptureSettings? || s.parent.CaptureManifest? || s.parent.DropBackup? ||
          s.parent.PrepareWorking? {
        KeptPreparing(s, e.outcome);
      } else {
        KeptActed(s, e.outcome);
      }
    } else {
      OnlyActsRecord(s, e);
    }
  }

  lemma KeptRecording(s: State, outcome: Outcome)
    requires Inv(s) && Kept(s) && !Orphaning(s, Act(outcome)) && Recorder(s.parent)
    ensures Kept(Acted(s, outcome))
  {
  }

  lemma KeptPreparing(s: State, outcome: Outcome)
    requires Inv(s) && Kept(s)
    requires s.parent.CaptureSettings? || s.parent.CaptureManifest? || s.parent.DropBackup? || s.parent.PrepareWorking?
    ensures Kept(Acted(s, outcome))
  {
  }

  lemma KeptActed(s: State, outcome: Outcome)
    requires Kept(s) && !Recorder(s.parent)
    requires !s.parent.CaptureSettings? && !s.parent.CaptureManifest? && !s.parent.DropBackup? &&
               !s.parent.PrepareWorking?
    ensures Kept(Acted(s, outcome))
  {
    hide InstallDatabase, InstallSettings;
  }

  predicate Orderly(s: State, events: seq<Event>)
    decreases |events|
  {
    events == [] || (!Fatal(s, events[0]) && !Orphaning(s, events[0]) && Orderly(Next(s, events[0]), events[1..]))
  }

  lemma {:induction false} OrderlyKeeps(s: State, events: seq<Event>)
    requires Inv(s) && Kept(s) && Orderly(s, events)
    ensures Inv(Run(s, events)) && Kept(Run(s, events))
    decreases |events|
  {
    hide Inv, Kept, Next, Fatal, Orphaning;
    if events != [] {
      NextKeeps(s, events[0]);
      KeptNext(s, events[0]);
      OrderlyKeeps(Next(s, events[0]), events[1..]);
    }
  }

  /** After an orderly run and a crash at any point, the next start in which nothing fails recovers. */
  lemma CrashesRecover(s: State, events: seq<Event>, image: nat, admission: bool)
    requires Init(s) && Orderly(s, events)
    requires InRestoreStage(Run(s, events).record)
    ensures var t := Next(Run(s, events), Crash);
            var u := Run(t, Recovery(t, image, admission));
            u.parent.Check? && u.live == u.truth && u.truth == Run(s, events).truth && !InRestoreStage(u.record)
  {
    hide Inv;
    InitInv(s);
    OrderlyKeeps(s, events);
    var last := Run(s, events);
    CrashKeeps(last, Crash);
    RecoveryExact(Next(last, Crash), image, admission);
  }

  // ----- The fatal writes happen -----

  /** An old library next to an application that has never been upgraded. */
  function Fresh(): State {
    var live := Pair(Database(1, false), Settings(1));
    State(live, NoRecord, map[], map[], {}, {}, {}, 0, false, Off, NotRunning, live, live, live)
  }

  /** A run goes on with one more clean step. */
  lemma {:induction false} RunOn(s: State, events: seq<Event>, e: Event)
    ensures Run(s, events + [e]) == Next(Run(s, events), e)
    ensures Clean(s, events) && !Fatal(Run(s, events), e) ==> Clean(s, events + [e])
    decreases |events|
  {
    hide Next, Fatal;
    if events == [] {
      assert [e][1..] == [] && events + [e] == [e];
    } else {
      assert (events + [e])[1..] == events[1..] + [e];
      RunOn(Next(s, events[0]), events[1..], e);
    }
  }

  function Upgraded(): Pair {
    Pair(Database(2, true), Settings(2))
  }

  predicate Leads(events: seq<Event>, s: State) {
    Clean(Fresh(), events) && Run(Fresh(), events) == s
  }

  lemma Go(events: seq<Event>, s: State, e: Event) returns (more: seq<Event>, t: State)
    requires Leads(events, s) && !Fatal(s, e)
    ensures Leads(more, t) && t == Next(s, e)
  {
    RunOn(Fresh(), events, e);
    more, t := events + [e], Next(s, e);
  }

  lemma CaptureReached(admission: bool) returns (events: seq<Event>, s: State)
    ensures Leads(events, s)
    ensures s == Fresh().(image := 7, admission := admission, parent := PrepareWorking(0),
                          backups := map[0 := Backup(Fresh().live, true)])
  {
    hide Run, Clean;
    events, s := [], Fresh();
    assert Leads(events, s) by { StartsFresh(); }
    events, s := Go(events, s, Boot(7, admission));
    events, s := Go(events, s, Act(Done));
    assert s == Fresh().(image := 7, admission := admission, parent := CaptureDatabase);
    events, s := Go(events, s, Capture(0, Done));
    events, s := Go(events, s, Act(Done));
    assert s.backups == map[0 := Backup(Fresh().live, false)];
    events, s := Go(events, s, Act(Done));
  }

  lemma StartsFresh()
    ensures Leads([], Fresh()) && Init(Fresh())
  {
  }

  lemma AttemptReached(admission: bool) returns (events: seq<Event>, s: State)
    ensures Leads(events, s)
    ensures s.parent == RunMigration(0) && s.live == Fresh().live && s.admission == admission && s.working.Keys == {0}
    ensures s.child.NotRunning? && s.used == {} && s.validated == {}
  {
    hide Run, Clean;
    events, s := CaptureReached(admission);
    events, s := Go(events, s, Act(Done));
    assert s.parent == RecordMigrating(0);
    events, s := Go(events, s, Act(Done));
  }

  lemma MigrationReached(admission: bool) returns (events: seq<Event>, s: State)
    ensures Leads(events, s)
    ensures s.parent == PromoteSettings(0) && s.working == map[0 := Upgraded()] && s.live == Fresh().live
    ensures s.admission == admission && s.child.NotRunning? && s.used == {} && s.validated == {}
  {
    hide Run, Clean;
    events, s := AttemptReached(admission);
    events, s := Go(events, s, Migrated(Upgraded(), true));
    assert s.working == map[0 := Upgraded()];
    events, s := Go(events, s, Act(Done));
  }

  /** A clean run to the record that ends a promotion, with or without admission. */
  lemma PromotionReached(admission: bool) returns (events: seq<Event>, s: State)
    ensures Leads(events, s)
    ensures s.parent == RecordInstalled(0) && s.live == Upgraded() && s.admission == admission
    ensures s.child.NotRunning? && s.used == {} && s.validated == {}
  {
    hide Run, Clean;
    events, s := MigrationReached(admission);
    events, s := Go(events, s, Act(Done));
    assert s.parent == PromoteDatabase(0);
    events, s := Go(events, s, Act(Done));
  }

  /** A clean run to the record that commits an admission. */
  lemma AdmissionReached() returns (events: seq<Event>, s: State)
    ensures Leads(events, s) && s.parent == RecordCompleted(5) && s.child == Waiting(5)
  {
    hide Run, Clean;
    events, s := PromotionReached(true);
    events, s := Go(events, s, Act(Done));
    assert s.parent == StartTarget && IsAt(s.record, PromotedPendingStartup);
    events, s := Go(events, s, Spawn(5, true));
    events, s := Go(events, s, Validate(Done));
    assert s.parent == AwaitValidation(5) && 5 in s.validated;
    events, s := Go(events, s, Act(Done));
  }

  /** Each of the three ways a write can break the promise ends some clean run, so the condition cannot be relaxed. */
  lemma FatalWritesHappen(way: Outcome, admission: bool) returns (events: seq<Event>, committing: seq<Event>)
    requires way == Torn || (way == DoneThenRaised && !admission)
    ensures Clean(Fresh(), events) && Fatal(Run(Fresh(), events), Act(way)) &&
              Run(Fresh(), events).admission == admission
    ensures Clean(Fresh(), committing) && Fatal(Run(Fresh(), committing), Act(Torn)) &&
              Run(Fresh(), committing).child.Waiting?
    ensures Init(Fresh())
  {
    var s;
    events, s := PromotionReached(admission);
    committing, s := AdmissionReached();
  }
}
