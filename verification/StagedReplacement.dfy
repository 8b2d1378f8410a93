/**
 The staged offline replacement of the application. Each command checks the
 recorded stage, performs effects one after another, and records the next stage
 last. Any effect can stop the command, by an error or by a crash, before or
 after it has happened.
 */
module StagedReplacement {
  datatype Stage =
    | Prepared | Built | Stopped | Capturing | Captured | Migrated | TargetStarted | SourceResumed | RolledBack

  datatype Application = NoApplication | Prior | Target

  /** Whose data is in place; `Mixed` is a restore that was cut off. */
  datatype Data = SourceData(content: nat) | ForeignData(content: nat) | Mixed

  datatype Manifest = Missing | Partial | Complete(data: Data)

  datatype Effect = Works | Stops | WorksThenStops

  /** No effect stops the command. */
  ghost predicate AllWork(effects: nat -> Effect) {
    forall i :: effects(i).Works?
  }

  /** The stages a command may start from. */
  predicate ResumesFrom(stage: Stage) {
    stage in {Built, Stopped, Capturing}
  }

  predicate RollsBackFrom(stage: Stage) {
    stage in {Captured, Migrated, TargetStarted}
  }

  class Replacement {
    var stage: Stage
    var running: Application
    var data: Data
    var manifest: Manifest
    /** The prior image is kept under its rollback name. */
    var pinned: bool
    var targetPinned: bool
    /** The data the source application last wrote. */
    ghost var source: Data
    /** The prior application was started again after the manifest was completed. */
    ghost var restarted: bool
    /** What the source application wrote since the manifest was completed, oldest first. */
    ghost var since: seq<Data>

    ghost predicate Valid()
      reads this
    {
      && (stage != Prepared ==> pinned && targetPinned)
      && (stage in {Prepared, Built, Stopped} ==> manifest.Missing? && !restarted)
      && (RollsBackFrom(stage) ==> manifest.Complete?)
      && (manifest.Complete? ==> manifest.data.SourceData?)
      && (data.ForeignData? ==> RollsBackFrom(stage))
      && (data.Mixed? ==> manifest.Complete? && (stage == Capturing || RollsBackFrom(stage)))
      && (running == Target ==> RollsBackFrom(stage) && data.ForeignData?)
      && (running == Prior ==> data.SourceData?)
      && (restarted ==> manifest.Complete?) && (running == Prior && manifest.Complete? ==> restarted)
      && (!restarted ==> since == []) && (!restarted && data.SourceData? ==> data == source)
      && (manifest.Complete? ==> source == if since == [] then manifest.data else since[|since| - 1])
    }

    constructor (content: nat)
      ensures Valid() && stage == Prepared && running == Prior && data == SourceData(content) && manifest == Missing
    {
      stage, running, data, manifest := Prepared, Prior, SourceData(content), Missing;
      pinned, targetPinned := false, false;
      source, restarted, since := SourceData(content), false, [];
    }

    /** A running application changes the data. */
    method Write(content: nat)
      requires Valid() && running != NoApplication
      modifies this`data, this`source, this`since
      ensures Valid()
      ensures since == old(since) + if running == Prior && manifest.Complete? then [data] else []
      ensures data == if running == Prior then SourceData(content) else ForeignData(content)
      ensures source == if running == Prior then data else old(source)
    {
      data := if running == Prior then SourceData(content) else ForeignData(content);
      if running == Prior {
        source := data;
        since := if manifest.Complete? then since + [data] else since;
      }
    }

    /** Pins the source image, builds and pins the target image. The source keeps running. */
    method Build(authorized: bool, effects: nat -> Effect) returns (ok: bool)
      requires Valid()
      modifies this`stage, this`pinned, this`targetPinned
      ensures Valid()
      ensures old(stage) != Prepared || !authorized ==> !ok && stage == old(stage)
      ensures stage == old(stage) || (stage == Built && old(stage) == Prepared)
      ensures old(stage) == Prepared && authorized && AllWork(effects) ==> ok
      ensures ok ==> stage == Built && pinned && targetPinned && (forall i :: 0 <= i < 4 ==> effects(i).Works?)
    {
      if stage != Prepared || !authorized {
        return false;
      }
      if effects(0).Stops? {
        return false;
      }
      pinned := true;
      if effects(0).WorksThenStops? || effects(1) != Works || effects(2).Stops? {
        return false;
      }
      targetPinned := true;
      if effects(2).WorksThenStops? || effects(3).Stops? {
        return false;
      }
      stage := Built;
      ok := effects(3).Works?;
    }

    /** Takes the source down. */
    method Stop(authorized: bool, effects: nat -> Effect) returns (ok: bool)
      requires Valid()
      modifies this`stage, this`running
      ensures Valid()
      ensures old(stage) != Built || !authorized ==> !ok && stage == old(stage) && running == old(running)
      ensures stage == old(stage) || (stage == Stopped && running == NoApplication && old(stage) == Built)
      ensures old(stage) == Built && authorized && AllWork(effects) ==> ok
      ensures ok ==> stage == Stopped && (forall i :: 0 <= i < 3 ==> effects(i).Works?)
    {
      if stage != Built || !authorized || effects(0) != Works {
        return false;
      }
      if effects(1).Stops? {
        return false;
      }
      running := NoApplication;
      if effects(1).WorksThenStops? || !pinned || effects(2).Stops? {
        return false;
      }
      stage := Stopped;
      ok := effects(2).Works?;
    }

    /** Records that it begins, captures the manifest, validates it, and records that it is complete. */
    method Capture(authorized: bool, effects: nat -> Effect) returns (ok: bool)
      requires Valid()
      modifies this`stage, this`manifest
      ensures Valid()
      ensures old(stage) != Stopped || !authorized || running != NoApplication ==>
                !ok && stage == old(stage) && manifest == old(manifest)
      ensures stage == old(stage) || (old(stage) == Stopped && stage in {Capturing, Captured})
      ensures old(stage) == Stopped && authorized && running == NoApplication && AllWork(effects) ==> ok
      ensures ok ==> stage == Captured && manifest == Complete(data) && (forall i :: 0 <= i < 5 ==> effects(i).Works?)
      ensures old(stage) == Stopped && authorized && running == NoApplication && effects(3).Stops? &&
                (forall i :: i != 3 ==> effects(i).Works?) ==>
                !ok && stage == Capturing && manifest == Complete(data)
      ensures manifest.Complete? && manifest != old(manifest) ==> manifest.data == data == source
    {
      if stage != Stopped || !authorized || running != NoApplication || !pinned || effects(0) != Works {
        return false;
      }
      if effects(1).Stops? {
        return false;
      }
      stage := Capturing;
      if effects(1).WorksThenStops? {
        return false;
      }
      manifest := if effects(2).Stops? then Partial else Complete(data);
      if effects(2) != Works || effects(3) != Works || effects(4).Stops? {
        return false;
      }
      stage := Captured;
      ok := effects(4).Works?;
    }

    /** Migrates the data in place; cut off, the data is the migration's all the same. */
    method Migrate(authorized: bool, migrated: nat, effects: nat -> Effect) returns (ok: bool)
      requires Valid()
      modifies this`stage, this`data
      ensures Valid()
      ensures old(stage) != Captured || !authorized || running != NoApplication ==>
                !ok && stage == old(stage) && data == old(data)
      ensures data == old(data) || data == ForeignData(migrated)
      ensures stage == old(stage) || (stage == Migrated && old(stage) == Captured && data == ForeignData(migrated))
      ensures old(stage) == Captured && authorized && running == NoApplication && AllWork(effects) ==> ok
      ensures ok ==> stage == Migrated && (forall i :: 0 <= i < 3 ==> effects(i).Works?)
    {
      if stage != Captured || !authorized || !manifest.Complete? || running != NoApplication || effects(0) != Works {
        return false;
      }
      data := ForeignData(migrated);
      if effects(1) != Works || effects(2).Stops? {
        return false;
      }
      stage := Migrated;
      ok := effects(2).Works?;
    }

    /** Starts the pinned target; the validation of the database in front of it admits migrated data only. */
    method StartTarget(authorized: bool, effects: nat -> Effect) returns (ok: bool)
      requires Valid()
      modifies this`stage, this`running
      ensures Valid()
      ensures running == Target && old(running) != Target ==> data.ForeignData?
      ensures ok ==> data.ForeignData?
      ensures old(stage) != Migrated || !authorized || old(running) != NoApplication ==>
                !ok && stage == old(stage) && running == old(running)
      ensures running == old(running) || (running == Target && old(stage) == Migrated)
      ensures stage == old(stage) || (stage == TargetStarted && old(stage) == Migrated && running == Target)
      ensures old(stage) == Migrated && authorized && old(running) == NoApplication ==>
                data.ForeignData? && AllWork(effects) ==> ok
      ensures ok ==> stage == TargetStarted && (forall i :: 0 <= i < 4 ==> effects(i).Works?)
    {
      if stage != Migrated || !authorized || running != NoApplication || !targetPinned || effects(0) != Works {
        return false;
      }
      if !data.ForeignData? {
        return false;
      }
      if effects(1).Stops? {
        return false;
      }
      running := Target;
      if effects(1).WorksThenStops? || effects(2) != Works || effects(3).Stops? {
        return false;
      }
      stage := TargetStarted;
      ok := effects(3).Works?;
    }

    /** Restores the manifest over the data of whatever was running, which is stopped first. */
    method RestoreManifest(effects: nat -> Effect) returns (ok: bool)
      requires Valid() && manifest.Complete? && (stage == Capturing || RollsBackFrom(stage))
      modifies this`running, this`data
      ensures Valid()
      ensures running == old(running) || running == NoApplication
      ensures ok ==> running == NoApplication && data == manifest.data && effects(11).Works?
      ensures running == NoApplication && (old(running) != NoApplication ==> effects(10).Works?) ==>
                data == if effects(11).Stops? then Mixed else manifest.data
      ensures old(running) != NoApplication && !effects(10).Works? ==> !ok && data == old(data)
      ensures effects(10).Works? && effects(11).Works? ==> ok
    {
      if running != NoApplication {
        if effects(10).Stops? {
          return false;
        }
        running := NoApplication;
        if effects(10).WorksThenStops? {
          return false;
        }
      }
      if effects(11).Stops? {
        data := Mixed;
        return false;
      }
      data := manifest.data;
      ok := effects(11).Works?;
    }

    /** Starts the pinned prior image. */
    method StartPrior(effects: nat -> Effect) returns (ok: bool)
      requires Valid() && data.SourceData?
      modifies this`running, this`restarted
      ensures Valid()
      ensures running == old(running) || running == Prior
      ensures restarted == old(restarted) || (restarted && manifest.Complete?)
      ensures ok ==> running == Prior && effects(20).Works? && effects(21).Works? && effects(22).Works?
      ensures pinned && effects(20).Works? && effects(21).Works? && effects(22).Works? ==> ok
    {
      if effects(20) != Works || !pinned || effects(21).Stops? {
        return false;
      }
      running := Prior;
      restarted := restarted || manifest.Complete?;
      ok := effects(21).Works? && effects(22).Works?;
    }

    /** Goes back to the source before a capture is recorded. */
    method ResumeSource(authorized: bool, effects: nat -> Effect) returns (ok: bool)
      requires Valid()
      modifies this`stage, this`running, this`data, this`restarted
      ensures Valid()
      ensures !ResumesFrom(old(stage)) || !authorized ==>
                !ok && stage == old(stage) && running == old(running) && data == old(data)
      ensures stage == old(stage) || stage == SourceResumed
      ensures ok ==>
                && ResumesFrom(old(stage)) && stage == SourceResumed && running == Prior && effects(30).Works?
                && data == (if manifest.Complete? then manifest.data else old(data))
                && (data == source <==> !manifest.Complete? || since == [] || since[|since| - 1] == data)
                && (!old(restarted) ==> data == source)
      ensures ResumesFrom(old(stage)) && authorized && AllWork(effects) ==> ok
      ensures ResumesFrom(old(stage)) && authorized && manifest.Complete? && effects(30).Stops? &&
                (forall i :: i != 30 ==> effects(i).Works?) ==>
                !ok && stage == old(stage) && running == Prior && data == manifest.data && restarted
    {
      if !ResumesFrom(stage) || !authorized {
        return false;
      }
      if manifest.Complete? {
        ok := RestoreManifest(effects);
        if ok {
          ok := StartPrior(effects);
        }
      } else if running != NoApplication {
        ok := effects(20).Works? && running == Prior && effects(22).Works?;
      } else {
        ok := StartPrior(effects);
      }
      if !ok || effects(30).Stops? {
        return false;
      }
      stage := SourceResumed;
      ok := effects(30).Works?;
    }

    /** Stops the target, restores the whole manifest and starts the pinned source image. */
    method Rollback(authorized: bool, effects: nat -> Effect) returns (ok: bool)
      requires Valid()
      modifies this`stage, this`running, this`data, this`restarted
      ensures Valid()
      ensures !RollsBackFrom(old(stage)) || !authorized ==>
                !ok && stage == old(stage) && running == old(running) && data == old(data)
      ensures stage == old(stage) || stage == RolledBack
      ensures ok ==>
                && RollsBackFrom(old(stage)) && stage == RolledBack && running == Prior && data == manifest.data
                && effects(0).Works? && effects(30).Works?
                && (data == source <==> since == [] || since[|since| - 1] == data)
                && (!old(restarted) ==> data == source)
      ensures RollsBackFrom(old(stage)) && authorized && AllWork(effects) ==> ok
      ensures RollsBackFrom(old(stage)) && authorized && effects(30).Stops? &&
                (forall i :: i != 30 ==> effects(i).Works?) ==>
                !ok && stage == old(stage) && running == Prior && data == manifest.data && restarted
    {
      if !RollsBackFrom(stage) || !authorized || effects(0) != Works || !pinned {
        return false;
      }
      ok := RestoreManifest(effects);
      if ok {
        ok := StartPrior(effects);
      }
      if !ok || effects(30).Stops? {
        return false;
      }
      stage := RolledBack;
      ok := effects(30).Works?;
    }
  }

  /**
   In every reachable state past `Built` a recovery command is enabled, its image
   is pinned, and data that is not the source's can be replaced by the captured data.
   */
  lemma EveryStageRecovers(r: Replacement)
    requires r.Valid() && r.stage !in {Prepared, SourceResumed, RolledBack}
    ensures (ResumesFrom(r.stage) <==> !RollsBackFrom(r.stage)) && r.pinned
    ensures r.data.ForeignData? || r.running == Target ==> RollsBackFrom(r.stage) && r.manifest.Complete?
    ensures !r.data.SourceData? ==> r.manifest.Complete? && r.manifest.data.SourceData?
    ensures r.manifest.Complete? && !r.restarted ==> r.manifest.data == r.source
  {
  }

  /**
   What the recovery does not keep: a rollback that started the source but could
   not record it has to be repeated, and the repetition restores the manifest
   over what the source wrote in between.
   */
  method RepeatedRollbackDropsWrites() returns (r: Replacement)
    ensures fresh(r) && r.Valid() && r.stage == RolledBack
    ensures r.source == SourceData(2) && r.data == SourceData(1)
  {
    var all := (i: nat) => Works;
    r := new Replacement(1);
    var ok := r.Build(true, all);
    ok := r.Stop(true, all);
    ok := r.Capture(true, all);
    ok := r.Rollback(true, i => if i == 30 then Stops else Works);
    r.Write(2);
    ok := r.Rollback(true, all);
  }

  /** The same for a capture that was cut off behind its complete manifest and is given up twice. */
  method RepeatedResumeDropsWrites() returns (r: Replacement)
    ensures fresh(r) && r.Valid() && r.stage == SourceResumed
    ensures r.source == SourceData(2) && r.data == SourceData(1)
  {
    var all := (i: nat) => Works;
    r := new Replacement(1);
    var ok := r.Build(true, all);
    ok := r.Stop(true, all);
    ok := r.Capture(true, i => if i == 3 then Stops else Works);
    ok := r.ResumeSource(true, i => if i == 30 then Stops else Works);
    r.Write(2);
    ok := r.ResumeSource(true, all);
  }
}
