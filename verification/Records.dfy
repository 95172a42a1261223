/** The agent's saved state and deploy records, and every decision it makes by
    computing from them alone. A deploy record and a failed record are the same
    dictionary at different stages of its life, so they share one type. */
module Records {
  import opened Options

  /** A key that is there or not. */
  datatype Mark = Absent | Present

  /** A release, with the migration level its manifest names. */
  datatype Release = Release(version: nat, latest: nat)

  /** Where a data service lives. */
  datatype Mode = Local | Managed | Existing
  datatype Modes = Modes(postgres: Mode, valkey: Mode)

  datatype Service = App | Api | Worker | TaskWorker | Scheduler | Ingress

  /** All of Hot on a single machine. */
  const ALL: set<Service> := {App, Api, Worker, TaskWorker, Scheduler, Ingress}

  predicate IsWeb(x: Service) { x.App? || x.Api? }

  datatype StorageRole = Build | File

  datatype Step =
    | Started | Verified | StorageMoving | StorageMoved | Rendered | Pulled | Draining | Drained | Dumped | Secrets
    | SchedulerStopping | SchedulerStopped | DataMoved | DataReady | RestorePoint | Migrating | Migrated | Admin
    | Starting | Ready | Rebooted

  /** How migrations are undone: a dump on this host, or a restore by someone else. */
  datatype Point = Dump(path: nat) | PointInTime | OperatorBackup

  datatype Progress = NotMoved | Moving | Moved

  datatype RollBackStep = HotStopped | Restored | Checked | HotStarted

  datatype FailedObjects = FailedObjects(role: StorageRole, count: nat)

  /** Steps are a set: no decision depends on their order or number. */
  datatype Record = Record(
    release: Release,
    previous: Option<Release>,
    steps: set<Step>,
    restorePoint: Option<Point>,
    partlyMigrated: Option<Release>,
    dataMoved: Mark,
    storageProgress: Progress,
    storageManifests: map<StorageRole, nat>,
    storageFailed: Option<FailedObjects>,
    storageLeftBehind: map<StorageRole, nat>,
    cutShort: set<Step>,
    rebooted: Mark,
    rolledBack: Mark,
    pointedBack: Mark,
    rollBack: Option<set<RollBackStep>>)

  /** The state file. */
  datatype Saved = Saved(
    release: Option<Release>,
    migrations: Option<nat>,
    modes: Option<Modes>,
    configuration: Option<nat>,
    deploying: Option<Record>,
    failed: Option<Record>,
    stopped: Mark,
    stopping: Mark,
    restarting: set<Service>,
    resumeFailed: Mark)

  // -- what a record says ------------------------------------------------------

  predicate PartlyMigrated(r: Record) { Migrating in r.steps || r.partlyMigrated.Some? }

  function MigratedBy(r: Record): Release
  {
    if r.partlyMigrated.Some? then r.partlyMigrated.value else r.release
  }

  predicate MovedData(r: Record) { DataMoved in r.steps || r.dataMoved.Present? }

  function StorageProgress(r: Record): Progress
  {
    if StorageMoved in r.steps then Moved else if StorageMoving in r.steps then Moving else r.storageProgress
  }

  /** Data or objects went for good: the installed bundle no longer fits them. */
  predicate Committed(r: Record) { MovedData(r) || StorageProgress(r) == Moved }

  function RollBackSteps(r: Record): set<RollBackStep>
  {
    if r.rollBack.Some? then r.rollBack.value else {}
  }

  predicate RestoreChecked(r: Record) { Checked in RollBackSteps(r) }

  /** A roll-back stopped Hot, and its database has not passed the checks. */
  predicate Restoring(r: Record) { HotStopped in RollBackSteps(r) && Checked !in RollBackSteps(r) }

  /** Rolled back, pointed back from, or restored and checked: nothing carries over. */
  predicate Over(r: Record) { r.rolledBack.Present? || RestoreChecked(r) }

  const STOPS: set<Step> := {SchedulerStopped, Draining, Starting, Rebooted}

  /** The kinds of stop a record owns up to, its own and those it inherited. */
  function Stops(r: Record): set<Step>
  {
    var done := r.steps + r.cutShort;
    var noted := if SchedulerStopping in done then done + {SchedulerStopped} else done;
    (if r.rebooted.Present? then noted + {Rebooted} else noted) * STOPS
  }

  function StopsOf(interrupted: Option<Record>): set<Step>
  {
    if interrupted.Some? then Stops(interrupted.value) else {}
  }

  // -- what the state says -----------------------------------------------------

  predicate FailedPartly(s: Saved)
  {
    s.failed.Some? && PartlyMigrated(s.failed.value) && s.failed.value.rolledBack.Absent?
  }

  /** Open migrations keep the installed scheduler down. */
  predicate SchedulerHeld(s: Saved)
  {
    (s.deploying.Some? && PartlyMigrated(s.deploying.value)) || FailedPartly(s)
  }

  /** Whether only a roll-back may come next. */
  predicate RestorePending(s: Saved, starting: Option<Release>)
  {
    s.failed.Some? &&
    var f := s.failed.value;
    || Restoring(f)
    || (s.stopped.Present? && starting.Some? && starting == s.release
        && f.restorePoint.Some? && f.restorePoint.value.Dump?
        && PartlyMigrated(f) && f.rolledBack.Absent? && !MovedData(f))
  }

  // -- what a deploy inherits ----------------------------------------------------

  datatype Carried = Carried(
    dataMoved: Mark,
    partlyMigrated: Option<Release>,
    restorePoint: Option<Point>,
    storageProgress: Progress,
    storageManifests: map<StorageRole, nat>,
    storageFailed: Option<FailedObjects>,
    storageLeftBehind: map<StorageRole, nat>,
    cutShort: set<Step>)

  const NOTHING: Carried := Carried(Absent, None, None, NotMoved, map[], None, map[], {})

  /** An attempt, while it still counts. */
  function Standing(r: Option<Record>): Option<Record>
  {
    if r.Some? && !Over(r.value) then r else None
  }

  /** An attempt whose storage report replaces older ones. */
  predicate LastWord(r: Record)
  {
    StorageProgress(r) == Moved && (StorageMoved !in r.steps || Rendered in r.steps)
  }

  predicate MayHaveMigrated(r: Option<Record>) { r.Some? && PartlyMigrated(r.value) }

  predicate Pointed(r: Option<Record>) { MayHaveMigrated(r) && r.value.restorePoint.Some? }

  predicate Progressed(r: Option<Record>) { r.Some? && StorageProgress(r.value) != NotMoved }

  /** What the standing attempts pass on, each fact from the newest that knows it. */
  function Inherit(failed: Option<Record>, interrupted: Option<Record>): Carried
  {
    var a, b := Standing(interrupted), Standing(failed);
    var heard := Progressed(b) && !(a.Some? && LastWord(a.value));
    Carried(
      if (a.Some? && MovedData(a.value)) || (b.Some? && MovedData(b.value)) then Present else Absent,
      if MayHaveMigrated(a) then Some(MigratedBy(a.value))
      else if MayHaveMigrated(b) then Some(MigratedBy(b.value)) else None,
      if Pointed(a) then a.value.restorePoint else if Pointed(b) then b.value.restorePoint else None,
      if Progressed(a) then StorageProgress(a.value) else if Progressed(b) then StorageProgress(b.value) else NotMoved,
      if Progressed(a) && a.value.storageManifests != map[] then a.value.storageManifests
      else if Progressed(b) then b.value.storageManifests else map[],
      if Progressed(a) && a.value.storageFailed.Some? then a.value.storageFailed
      else if heard then b.value.storageFailed else None,
      if Progressed(a) && a.value.storageLeftBehind != map[] then a.value.storageLeftBehind
      else if heard then b.value.storageLeftBehind else map[],
      StopsOf(interrupted))
  }

  /** A deploy's record as it begins, before its first step. */
  function Begin(release: Release, previous: Option<Release>, c: Carried): Record
  {
    Record(release, previous, {}, c.restorePoint, c.partlyMigrated, c.dataMoved, c.storageProgress,
           c.storageManifests, c.storageFailed, c.storageLeftBehind, c.cutShort, Absent, Absent, Absent, None)
  }

  function WithStep(r: Record, step: Step): Record { r.(steps := r.steps + {step}) }

  /** Walks the interrupted attempt, then the failed one, filling in what is not yet known. */
  method CarriedOver(failed: Option<Record>, interrupted: Option<Record>) returns (carried: Carried)
    ensures carried == Inherit(failed, interrupted)
  {
    carried := NOTHING;
    var settled := false;
    var attempts := [interrupted, failed];
    var i := 0;
    while i < 2
      invariant 0 <= i <= 2
      invariant i == 0 ==> carried == NOTHING && !settled
      invariant i == 1 ==> carried == Inherit(None, interrupted).(cutShort := {})
      invariant i == 1 ==> settled == (interrupted.Some? && !Over(interrupted.value) && LastWord(interrupted.value))
      invariant i == 2 ==> carried == Inherit(failed, interrupted).(cutShort := {})
    {
      var earlier := attempts[i];
      if earlier.Some? && !Over(earlier.value) {
        var r := earlier.value;
        if MovedData(r) {
          carried := carried.(dataMoved := Present);
        }
        if PartlyMigrated(r) {
          if carried.partlyMigrated.None? { carried := carried.(partlyMigrated := Some(MigratedBy(r))); }
          if carried.restorePoint.None? { carried := carried.(restorePoint := r.restorePoint); }
        }
        if StorageProgress(r) != NotMoved {
          if carried.storageProgress == NotMoved { carried := carried.(storageProgress := StorageProgress(r)); }
          if carried.storageManifests == map[] { carried := carried.(storageManifests := r.storageManifests); }
          if !settled {
            if carried.storageFailed.None? { carried := carried.(storageFailed := r.storageFailed); }
            if carried.storageLeftBehind == map[] { carried := carried.(storageLeftBehind := r.storageLeftBehind); }
          }
          settled := LastWord(r);
        }
      }
      i := i + 1;
    }
    carried := carried.(cutShort := StopsOf(interrupted));
  }

  // -- what is inherited, without the order in which it is worked out ------------------------------

  /** An attempt neither rolled back nor pointed back from, nor restored and checked. */
  predicate Counts(r: Option<Record>)
  {
    r.Some? && r.value.rolledBack.Absent? && !(r.value.rollBack.Some? && Checked in r.value.rollBack.value)
  }

  /** The attempts that count, newest first. */
  function Attempts(failed: Option<Record>, interrupted: Option<Record>): seq<Record>
  {
    (if Counts(interrupted) then [interrupted.value] else []) + if Counts(failed) then [failed.value] else []
  }

  ghost predicate NewestThat(attempts: seq<Record>, p: Record -> bool, i: nat)
  {
    i < |attempts| && p(attempts[i]) && forall j | 0 <= j < i :: !p(attempts[j])
  }

  ghost predicate NoneThat(attempts: seq<Record>, p: Record -> bool)
  {
    forall j | 0 <= j < |attempts| :: !p(attempts[j])
  }

  /** All objects are in the new storage, by this attempt's steps or, without any of them, by those before it. */
  predicate ObjectsMoved(r: Record)
  {
    StorageMoved in r.steps || (StorageMoving !in r.steps && r.storageProgress == Moved)
  }

  predicate ObjectsMoving(r: Record)
  {
    StorageMoved !in r.steps && (StorageMoving in r.steps || r.storageProgress == Moving)
  }

  predicate ObjectsTouched(r: Record) { ObjectsMoved(r) || ObjectsMoving(r) }

  /** Its own word on failed and left-behind objects counts: the move was over before it, or its bundle went in
      afterwards. */
  predicate SpeaksForStorage(r: Record) { ObjectsMoved(r) && (StorageMoved !in r.steps || Rendered in r.steps) }

  lemma AttemptsAre(failed: Option<Record>, interrupted: Option<Record>)
    ensures var a := Attempts(failed, interrupted);
            && |a| == (if Counts(interrupted) then 1 else 0) + (if Counts(failed) then 1 else 0)
            && (|a| > 0 ==> a[0] == if Counts(interrupted) then interrupted.value else failed.value)
            && (|a| > 1 ==> a[1] == failed.value)
  {
  }

  /** Which storage progress carries over: that of the newest attempt that has any. */
  lemma InheritsTheProgress(failed: Option<Record>, interrupted: Option<Record>, i: nat)
    ensures var a, c := Attempts(failed, interrupted), Inherit(failed, interrupted);
            && (NewestThat(a, ObjectsTouched, i) ==>
                  && (c.storageProgress == Moved <==> ObjectsMoved(a[i]))
                  && (c.storageProgress == Moving <==> ObjectsMoving(a[i])))
            && (NoneThat(a, ObjectsTouched) ==> c.storageProgress == NotMoved)
  {
    AttemptsAre(failed, interrupted);
  }

  /** Which data and migrations carry over: any move, the release the newest attempt that may have migrated names, and
      the restore point of the newest of those that has one. */
  lemma InheritsTheDatabase(failed: Option<Record>, interrupted: Option<Record>, i: nat)
    ensures var a, c := Attempts(failed, interrupted), Inherit(failed, interrupted);
            var pointed := (r: Record) => PartlyMigrated(r) && r.restorePoint.Some?;
            && (c.dataMoved.Present? <==> exists r :: r in a && (DataMoved in r.steps || r.dataMoved.Present?))
            && (NewestThat(a, PartlyMigrated, i) ==>
                  c.partlyMigrated == if a[i].partlyMigrated.Some? then a[i].partlyMigrated else Some(a[i].release))
            && (NoneThat(a, PartlyMigrated) ==> c.partlyMigrated == None)
            && (NewestThat(a, pointed, i) ==> c.restorePoint == a[i].restorePoint)
            && (NoneThat(a, pointed) ==> c.restorePoint == None)
  {
    AttemptsAre(failed, interrupted);
  }

  /** Which lists of objects carry over: the newest there are, and an older attempt's reports only if the newest does
      not speak for itself. */
  lemma InheritsTheReports(failed: Option<Record>, interrupted: Option<Record>, i: nat)
    ensures var a, c := Attempts(failed, interrupted), Inherit(failed, interrupted);
            var listed := (r: Record) => ObjectsTouched(r) && r.storageManifests != map[];
            var reported := (r: Record) => ObjectsTouched(r) && r.storageFailed.Some?;
            var leaving := (r: Record) => ObjectsTouched(r) && r.storageLeftBehind != map[];
            && (NewestThat(a, listed, i) ==> c.storageManifests == a[i].storageManifests)
            && (NoneThat(a, listed) ==> c.storageManifests == map[])
            && (NewestThat(a, reported, i) ==>
                  c.storageFailed == if i == 1 && SpeaksForStorage(a[0]) then None else a[i].storageFailed)
            && (NoneThat(a, reported) ==> c.storageFailed == None)
            && (NewestThat(a, leaving, i) ==>
                  c.storageLeftBehind == if i == 1 && SpeaksForStorage(a[0]) then map[] else a[i].storageLeftBehind)
            && (NoneThat(a, leaving) ==> c.storageLeftBehind == map[])
  {
    AttemptsAre(failed, interrupted);
  }

  /** Which stops carry over: what the interrupted attempt, or those it took over from, stopped, a scheduler
      that was only stopping too, and a boot that interrupted it; nothing from a failed one. */
  lemma InheritsTheStops(failed: Option<Record>, interrupted: Option<Record>, x: Step)
    ensures var c := Inherit(failed, interrupted);
            if interrupted.None? then c.cutShort == {} else
              var r := interrupted.value;
              var done := r.steps + r.cutShort;
              && (Draining in c.cutShort <==> Draining in done)
              && (Starting in c.cutShort <==> Starting in done)
              && (SchedulerStopped in c.cutShort <==> SchedulerStopped in done || SchedulerStopping in done)
              && (Rebooted in c.cutShort <==> Rebooted in done || r.rebooted.Present?)
              && (x in c.cutShort ==> x in {Draining, Starting, SchedulerStopped, Rebooted})
  {
  }

  /** The record a deploy saves first inherits, if it is then killed, what it itself inherited. */
  lemma CarryOverIsAFixpoint(failed: Option<Record>, interrupted: Option<Record>,
                             release: Release, previous: Option<Release>)
    ensures var first := WithStep(Begin(release, previous, Inherit(failed, interrupted)), Started);
            Inherit(failed, Some(first)) == Inherit(failed, interrupted)
  {
    var c := Inherit(failed, interrupted);
    var first := WithStep(Begin(release, previous, c), Started);
    assert StorageProgress(first) == c.storageProgress;
    assert Stops(first) == c.cutShort;
  }

  /** The saved record after `releases` were each begun and killed right after their first save. */
  function KilledAtFirstSave(failed: Option<Record>, interrupted: Option<Record>, previous: Option<Release>,
                             releases: seq<Release>): Option<Record>
  {
    if releases == [] then interrupted else
      var last := |releases| - 1;
      var before := KilledAtFirstSave(failed, interrupted, previous, releases[..last]);
      Some(WithStep(Begin(releases[last], previous, Inherit(failed, before)), Started))
  }

  /** However many deploys, of whatever releases, are killed there, the next inherits the same. */
  lemma {:induction false} KillsNeitherLoseNorInvent(failed: Option<Record>, interrupted: Option<Record>,
                                                    previous: Option<Release>, releases: seq<Release>)
    ensures Inherit(failed, KilledAtFirstSave(failed, interrupted, previous, releases)) == Inherit(failed, interrupted)
  {
    if releases != [] {
      var last := |releases| - 1;
      KillsNeitherLoseNorInvent(failed, interrupted, previous, releases[..last]);
      CarryOverIsAFixpoint(failed, KilledAtFirstSave(failed, interrupted, previous, releases[..last]),
                           releases[last], previous);
    }
  }
}
