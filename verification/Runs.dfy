/** What holds over every run of the host, from a fresh one, through any sequence of
    effects: deploys, failures, kills, reboots and commands in any order. */
module Runs {
  import opened Options
  import opened Records
  import opened Protocol

  lemma {:induction false} InvAt(run: seq<Transition>, i: nat)
    requires IsRun(run) && i < |run|
    ensures Inv(run[i].world)
  {
    if i > 0 {
      assert StepAt(run, i);
      AllowedKeepsInv(run[i - 1].world, run[i].event, run[i].world);
    }
  }

  /** The step that made `run[i]`, with the invariant on both sides. */
  lemma StepOf(run: seq<Transition>, i: nat)
    requires IsRun(run) && 0 < i < |run|
    ensures Inv(run[i - 1].world) && Inv(run[i].world) && Allowed(run[i - 1].world, run[i].event, run[i].world)
  {
    assert StepAt(run, i);
    InvAt(run, i);
  }

  // -- time ----------------------------------------------------------------------------------------

  /** Time only goes on, and only a start, which it dates, makes an idle host run something. */
  lemma OneStepForward(w: World, e: Event, w': World)
    requires Inv(w) && Allowed(w, e, w')
    ensures w.env.clock <= w'.env.clock && w.env.lastStart <= w'.env.lastStart
    ensures e.Start? ==> w'.env.lastStart == w.env.clock
    ensures !e.Start? && Idle(w.env) ==> Idle(w'.env)
  {
  }

  lemma {:induction false} ClockGoesOn(run: seq<Transition>, i: nat, j: nat)
    requires IsRun(run) && i <= j < |run|
    ensures run[i].world.env.clock <= run[j].world.env.clock
    decreases j
  {
    if i < j {
      ClockGoesOn(run, i, j - 1);
      StepOf(run, j);
      OneStepForward(run[j - 1].world, run[j].event, run[j].world);
    }
  }

  lemma {:induction false} BeginsGrow(before: seq<Transition>, after: seq<Transition>)
    requires before <= after
    ensures Begins(before) <= Begins(after)
    ensures Begins(before) == Begins(after) ==> forall k | |before| <= k < |after| :: !after[k].event.SaveBegun?
  {
    if |before| == |after| {
      assert before == after;
    } else {
      BeginsGrow(before, after[..|after| - 1]);
      assert forall k | |before| <= k < |after| - 1 :: after[k] == after[..|after| - 1][k];
    }
  }

  lemma {:induction false} NoneUntilBegun(run: seq<Transition>, i: nat, j: nat)
    requires IsRun(run) && i <= j < |run| && run[i].world.saved.deploying.None?
    requires forall k | i < k <= j :: !run[k].event.SaveBegun?
    ensures run[j].world.saved.deploying.None?
    decreases j
  {
    if i < j {
      NoneUntilBegun(run, i, j - 1);
      StepOf(run, j);
      assert !run[j].event.SaveBegun?;
    }
  }

  /** A run that began no deploy since there was none has none under way at any moment since. */
  lemma NoDeployBegins(before: seq<Transition>, after: seq<Transition>)
    requires IsRun(after) && before != [] && Grew(before, after) && Last(before).saved.deploying.None?
    ensures forall k | |before| <= k < |after| :: after[k].world.saved.deploying.None?
  {
    BeginsGrow(before, after);
    forall k | |before| <= k < |after| ensures after[k].world.saved.deploying.None? {
      NoneUntilBegun(after, |before| - 1, k);
    }
  }

  // -- a schema ahead of the installed release is on record ------------------------------------

  /** A database that holds migrations the installed release does not know: the deploy under way, or the
      failed one if it was not rolled back, says so. */
  lemma SchemaAheadIsOnRecord(run: seq<Transition>, i: nat)
    requires IsRun(run) && i < |run| && run[i].world.saved.release.Some?
    ensures var s := run[i].world.saved;
            && s.modes.Some?
            && (Level(run[i].world) > s.release.value.latest ==>
                  || (s.deploying.Some? && PartlyMigrated(s.deploying.value))
                  || (s.failed.Some? && PartlyMigrated(s.failed.value) && s.failed.value.rolledBack.Absent?))
  {
    InvAt(run, i);
  }

  // -- the restore point ------------------------------------------------------------------------

  /** Migrations stand open at every moment from `i` to `j`. */
  ghost predicate OpenThroughout(run: seq<Transition>, i: nat, j: nat)
    requires i <= j < |run|
  {
    forall k {:trigger run[k]} | i <= k <= j :: Open(run[k].world.saved)
  }

  lemma OneStepKeepsThePoint(w: World, e: Event, w': World)
    requires Inv(w) && Allowed(w, e, w') && Open(w.saved) && Open(w'.saved) && w.saved.release.Some?
    ensures w'.saved.release == w.saved.release && PointOf(w'.saved) == PointOf(w.saved)
  {
  }

  lemma OneStepKeepsTheDumps(w: World, e: Event, w': World)
    requires Inv(w) && Allowed(w, e, w') && Open(w.saved)
    ensures forall p | p in w.env.backups :: p in w'.env.backups && w'.env.backups[p] == w.env.backups[p]
  {
  }

  /** Whatever attempts fail, are killed or are retried meanwhile, for whatever releases, open migrations
      keep the restore point they had first, and no dump is lost or replaced. */
  lemma {:induction false} RestorePointSurvives(run: seq<Transition>, i: nat, j: nat)
    requires IsRun(run) && i <= j < |run| && OpenThroughout(run, i, j) && run[i].world.saved.release.Some?
    ensures run[j].world.saved.release == run[i].world.saved.release
    ensures PointOf(run[j].world.saved) == PointOf(run[i].world.saved)
    ensures forall p | p in run[i].world.env.backups ::
              p in run[j].world.env.backups && run[j].world.env.backups[p] == run[i].world.env.backups[p]
    decreases j
  {
    if i < j {
      RestorePointSurvives(run, i, j - 1);
      StepOf(run, j);
      OneStepKeepsThePoint(run[j - 1].world, run[j].event, run[j].world);
      OneStepKeepsTheDumps(run[j - 1].world, run[j].event, run[j].world);
    }
  }

  /** A dump that opens migrations holds the database as it is at that save. */
  lemma PointIsFresh(w: World, e: Event, w': World)
    requires Inv(w) && Allowed(w, e, w') && Inv(w') && w.saved.release.Some? && !Open(w.saved) && Open(w'.saved)
    requires PointOf(w'.saved).Some? && PointOf(w'.saved).value.Dump?
    ensures PointOf(w'.saved).value.path in w'.env.backups
    ensures w'.env.backups[PointOf(w'.saved).value.path].level == Level(w')
    ensures w'.env == w.env
  {
  }

  lemma OneStepOpens(w: World, e: Event, w': World)
    requires Inv(w) && Allowed(w, e, w') && Open(w'.saved)
    ensures w'.saved.release == w.saved.release
  {
  }

  /** Migrations that stand open were opened by a save, on the same installation, and have stood open since. */
  lemma {:induction false} OpenedAt(run: seq<Transition>, j: nat) returns (i: nat)
    requires IsRun(run) && j < |run| && Open(run[j].world.saved)
    ensures 0 < i <= j && OpenThroughout(run, i, j)
    ensures !Open(run[i - 1].world.saved) && run[i - 1].world.saved.release == run[j].world.saved.release
  {
    StepOf(run, j);
    OneStepOpens(run[j - 1].world, run[j].event, run[j].world);
    if Open(run[j - 1].world.saved) {
      i := OpenedAt(run, j - 1);
    } else {
      i := j;
    }
  }

  lemma RestoresSince(run: seq<Transition>, i: nat, j: nat, path: nat)
    requires IsRun(run) && 0 < i <= j < |run| - 1 && OpenThroughout(run, i, j)
    requires run[i - 1].world.saved.release.Some? && !Open(run[i - 1].world.saved)
    requires run[j + 1].event == RestoreDump(path)
    ensures PointOf(run[i].world.saved) == Some(Dump(path))
    ensures path in run[j].world.env.backups
    ensures run[i].world.env == run[i - 1].world.env && run[i].world.saved.modes.Some?
    ensures run[j].world.env.backups[path].level == Level(run[i].world)
  {
    StepOf(run, i);
    StepOf(run, j + 1);
    assert Open(run[i].world.saved);
    RestorePointSurvives(run, i, j);
    PointIsFresh(run[i - 1].world, run[i].event, run[i].world);
  }

  /** Whatever a roll-back restores was on record when migrations were opened, and they have stood open since:
      the dump holds migrations as the database did at that save. */
  lemma RollBackRestoresTheFirstPoint(run: seq<Transition>, j: nat, path: nat) returns (i: nat)
    requires IsRun(run) && j < |run| - 1 && run[j + 1].event == RestoreDump(path)
    ensures 0 < i <= j && !Open(run[i - 1].world.saved) && OpenThroughout(run, i, j)
    ensures PointOf(run[i].world.saved) == Some(Dump(path)) && path in run[j].world.env.backups
    ensures run[i].world.env == run[i - 1].world.env && run[i].world.saved.modes.Some?
    ensures run[j].world.env.backups[path].level == Level(run[i].world)
  {
    assert Open(run[j].world.saved) && run[j].world.saved.release.Some? by { StepOf(run, j + 1); }
    i := OpenedAt(run, j);
    RestoresSince(run, i, j, path);
  }

  // -- roll-back ----------------------------------------------------------------------------------

  /** The failed record's restore passed its checks at some moment from `i` to `j`. */
  ghost predicate CheckedBetween(run: seq<Transition>, i: nat, j: nat)
    requires i <= j < |run|
  {
    exists k {:trigger run[k]} ::
      i <= k <= j && run[k].world.saved.failed.Some? && RestoreChecked(run[k].world.saved.failed.value)
  }

  /** From the save that says Hot is stopped for a restore, to the one that says its database passed the
      checks, no service starts and none runs. */
  lemma {:induction false} NothingStartsDuringARestore(run: seq<Transition>, i: nat, j: nat)
    requires IsRun(run) && i <= j < |run| && RestoreUnfinished(run[i].world.saved) && !CheckedBetween(run, i, j)
    ensures RestoreUnfinished(run[j].world.saved)
    ensures forall x: Service :: x !in run[j].world.env.running
    ensures i < j ==> !run[j].event.Start?
    decreases j
  {
    InvAt(run, j);
    if i < j {
      assert !CheckedBetween(run, i, j - 1) by {
        forall k | i <= k <= j - 1
          ensures !(run[k].world.saved.failed.Some? && RestoreChecked(run[k].world.saved.failed.value))
        {
        }
      }
      NothingStartsDuringARestore(run, i, j - 1);
      StepOf(run, j);
      assert !(run[j].world.saved.failed.Some? && RestoreChecked(run[j].world.saved.failed.value));
    }
  }

  /** No deploy ended, as a success or a failure, after `i` and up to `j`: the failed record is the same. */
  ghost predicate NoDeployEnds(run: seq<Transition>, i: nat, j: nat)
    requires i <= j < |run|
  {
    forall k {:trigger run[k]} | i < k <= j :: !run[k].event.Finish? && !run[k].event.SaveFailure?
  }

  /** Once a failed record is over, by a checked restore, a roll-back or pointing back, its dump is never
      restored again. */
  lemma {:induction false} NoSecondRestore(run: seq<Transition>, i: nat, j: nat)
    requires IsRun(run) && i <= j < |run| && FailedIsOver(run[i].world.saved) && NoDeployEnds(run, i, j)
    ensures FailedIsOver(run[j].world.saved)
    ensures i < j ==> !run[j].event.RestoreDump?
    decreases j
  {
    if i < j {
      NoSecondRestore(run, i, j - 1);
      StepOf(run, j);
      assert !run[j].event.Finish? && !run[j].event.SaveFailure?;
    }
  }

  // -- services -------------------------------------------------------------------------------------

  /** Every start by a roll-back with nothing to restore found all that ran accounted for. */
  ghost predicate RollsOnlyExplained(run: seq<Transition>, j: nat)
    requires j < |run|
  {
    forall k {:trigger run[k]} | 0 < k <= j ::
      run[k].event.Start? && run[k].event.rolling ==> Unexplained(run[k - 1].world) == {}
  }

  lemma OneStepLeavesNothing(w: World, e: Event, w': World)
    requires Inv(w) && Allowed(w, e, w') && w.env.leftByRollBack == {}
    requires e.Start? && e.rolling ==> Unexplained(w) == {}
    ensures w'.env.leftByRollBack == {}
  {
  }

  lemma {:induction false} NothingLeft(run: seq<Transition>, j: nat)
    requires IsRun(run) && j < |run| && RollsOnlyExplained(run, j)
    ensures run[j].world.env.leftByRollBack == {}
  {
    if j > 0 {
      NothingLeft(run, j - 1);
      StepOf(run, j);
      assert run[j].event.Start? && run[j].event.rolling ==> Unexplained(run[j - 1].world) == {};
      OneStepLeavesNothing(run[j - 1].world, run[j].event, run[j].world);
    }
  }

  /** Every service of an installed release is up, or the saved state, or a boot yet to be answered, says
      that it may be down. The exception is a service that was up and unaccounted for when a roll-back with
      nothing to restore started Hot: a run in which each such start finds everything accounted for has none. */
  lemma NoServiceIsLost(run: seq<Transition>, i: nat, x: Service)
    requires IsRun(run) && i < |run| && run[i].world.saved.release.Some?
    ensures var w := run[i].world;
            x in w.env.running || Explained(w.saved, w.env.settled, x) || x in w.env.leftByRollBack
    ensures var w := run[i].world;
            RollsOnlyExplained(run, i) ==> x in w.env.running || Explained(w.saved, w.env.settled, x)
  {
    InvAt(run, i);
    if RollsOnlyExplained(run, i) {
      NothingLeft(run, i);
    }
  }

  /** A scheduler starts only on a database whose migrations its release knows, and, on an installation, on the
      database that installation uses: the one the delivered secrets name. The exception is secrets that
      are astray, and without any it does not start. */
  lemma SchedulerStartsOnItsSchema(run: seq<Transition>, i: nat)
    requires IsRun(run) && 0 < i < |run| && run[i].event.Start? && Scheduler in run[i].event.starting
    ensures var w, e := run[i - 1].world, run[i].event;
            w.env.secrets.services.Some? && !Astray(w) ==>
              var database := w.env.secrets.services.value.postgres;
              && w.env.level.At(database) <= e.release.latest
              && (w.saved.release.Some? ==> w.saved.modes.Some? && database == w.saved.modes.value.postgres)
    ensures run[i - 1].world.env.secrets.services.None? && Scheduler in run[i].world.env.running ==>
              Scheduler in run[i - 1].world.env.running
    ensures !RestoreUnfinished(run[i - 1].world.saved)
  {
    StepOf(run, i);
  }

  // -- the point of no return -----------------------------------------------------------------------

  ghost predicate NoDeploySucceeds(run: seq<Transition>, i: nat, j: nat)
    requires i <= j < |run|
  {
    forall k {:trigger run[k]} | i < k <= j :: !run[k].event.Finish?
  }

  /** An effect that would put the database from before a data move back in use. */
  predicate GoesBack(e: Event)
  {
    || e == Deliver(Local) || (e.InstallBundle? && e.on.Local?)
    || e.RestoreKept? || e.PutBundleBack? || e.RestoreDump? || e.MoveDatabase?
  }

  /** Once the data moved, only a finished deploy ends that: until then nothing delivers the old database's
      connection, puts the old bundle or secrets back, or restores, and no service reads the old one's. */
  lemma {:induction false} MovedDataStaysMoved(run: seq<Transition>, i: nat, j: nat)
    requires IsRun(run) && i <= j < |run| && DataHasMoved(run[i].world.saved) && NoDeploySucceeds(run, i, j)
    ensures DataHasMoved(run[j].world.saved)
    ensures run[j].world.saved.modes.Some? && !run[j].world.saved.modes.value.postgres.Local?
    ensures var services := run[j].world.env.secrets.services; services.Some? ==> !services.value.postgres.Local?
    ensures i < j ==> !GoesBack(run[j].event)
    decreases j
  {
    InvAt(run, j);
    if i < j {
      MovedDataStaysMoved(run, i, j - 1);
      StepOf(run, j);
      assert !run[j].event.Finish?;
    }
  }

  /** No step changes a dump, or takes one at an older path. */
  lemma OneStepTakesNoOldDump(w: World, e: Event, w': World, path: nat)
    requires Inv(w) && Allowed(w, e, w') && path in w'.env.backups && path < w.env.clock
    ensures path in w.env.backups && w.env.backups[path] == w'.env.backups[path]
  {
  }

  lemma DumpedWhileIdle(w: World, w': World, path: nat, kind: BackupKind)
    requires Inv(w) && Allowed(w, TakeDump(path, kind), w') && Complete(w'.env, path)
    ensures Idle(w'.env)
  {
  }

  /** From a complete dump back to when it was taken, nothing ran. */
  lemma {:induction false} IdleSinceTheDump(run: seq<Transition>, i: nat, j: nat, path: nat, kind: BackupKind)
    requires IsRun(run) && 0 < i <= j < |run| && run[i].event == TakeDump(path, kind)
    requires Complete(run[j].world.env, path)
    ensures forall k | i <= k <= j :: Idle(run[k].world.env)
    decreases j
  {
    StepOf(run, j);
    if i == j {
      DumpedWhileIdle(run[i - 1].world, run[i].world, path, kind);
    } else {
      ClockSinceTheDump(run, i, j - 1, path, kind);
      OneStepForward(run[j - 1].world, run[j].event, run[j].world);
      OneStepTakesNoOldDump(run[j - 1].world, run[j].event, run[j].world, path);
      IdleSinceTheDump(run, i, j - 1, path, kind);
      assert Idle(run[j - 1].world.env);
    }
  }

  lemma ClockSinceTheDump(run: seq<Transition>, i: nat, j: nat, path: nat, kind: BackupKind)
    requires IsRun(run) && 0 < i <= j < |run| && run[i].event == TakeDump(path, kind)
    ensures path < run[j].world.env.clock
  {
    StepOf(run, i);
    ClockGoesOn(run, i, j);
  }

  lemma OneStepMakesDumps(w: World, e: Event, w': World, path: nat)
    requires Inv(w) && Allowed(w, e, w') && path in w'.env.backups
    ensures path in w.env.backups || (e.TakeDump? && e.path == path)
  {
  }

  /** Every dump there is was taken. */
  lemma {:induction false} TakenAt(run: seq<Transition>, j: nat, path: nat) returns (i: nat)
    requires IsRun(run) && j < |run| && path in run[j].world.env.backups
    ensures 0 < i <= j && run[i].event.TakeDump? && run[i].event.path == path
  {
    StepOf(run, j);
    OneStepMakesDumps(run[j - 1].world, run[j].event, run[j].world, path);
    if path in run[j - 1].world.env.backups {
      i := TakenAt(run, j - 1, path);
    } else {
      i := j;
    }
  }

  /** A data move loses no write: it is committed from a dump on its record, which was taken when nothing of Hot
      ran, and nothing has run since. */
  lemma NothingRunsAcrossAMove(run: seq<Transition>, j: nat) returns (i: nat)
    requires IsRun(run) && 0 < j < |run| && run[j].event.SaveMoved?
    ensures run[j].world.saved.deploying.Some? && 0 < i < j && run[i].event.TakeDump?
    ensures run[j].world.saved.deploying.value.restorePoint == Some(Dump(run[i].event.path))
    ensures forall k | i <= k <= j :: Idle(run[k].world.env)
  {
    StepOf(run, j);
    var path := run[j].world.saved.deploying.value.restorePoint.value.path;
    i := TakenAt(run, j, path);
    IdleSinceTheDump(run, i, j, path, run[i].event.kind);
  }

  // -- secrets that are astray ---------------------------------------------------------------------

  /** Only putting kept secrets back, or dropping them, leaves services with another database's. */
  lemma OneStepAstray(w: World, e: Event, w': World)
    requires Inv(w) && Allowed(w, e, w') && Astray(w') && !Astray(w)
    ensures e.RestoreKept? || e.DropKept?
  {
  }

  /** Secrets that are astray were left so by one of these two, and nothing has been delivered since. */
  lemma {:induction false} AstrayComesFrom(run: seq<Transition>, j: nat)
    requires IsRun(run) && j < |run| && Astray(run[j].world)
    ensures exists i :: 0 < i <= j && (run[i].event.RestoreKept? || run[i].event.DropKept?)
                        && forall k | i <= k <= j :: Astray(run[k].world)
  {
    InvAt(run, j);
    if j > 0 {
      StepOf(run, j);
      if Astray(run[j - 1].world) {
        AstrayComesFrom(run, j - 1);
        var i :| 0 < i <= j - 1 && (run[i].event.RestoreKept? || run[i].event.DropKept?)
                 && forall k | i <= k <= j - 1 :: Astray(run[k].world);
        assert forall k | i <= k <= j :: Astray(run[k].world);
      } else {
        OneStepAstray(run[j - 1].world, run[j].event, run[j].world);
        assert forall k | j <= k <= j :: Astray(run[k].world);
      }
    }
  }

  /** Dropping kept secrets sends services astray exactly between a data move's two sets of secrets: its drain had
      begun, it was not committed, and the new ones are delivered. Where there is no such move it changes nothing. */
  lemma DropAstrayExactly(w: World, w': World)
    requires Inv(w) && Allowed(w, DropKept, w')
    ensures Astray(w') && !Astray(w) <==>
              && w.saved.deploying.Some? && DrainBegun(w.saved.deploying.value) && !DataHasMoved(w.saved)
              && w.env.kept.Some? && Mismatched(w)
    ensures Astray(w) ==> w' == w
  {
  }

  /** The secrets kept at `i` are the ones there until `j`. */
  ghost predicate KeptSince(run: seq<Transition>, i: nat, j: nat)
    requires 0 < i <= j < |run|
  {
    && run[i].event.KeepSecrets?
    && forall k {:trigger run[k]} | i < k <= j ::
         !run[k].event.KeepSecrets? && !run[k].event.RestoreKept? && !run[k].event.DropKept? && !run[k].event.Reboot?
  }

  /** A data move was committed after `i`, and by `j`. */
  ghost predicate MovedSince(run: seq<Transition>, i: nat, j: nat)
    requires i <= j < |run|
  {
    exists m {:trigger run[m]} :: i < m <= j && run[m].event.SaveMoved?
  }

  /** The database an installation uses, once there is one. */
  function DatabaseOf(w: World): Option<Mode>
  {
    if w.saved.modes.Some? then Some(w.saved.modes.value.postgres) else None
  }

  lemma OneStepKeepsKept(w: World, e: Event, w': World)
    requires Inv(w) && Allowed(w, e, w')
    requires !e.KeepSecrets? && !e.RestoreKept? && !e.DropKept? && !e.Reboot?
    ensures w'.env.kept == w.env.kept
    ensures w.saved.release.Some? ==> w'.saved.release.Some?
    ensures w.saved.release.Some? && !e.SaveMoved? ==> DatabaseOf(w') == DatabaseOf(w)
    ensures e.SaveMoved? ==>
              w'.saved.release.Some? && DatabaseOf(w) == Some(Local) && DatabaseOf(w') != Some(Local)
  {
  }

  /** What is kept stays as it was kept, and the installation's database changes once at most, off this host. */
  lemma {:induction false} SinceKept(run: seq<Transition>, i: nat, j: nat)
    requires IsRun(run) && 0 < i <= j < |run| && KeptSince(run, i, j)
    ensures var w := run[i - 1].world;
            && run[j].world.saved.release.Some?
            && run[j].world.env.kept == (if w.env.secrets == NO_SECRETS then None else Some(w.env.secrets))
            && (!MovedSince(run, i, j) ==> DatabaseOf(run[j].world) == DatabaseOf(w))
            && (MovedSince(run, i, j) ==> DatabaseOf(w) == Some(Local) && DatabaseOf(run[j].world) != Some(Local))
    decreases j
  {
    StepOf(run, j);
    if i < j {
      SinceKept(run, i, j - 1);
      assert !run[j].event.KeepSecrets? && !run[j].event.RestoreKept?;
      assert !run[j].event.DropKept? && !run[j].event.Reboot?;
      OneStepKeepsKept(run[j - 1].world, run[j].event, run[j].world);
      if MovedSince(run, i, j) && !run[j].event.SaveMoved? {
        assert MovedSince(run, i, j - 1);
      }
      if MovedSince(run, i, j - 1) {
        assert MovedSince(run, i, j) && !run[j].event.SaveMoved?;
      }
    }
  }

  lemma FinishedSince(run: seq<Transition>, i: nat, j: nat)
    requires IsRun(run) && i <= j < |run| && MovedSince(run, i, j) && !DataHasMoved(run[j].world.saved)
    ensures exists m, n :: i < m < n <= j && run[m].event.SaveMoved? && run[n].event.Finish?
  {
    var m :| i < m <= j && run[m].event.SaveMoved?;
    StepOf(run, m);
    if NoDeploySucceeds(run, m, j) {
      MovedDataStaysMoved(run, m, j);
      assert false;
    } else {
      var n :| m < n <= j && run[n].event.Finish?;
      assert i < m < n <= j && run[m].event.SaveMoved? && run[n].event.Finish?;
    }
  }

  /** Putting kept secrets back gives services another database than the installation's exactly when a data move
      was committed, and its deploy finished, since they were kept: they named the installation's then. */
  lemma PutBackAstrayExactly(run: seq<Transition>, i: nat, j: nat)
    requires IsRun(run) && 0 < i < j < |run| && KeptSince(run, i, j - 1) && run[j].event.RestoreKept?
    requires !Mismatched(run[i - 1].world)
    ensures Mismatched(run[j].world) <==>
              run[i - 1].world.env.secrets.services.Some? && MovedSince(run, i, j - 1)
    ensures MovedSince(run, i, j - 1) ==>
              exists m, n :: i < m < n < j && run[m].event.SaveMoved? && run[n].event.Finish?
  {
    StepOf(run, i);
    StepOf(run, j);
    SinceKept(run, i, j - 1);
    if MovedSince(run, i, j - 1) {
      FinishedSince(run, i, j - 1);
      var m, n :| i < m < n <= j - 1 && run[m].event.SaveMoved? && run[n].event.Finish?;
      assert i < m < n < j && run[m].event.SaveMoved? && run[n].event.Finish?;
    }
  }

  /** Kept secrets that were astray already go back as they were: right only if a move has since made that
      database the installation's. */
  lemma PutBackStaysAstray(run: seq<Transition>, i: nat, j: nat)
    requires IsRun(run) && 0 < i < j < |run| && KeptSince(run, i, j - 1) && run[j].event.RestoreKept?
    requires Mismatched(run[i - 1].world)
    ensures Mismatched(run[j].world) <==>
              DatabaseOf(run[j - 1].world) != Some(run[i - 1].world.env.secrets.services.value.postgres)
    ensures !Mismatched(run[j].world) ==> MovedSince(run, i, j - 1)
  {
    StepOf(run, i);
    StepOf(run, j);
    SinceKept(run, i, j - 1);
  }

  lemma OneStepLeavesKept(w: World, e: Event, w': World)
    requires Inv(w) && Allowed(w, e, w') && w'.env.kept.Some? && w'.saved.deploying.None?
    ensures e.Finish? || (w.env.kept == w'.env.kept && w.saved.deploying.None?)
  {
  }

  /** Secrets kept with no deploy under way are what a finished one did not come to remove. Whoever starts a
      deploy can see it. */
  lemma {:induction false} LeftOverFromAFinish(run: seq<Transition>, j: nat)
    requires IsRun(run) && j < |run| && run[j].world.env.kept.Some? && run[j].world.saved.deploying.None?
    ensures exists n :: 0 < n <= j && run[n].event.Finish? && run[n].world.env.kept == run[j].world.env.kept
  {
    if j > 0 {
      StepOf(run, j);
      OneStepLeavesKept(run[j - 1].world, run[j].event, run[j].world);
      if !run[j].event.Finish? { LeftOverFromAFinish(run, j - 1); }
    }
  }

  // -- what running services use --------------------------------------------------------------------

  /** Every running service uses the installation's database. */
  predicate UsesTheDatabase(w: World)
  {
    w.saved.release.Some? && w.saved.modes.Some? ==>
      forall x: Service :: x in w.env.running ==> w.env.running[x].database == w.saved.modes.value.postgres
  }

  lemma OneStepUses(w: World, e: Event, w': World)
    requires Inv(w) && Allowed(w, e, w') && UsesTheDatabase(w) && (e.Start? ==> !Astray(w))
    ensures UsesTheDatabase(w')
  {
  }

  /** Unless a start found secrets astray, every service that runs on an installation uses its database. */
  lemma {:induction false} ServicesUseTheDatabase(run: seq<Transition>, j: nat)
    requires IsRun(run) && j < |run|
    requires forall k {:trigger run[k]} | 0 < k <= j :: run[k].event.Start? ==> !Astray(run[k - 1].world)
    ensures UsesTheDatabase(run[j].world)
  {
    if j > 0 {
      ServicesUseTheDatabase(run, j - 1);
      StepOf(run, j);
      assert run[j].event.Start? ==> !Astray(run[j - 1].world);
      OneStepUses(run[j - 1].world, run[j].event, run[j].world);
    }
  }

  /** The running scheduler's release knows every migration of the database it uses. */
  predicate SchedulerKnows(w: World)
  {
    Scheduler in w.env.running ==>
      var s := w.env.running[Scheduler];
      w.env.level.At(s.database) <= s.release.latest
  }

  /** A migration past what a running scheduler knows, of the database it uses. */
  predicate MigratesPast(v: Env, e: Event)
  {
    && e.Migrate? && Scheduler in v.running && v.running[Scheduler].database == e.on
    && v.running[Scheduler].release.latest < e.release.latest
  }

  lemma OneStepKnows(w: World, e: Event, w': World)
    requires Inv(w) && Allowed(w, e, w') && SchedulerKnows(w)
    requires e.Start? ==> !Astray(w)
    requires !MigratesPast(w.env, e)
    ensures SchedulerKnows(w')
  {
  }

  /** At every moment a running scheduler's release knows the schema it runs on, unless one was started with
      secrets astray, or the installed release's own migrations ran, pointing back at it, beside the
      scheduler of an older one. */
  lemma {:induction false} RunningSchedulerKnowsItsSchema(run: seq<Transition>, j: nat)
    requires IsRun(run) && j < |run|
    requires forall k {:trigger run[k]} | 0 < k <= j ::
               && (run[k].event.Start? ==> !Astray(run[k - 1].world))
               && !MigratesPast(run[k - 1].world.env, run[k].event)
    ensures SchedulerKnows(run[j].world)
  {
    if j > 0 {
      RunningSchedulerKnowsItsSchema(run, j - 1);
      StepOf(run, j);
      assert (run[j].event.Start? ==> !Astray(run[j - 1].world)) && !MigratesPast(run[j - 1].world.env, run[j].event);
      OneStepKnows(run[j - 1].world, run[j].event, run[j].world);
    }
  }

  // -- all of it at once -------------------------------------------------------------------------------

  /** What the state file and the host say of each other. */
  predicate SafeNow(w: World)
  {
    var s, v := w.saved, w.env;
    && (s.release.Some? ==> s.modes.Some? && (Level(w) > s.release.value.latest ==> SchedulerHeld(s)))
    && (s.release.Some? ==>
          forall x: Service :: x in v.running || Explained(s, v.settled, x) || x in v.leftByRollBack)
    && (RestoreUnfinished(s) ==> forall x: Service :: x !in v.running)
    && (DataHasMoved(s) && v.secrets.services.Some? ==> !v.secrets.services.value.postgres.Local?)
  }

  /** A scheduler that starts does so on a schema it knows, unless the secrets are astray. */
  predicate SafeStart(w: World, e: Event)
  {
    e.Start? && Scheduler in e.starting && !Astray(w) && w.env.secrets.services.Some? ==>
      w.env.level.At(w.env.secrets.services.value.postgres) <= e.release.latest
  }

  /** Migrations that have stood open since `k` keep the restore point they had then. */
  ghost predicate KeepsThePoint(run: seq<Transition>, k: nat, i: nat)
    requires k <= i < |run|
  {
    OpenThroughout(run, k, i) && run[k].world.saved.release.Some? ==>
      PointOf(run[i].world.saved) == PointOf(run[k].world.saved)
  }

  /** A failed record that was over at `k`, with no deploy ended since, is not restored from. */
  ghost predicate RestoresOnce(run: seq<Transition>, k: nat, i: nat)
    requires k <= i < |run|
  {
    FailedIsOver(run[k].world.saved) && NoDeployEnds(run, k, i) && k < i ==> !run[i].event.RestoreDump?
  }

  /** A data move that is committed ran nothing since it took the dump on its record. */
  ghost predicate MovesWhole(run: seq<Transition>, i: nat)
    requires i < |run|
  {
    i > 0 && run[i].event.SaveMoved? ==>
      exists k {:trigger run[k]} ::
        && 0 < k < i && run[k].event.TakeDump? && run[i].world.saved.deploying.Some?
        && run[i].world.saved.deploying.value.restorePoint == Some(Dump(run[k].event.path))
        && forall m | k <= m <= i :: Idle(run[m].world.env)
  }

  ghost predicate SafeAt(run: seq<Transition>, i: nat)
    requires i < |run|
  {
    && SafeNow(run[i].world)
    && (i > 0 ==> SafeStart(run[i - 1].world, run[i].event))
    && MovesWhole(run, i)
    && forall k | 0 <= k <= i :: KeepsThePoint(run, k, i) && RestoresOnce(run, k, i)
  }

  lemma SafeSince(run: seq<Transition>, k: nat, i: nat)
    requires IsRun(run) && k <= i < |run|
    ensures KeepsThePoint(run, k, i) && RestoresOnce(run, k, i)
  {
    if OpenThroughout(run, k, i) && run[k].world.saved.release.Some? { RestorePointSurvives(run, k, i); }
    if FailedIsOver(run[k].world.saved) && NoDeployEnds(run, k, i) { NoSecondRestore(run, k, i); }
  }

  lemma EveryRunIsSafe(run: seq<Transition>)
    requires IsRun(run)
    ensures forall i | 0 <= i < |run| :: SafeAt(run, i)
  {
    forall i | 0 <= i < |run| ensures SafeAt(run, i) {
      InvAt(run, i);
      if i > 0 { StepOf(run, i); }
      if i > 0 && run[i].event.SaveMoved? { var k := NothingRunsAcrossAMove(run, i); }
      forall k | 0 <= k <= i ensures KeepsThePoint(run, k, i) && RestoresOnce(run, k, i) {
        SafeSince(run, k, i);
      }
    }
  }
}
