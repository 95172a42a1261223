/** Where a promise does not hold at every crash point, and exactly when it does. */
module Gaps {
  import opened Options
  import opened Records
  import opened Protocol
  import opened HostAgent
  import Runs

  const OLD := Release(1, 1)
  const NEW := Release(2, 1)

  const LOCAL := Modes(Local, Local)
  const REMOTE := Modes(Managed, Managed)

  function ByMode(postgres: Mode): SecretTree
  {
    var d := Delivery(postgres, 0);
    SecretTree(Some(d), Some(d))
  }

  function Everywhere(i: Instance): map<Service, Instance>
  {
    map[App := i, Api := i, Worker := i, TaskWorker := i, Scheduler := i, Ingress := i]
  }

  function Installed(modes: Modes): Saved
  {
    Saved(Some(OLD), Some(OLD.latest), Some(modes), Some(0), None, None, Absent, Absent, {}, Absent)
  }

  /** A host with one complete dump, after two ticks of its clock. */
  function Host(running: map<Service, Instance>, secrets: SecretTree, kept: Option<SecretTree>): Env
  {
    Env(Ledgers(1, 1, 1), map[1 := Backup(DataMove, 1, Present, Present)], running, secrets, kept, map[OLD := Local],
        map[], Present, 2, {}, 0)
  }

  lemma EveryServiceIsThere(i: Instance)
    ensures forall x: Service :: x in Everywhere(i) && Everywhere(i)[x] == i
  {
    forall x: Service ensures x in Everywhere(i) && Everywhere(i)[x] == i {
      match x case App => case Api => case Worker => case TaskWorker => case Scheduler => case Ingress =>
    }
  }

  /** A data move's record up to its secrets, with its dump. */
  const SWAPPING: Record :=
    Begin(OLD, Some(OLD), NOTHING).(steps := {Started, Verified, Rendered, Pulled, Draining, Drained, Dumped, Secrets},
                                    restorePoint := Some(Dump(1)))

  const MOVED: Record := WithStep(SWAPPING, DataMoved)

  // -- two saves where one is needed ----------------------------------------------------------

  /** What the next deploy does to the secrets of one that was interrupted. */
  function AfterPutBack(w: World): World
  {
    var d := w.saved.deploying;
    World(w.saved, w.env.(secrets := if d.Some? && !Committed(d.value) && w.env.kept.Some? then w.env.kept.value
                                     else w.env.secrets, kept := None))
  }

  /** The data modes saved without the data-moved step: a kill there leaves a record that does not speak of the
      move, so the next deploy puts the kept secrets back, which is wrong exactly when they do not name the new
      database. Saved with the step, they are not put back. */
  lemma ModesSavedBeforeTheStep(w: World, modes: Modes)
    requires Inv(w) && w.saved.release.Some? && w.saved.modes.value.postgres.Local? && !modes.postgres.Local?
    requires w.saved.deploying.Some? && !PartlyMigrated(w.saved.deploying.value)
    requires Copied(w.env, w.saved.deploying.value)
    requires w.env.level.At(modes.postgres) == w.env.level.local && !Committed(w.saved.deploying.value)
    requires w.env.secrets.services.Some? && w.env.secrets.services.value.postgres == modes.postgres
    ensures var between := World(w.saved.(modes := Some(modes)), w.env);
            var moved := WithStep(w.saved.deploying.value, DataMoved);
            var both := World(w.saved.(modes := Some(modes), deploying := Some(moved)), w.env);
            && Inv(w) && Allowed(w, SaveMoved, both) && !Mismatched(between)
            && (Mismatched(AfterPutBack(between)) <==>
                  w.env.kept.Some? && w.env.kept.value.services.Some?
                  && w.env.kept.value.services.value.postgres != modes.postgres)
            && !Mismatched(AfterPutBack(both))
  {
    MoveSaveAllowed(w, modes);
  }

  /** It does happen: a move that kept the local database's secrets. */
  lemma ModesSavedFirst()
    ensures var w := World(Installed(LOCAL).(deploying := Some(SWAPPING)),
                           Host(map[], ByMode(Managed), Some(ByMode(Local))));
            && Inv(w)
            && Mismatched(AfterPutBack(World(w.saved.(modes := Some(REMOTE)), w.env)))
  {
    assert Draining in Stops(SWAPPING);
  }

  /** A forced start that takes `stopped` back before it says the start is unfinished: a kill there leaves
      services down that nothing accounts for, unless something else does. */
  lemma StopTakenBackBeforeTheStart(w: World)
    requires Inv(w) && w.saved.release.Some? && w.saved.stopped.Present?
    ensures var between := World(w.saved.(stopped := Absent, stopping := Absent), w.env);
            ServicesStand(between) <==>
              || w.saved.resumeFailed.Present? || w.env.settled.Absent? || FailedStands(w.saved)
              || forall x: Service :: x in w.env.running || x in w.saved.restarting || x in w.env.leftByRollBack
                                      || (w.saved.deploying.Some? && Owes(w.saved.deploying.value, x))
  {
    var between := World(w.saved.(stopped := Absent, stopping := Absent), w.env);
    forall x: Service
      ensures Accounted(between, x) <==>
                || w.saved.resumeFailed.Present? || w.env.settled.Absent? || FailedStands(w.saved)
                || x in w.saved.restarting || x in w.env.leftByRollBack
                || (w.saved.deploying.Some? && Owes(w.saved.deploying.value, x))
    {
    }
  }

  /** Such a state: drain-and-stop stopped everything, and nothing failed or was interrupted. */
  lemma AStopTakenBack()
    ensures var w := World(Installed(LOCAL).(stopped := Present), Host(map[], ByMode(Local), None));
            Inv(w) && !ServicesStand(World(w.saved.(stopped := Absent, stopping := Absent), w.env))
  {
    var w := World(Installed(LOCAL).(stopped := Present), Host(map[], ByMode(Local), None));
    StopTakenBackBeforeTheStart(w);
    assert Ingress !in w.env.running;
  }

  // -- roll-back --------------------------------------------------------------------------------

  /** Some outcome of starting `xs` in a roll-back leaves `x` down, with nothing to account for it. */
  ghost predicate CanLose(w: World, xs: set<Service>, x: Service)
    requires Inv(w) && w.saved.release.Some?
  {
    exists w' :: Allowed(w, Start(xs, w.saved.release.value, true), w')
                 && x !in w'.env.running && !Explained(w'.saved, w'.env.settled, x)
  }

  /** The start took `x` down, and did nothing else. */
  function AfterFailing(w: World, x: Service): World
  {
    var after := w.env.running - {x};
    var left := set y | y in w.env.leftByRollBack + Unexplained(w) && y !in after;
    World(w.saved, w.env.(running := after, leftByRollBack := left, lastStart := w.env.clock))
  }

  lemma AStartCanFailAt(w: World, xs: set<Service>, x: Service)
    requires Inv(w) && !RollBackRefused(w.saved) && !PartlyMigrated(w.saved.failed.value) && Settled(w)
    requires x in xs && x in w.env.running
    ensures Allowed(w, Start(xs, w.saved.release.value, true), AfterFailing(w, x))
  {
    assert StartedSome(w.env, w.env.running - {x}, xs, w.saved.release.value);
  }

  /** A roll-back that has nothing to restore can lose a service it starts exactly when nothing accounts for that
      service before it. Anyone can see that in the state file before asking for it. */
  lemma RollBackLosesExactly(w: World, xs: set<Service>, x: Service)
    requires Inv(w) && !RollBackRefused(w.saved) && !PartlyMigrated(w.saved.failed.value) && Settled(w)
    requires x in xs && x in w.env.running
    ensures CanLose(w, xs, x) <==> !Explained(w.saved, w.env.settled, x)
  {
    AStartCanFailAt(w, xs, x);
    assert x !in AfterFailing(w, x).env.running;
  }

  /** A failed deploy that changed no database. */
  const REFUSED: Record := Failure(WithStep(Begin(NEW, Some(OLD), NOTHING), Started))

  const REFUSED_STATE: Saved := Installed(LOCAL).(failed := Some(REFUSED))

  const ROLLING: World := World(REFUSED_STATE, Host(Everywhere(Instance(OLD, Local)), ByMode(Local), None))

  /** Such a state: everything runs, and nothing would account for the ingress. */
  lemma RollBackCanLoseAService()
    ensures Inv(ROLLING) && !RollBackRefused(REFUSED_STATE) && CanLose(ROLLING, {Ingress}, Ingress)
  {
    EveryServiceIsThere(Instance(OLD, Local));
    RollBackLosesExactly(ROLLING, {Ingress}, Ingress);
  }

  /** After a data move a roll-back is refused, with one exception: the move is told only by a deploy that was
      interrupted before its migrations, while an older failed record, one with nothing left to undo, does
      not speak of it. Then roll-back starts Hot, and never restores. */
  lemma RollBackAfterAMove(w: World)
    requires Inv(w) && DataHasMoved(w.saved)
    ensures !RollBackRefused(w.saved) <==>
              && w.saved.deploying.Some? && !PartlyMigrated(w.saved.deploying.value)
              && w.saved.failed.Some? && !MovedData(w.saved.failed.value)
              && StorageProgress(w.saved.failed.value) == NotMoved
              && (PartlyMigrated(w.saved.failed.value) ==> RestoreChecked(w.saved.failed.value))
    ensures !RollBackRefused(w.saved) ==> !Open(w.saved) && !RestoreUnfinished(w.saved)
  {
  }

  /** The exception is real: a data move that was interrupted, after a deploy that was refused. */
  lemma RollBackAfterAnInterruptedMove()
    ensures var s := Installed(REMOTE).(deploying := Some(MOVED), failed := Some(REFUSED));
            var w := World(s, Host(map[], ByMode(Managed), Some(ByMode(Local))));
            Inv(w) && DataHasMoved(s) && Complete(w.env, 1) && !RollBackRefused(s)
  {
    assert Draining in Stops(MOVED);
  }

  // -- secrets kept past their deploy -------------------------------------------------------------

  const KEEPING: Env := Host(Everywhere(Instance(OLD, Managed)), ByMode(Managed), Some(ByMode(Local)))

  /** A data move ended, and its agent killed before it removed the secrets it had kept. */
  const FINISHED: World := World(Installed(REMOTE), KEEPING)

  lemma TheMoveFinishes()
    ensures var moving := World(Installed(REMOTE).(deploying := Some(MOVED)), KEEPING);
            Inv(moving) && Allowed(moving, Finish, FINISHED)
    ensures Inv(FINISHED)
  {
    EveryServiceIsThere(Instance(OLD, Managed));
  }

  /** The next deploy, of a release that changes no data service, once its services take over. */
  const TAKING_OVER: Record :=
    Begin(NEW, Some(OLD), NOTHING).(steps := {Started, Verified, Rendered, Pulled, Secrets, SchedulerStopping,
                                              SchedulerStopped, DataReady, Migrated, Starting})

  const TAKEN_OVER: World := World(Installed(REMOTE).(deploying := Some(TAKING_OVER)), KEEPING)

  /** It fails there: its recovery starts the installed release whole, and puts the left-over secrets back. */
  const PUT_BACK: World := World(TAKEN_OVER.saved, KEEPING.(secrets := ByMode(Local), kept := None))

  lemma TheNextDeployTakesOver()
    ensures Inv(TAKEN_OVER)
  {
    EveryServiceIsThere(Instance(OLD, Managed));
  }

  lemma TheRecoveryPutsBack()
    ensures StartsWhole(TAKEN_OVER.saved, StopsOf(TAKEN_OVER.saved.deploying))
    ensures Rewrites(TAKEN_OVER.saved, TAKEN_OVER.env, REMOTE)
  {
    assert Starting in Stops(TAKING_OVER);
  }

  lemma TheNextDeployFails()
    ensures StartsWhole(TAKEN_OVER.saved, StopsOf(TAKEN_OVER.saved.deploying))
    ensures Rewrites(TAKEN_OVER.saved, TAKEN_OVER.env, REMOTE)
    ensures PutBack(TAKEN_OVER.env, PUT_BACK.env, TAKEN_OVER.saved.modes, REMOTE, true)
    ensures Inv(TAKEN_OVER) && Allowed(TAKEN_OVER, RestoreKept, PUT_BACK) && Inv(PUT_BACK) && Astray(PUT_BACK)
  {
    TheRecoveryPutsBack();
    TheNextDeployTakesOver();
    KeptSecretsKeepInv(TAKEN_OVER, RestoreKept, PUT_BACK);
  }

  /** All of Hot, up on whatever the delivered secrets name. */
  function Restarted(w: World, release: Release): World
    requires w.env.secrets.services.Some?
  {
    World(w.saved, w.env.(running := Everywhere(Instance(release, w.env.secrets.services.value.postgres)),
                          lastStart := w.env.clock))
  }

  lemma AstrayStartsWhole(w: World, release: Release)
    requires Inv(w) && Astray(w) && !RestoreUnfinished(w.saved) && w.env.leftByRollBack == {}
    requires forall x: Service :: Explained(w.saved, w.env.settled, x)
    ensures Allowed(w, Start(ALL, release, false), Restarted(w, release))
  {
    EveryServiceIsThere(Instance(release, w.env.secrets.services.value.postgres));
    forall x: Service ensures x in ALL {
      match x case App => case Api => case Worker => case TaskWorker => case Scheduler => case Ingress =>
    }
  }

  lemma TakingOverOwes()
    ensures forall x: Service :: Explained(PUT_BACK.saved, Present, x)
  {
    assert Starting in Stops(TAKING_OVER);
  }

  /** A deploy that moved the data, killed after its last save and before it removed the secrets it kept. A later
      deploy that fails once its services take over, with no interruption at all, puts them back and starts Hot
      on the database the data left. */
  lemma KeptSecretsOutliveTheirDeploy()
    ensures var started := Restarted(PUT_BACK, OLD);
            && Inv(FINISHED) && FINISHED.env.kept.Some? && FINISHED.saved.deploying.None?
            && Inv(PUT_BACK) && Allowed(PUT_BACK, Start(ALL, OLD, false), started)
            && started.env.running[Scheduler].database != started.saved.modes.value.postgres
  {
    TheMoveFinishes();
    TheNextDeployFails();
    TakingOverOwes();
    AstrayStartsWhole(PUT_BACK, OLD);
  }

  // -- secrets kept, and dropped unread ------------------------------------------------------------

  /** The host of a failed move whose bundle went back, though that raised: the recovery comes to no secrets, and
      removes the kept ones. */
  function AfterRaise(v: Env, release: Release): Env
    requires release in v.aside
  {
    v.(bundles := v.bundles[release := v.aside[release]], aside := v.aside - {release}, kept := None)
  }

  lemma ARaiseDropsTheKept(w: World)
    requires Inv(w) && Swapped(w) && Mismatched(w) && w.saved.deploying.value.release in w.env.aside
    ensures var d := w.saved.deploying.value;
            var raised := World(w.saved, AfterRaise(w.env, d.release).(kept := w.env.kept));
            var dropped := World(w.saved, AfterRaise(w.env, d.release));
            && Allowed(w, PutBundleBack(d.release), raised) && Inv(raised)
            && Allowed(raised, DropKept, dropped) && Inv(dropped) && Astray(dropped)
  {
    var d := w.saved.deploying.value;
    var raised := World(w.saved, AfterRaise(w.env, d.release).(kept := w.env.kept));
    AllowedKeepsInv(w, PutBundleBack(d.release), raised);
    AllowedKeepsInv(raised, DropKept, World(w.saved, AfterRaise(w.env, d.release)));
  }

  /** A data move that fails between its two sets of secrets can leave services astray whenever its own bundle goes
      back first. `HostAgent.Agent.Recover` promises that it otherwise does not. */
  lemma ABundleFirstCanGoAstray(w: World)
    requires Inv(w) && Swapped(w) && Mismatched(w) && !RestoreUnfinished(w.saved)
    requires BundleFirst(w.saved, w.env.aside, w.saved.deploying.value.release)
    ensures var d := w.saved.deploying.value;
            var raised := World(w.saved, AfterRaise(w.env, d.release).(kept := w.env.kept));
            var dropped := World(w.saved, AfterRaise(w.env, d.release));
            var failed := World(w.saved.(deploying := None, failed := Some(Failure(d)), resumeFailed := Present),
                                dropped.env);
            && Allowed(w, PutBundleBack(d.release), raised) && Inv(raised)
            && Allowed(raised, DropKept, dropped) && Inv(dropped) && Astray(dropped)
            && Allowed(dropped, SaveFailure, failed) && Inv(failed) && Astray(failed)
  {
    var d := w.saved.deploying.value;
    var dropped := World(w.saved, AfterRaise(w.env, d.release));
    ARaiseDropsTheKept(w);
    FailureSaveAllowed(dropped, d, w.saved.stopped, w.saved.restarting, Present);
  }

  /** Such a move: the installed release is deployed again, for new data services, and its secrets are delivered. */
  const MOVING: World := World(Installed(LOCAL).(deploying := Some(SWAPPING)),
                               Host(map[], ByMode(Managed), Some(ByMode(Local))).(aside := map[OLD := Local]))

  const MOVE_FAILED: Saved := Installed(LOCAL).(failed := Some(Failure(SWAPPING)), resumeFailed := Present)

  lemma TheMoveIsUnderWay()
    ensures Inv(MOVING) && Swapped(MOVING) && Mismatched(MOVING) && BundleFirst(MOVING.saved, MOVING.env.aside, OLD)
  {
    assert Draining in Stops(SWAPPING);
  }

  lemma AMoveCanGoAstray()
    ensures Inv(MOVING) && Swapped(MOVING) && Mismatched(MOVING) && BundleFirst(MOVING.saved, MOVING.env.aside, OLD)
    ensures var failed := World(MOVE_FAILED, AfterRaise(MOVING.env, OLD)); Inv(failed) && Astray(failed)
  {
    TheMoveIsUnderWay();
    ABundleFirstCanGoAstray(MOVING);
  }

  /** The move tried again, once it drains. */
  const RETRYING: Record :=
    Begin(OLD, Some(OLD), Inherit(Some(Failure(SWAPPING)), None)).(
      steps := {Started, Verified, Rendered, Pulled, Draining})

  lemma TheRetryDrains()
    ensures var retry := World(MOVE_FAILED.(deploying := Some(RETRYING)), AfterRaise(MOVING.env, OLD));
            Inv(retry) && Astray(retry) && forall x: Service :: Explained(retry.saved, Present, x)
  {
    assert Draining in Stops(RETRYING);
  }

  /** A retry brings the workers up to empty the queue, on the database the data has not moved to. */
  lemma TheRetryStartsWorkers()
    ensures var retry := World(MOVE_FAILED.(deploying := Some(RETRYING)), AfterRaise(MOVING.env, OLD));
            var working := map[Worker := Instance(OLD, Managed), TaskWorker := Instance(OLD, Managed)];
            var started := World(retry.saved, retry.env.(running := working, lastStart := retry.env.clock));
            && Inv(retry) && Astray(retry) && Allowed(retry, Start({Worker, TaskWorker}, OLD, false), started)
            && retry.saved.modes.value.postgres != started.env.running[Worker].database
  {
    TheRetryDrains();
  }

  // -- a refused deploy ---------------------------------------------------------------------------

  /** A drain that fails, in a deploy that changes the data services: its recovery delivers the installed ones'
      secrets again. Before the drain, and once the move has kept the secrets, it does not. */
  lemma ADrainThatFails(steps: set<Step>)
    requires steps <= {Started, Verified, Rendered, Pulled, Draining, Drained, Dumped}
    ensures var host := Host(Everywhere(Instance(OLD, Local)), ByMode(Local), None);
            RefusalRewrites(Installed(LOCAL), host, steps, REMOTE) <==> Draining in steps && Dumped !in steps
  {
  }

  /** Where there are no secrets at all, a deploy's checks deliver the installed ones, whether or not it is refused
      then. `HostAgent.Agent.DeployOrRecover` promises that it otherwise changes no service's files. */
  lemma NoSecretsAreSupplied(w: World)
    requires Inv(w) && w.saved.release.Some? && w.env.secrets == NO_SECRETS
    ensures var on := w.saved.modes.value.postgres;
            var d := Delivery(on, w.env.clock);
            var after := World(w.saved, w.env.(secrets := SecretTree(Some(d), Some(d)), clock := w.env.clock + 1));
            Allowed(w, Deliver(on), after) && Supplied(w.env.secrets, after.env.secrets.services, w.saved)
  {
  }

  const BOOTED: World := World(Installed(LOCAL).(stopped := Present), Host(map[], NO_SECRETS, None))

  /** Such a refusal: a host that booted while Hot was stopped. No recovery writes what services read, and still it
      is there afterwards. */
  lemma ARefusalAfterABoot(steps: set<Step>)
    ensures var begun := WithStep(Begin(NEW, Some(OLD), NOTHING), Started);
            var w := World(BOOTED.saved.(deploying := Some(begun)), BOOTED.env);
            var d := Delivery(Local, 2);
            var supplied := World(w.saved, w.env.(secrets := SecretTree(Some(d), Some(d)), clock := 3));
            && Inv(BOOTED) && Inv(w) && Allowed(w, Deliver(Local), supplied) && Inv(supplied)
            && !Rewrites(supplied.saved, supplied.env, LOCAL)
            && !RefusalRewrites(BOOTED.saved, BOOTED.env, steps, LOCAL)
            && supplied.env.secrets.services != BOOTED.env.secrets.services
  {
    var w := World(BOOTED.saved.(deploying := Some(WithStep(Begin(NEW, Some(OLD), NOTHING), Started))), BOOTED.env);
    NoSecretsAreSupplied(w);
  }

  // -- a scheduler that does not know its schema ------------------------------------------------------

  /** Secrets astray: the scheduler starts on a database with migrations its release does not know. */
  lemma AStartAstrayOnANewerSchema()
    ensures var w := World(PUT_BACK.saved, PUT_BACK.env.(level := Ledgers(5, 1, 1)));
            && Inv(w) && Astray(w) && Allowed(w, Start(ALL, OLD, false), Restarted(w, OLD))
            && Runs.SchedulerKnows(w) && !Runs.SchedulerKnows(Restarted(w, OLD))
  {
    TheNextDeployFails();
    TakingOverOwes();
    AstrayStartsWhole(World(PUT_BACK.saved, PUT_BACK.env.(level := Ledgers(5, 1, 1))), OLD);
  }

  // -- a scheduler left behind -----------------------------------------------------------------------

  /** Some outcome of migrating leaves a running scheduler on a schema it does not know. */
  ghost predicate CanOutrun(w: World, release: Release, on: Mode)
    requires Inv(w)
  {
    exists w' :: Allowed(w, Migrate(release, on), w') && !Runs.SchedulerKnows(w')
  }

  /** The installed release's checks, when it is pointed back at, can leave a running scheduler behind exactly when
      they are not refused, and that scheduler uses the same database and belongs to a release that knows fewer
      migrations. The job's secrets were delivered for that database just before. */
  lemma PointingBackOutrunsExactly(w: World)
    requires Inv(w) && w.saved.release.Some? && w.saved.deploying.None? && Runs.SchedulerKnows(w)
    requires w.env.secrets.jobs.Some? && w.env.secrets.jobs.value.postgres == w.saved.modes.value.postgres
    ensures CanOutrun(w, w.saved.release.value, w.saved.modes.value.postgres) <==>
              && Level(w) <= w.saved.release.value.latest
              && Runs.MigratesPast(w.env, Migrate(w.saved.release.value, w.saved.modes.value.postgres))
  {
    var release, on := w.saved.release.value, w.saved.modes.value.postgres;
    if Level(w) <= release.latest && Runs.MigratesPast(w.env, Migrate(release, on)) {
      var w' := World(w.saved, w.env.(level := w.env.level.With(on, release.latest)));
      assert Allowed(w, Migrate(release, on), w') && !Runs.SchedulerKnows(w');
    } else {
      forall w' | Allowed(w, Migrate(release, on), w') ensures Runs.SchedulerKnows(w') {
        if Level(w) <= release.latest { Runs.OneStepKnows(w, Migrate(release, on), w'); }
      }
    }
  }

  const BACK := Release(1, 5)
  const OLDER := Release(2, 4)

  /** A stop that has yet to finish, after a release with fewer migrations failed: its scheduler still runs. */
  const BEHIND: World :=
    World(Saved(Some(BACK), Some(5), Some(REMOTE), Some(0), None,
                Some(Failure(Begin(OLDER, Some(BACK), NOTHING).(steps := {Started, Migrating},
                                                                restorePoint := Some(PointInTime)))),
                Present, Present, {}, Absent),
          Host(map[Scheduler := Instance(OLDER, Managed)], ByMode(Managed), None).(level := Ledgers(1, 4, 1)))

  lemma ASchedulerLeftBehind()
    ensures Inv(BEHIND) && Runs.SchedulerKnows(BEHIND) && CanOutrun(BEHIND, BACK, Managed)
  {
    PointingBackOutrunsExactly(BEHIND);
  }
}
