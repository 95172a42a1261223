/** What the agent may do to the host, one atomic effect at a time, and what
    every run of such effects keeps. A save replaces the state file whole, and a
    job, a start or a stop may fail after part of its effect, so a kill or a
    reboot can fall between any two effects and never inside one. */
module Protocol {
  import opened Options
  import opened Records

  // -- the host ------------------------------------------------------------------

  /** Delivered secrets: the database they name, and which delivery wrote them. */
  datatype Delivery = Delivery(postgres: Mode, stamp: nat)

  /** The tmpfs tree: the files services read, and those only jobs read. */
  datatype SecretTree = SecretTree(services: Option<Delivery>, jobs: Option<Delivery>)

  const NO_SECRETS: SecretTree := SecretTree(None, None)

  datatype BackupKind = PreUpgrade | DataMove | Manual

  /** A dump's directory: the migration level of the database in it, whether nothing of Hot ran as it was
      taken, and whether the dump was made at all, since a kill leaves the directory empty. */
  datatype Backup = Backup(kind: BackupKind, level: nat, quiet: Mark, made: Mark)

  /** A running service: the release whose bundle it was created from, and the database its secrets named then. */
  datatype Instance = Instance(release: Release, database: Mode)

  /** Every database's migration ledger. */
  datatype Ledgers = Ledgers(local: nat, managed: nat, existing: nat) {
    function At(m: Mode): nat
    {
      match m case Local => local case Managed => managed case Existing => existing
    }

    function With(m: Mode, l: nat): Ledgers
    {
      match m case Local => this.(local := l) case Managed => this.(managed := l) case Existing => this.(existing := l)
    }
  }

  datatype Env = Env(
    level: Ledgers,
    backups: map<nat, Backup>,          // by path; later dumps have larger paths
    running: map<Service, Instance>,
    secrets: SecretTree,
    kept: Option<SecretTree>,
    bundles: map<Release, Mode>,        // where each installed bundle says PostgreSQL is
    aside: map<Release, Mode>,          // a running release's own bundle, kept beside its new one
    settled: Mark,                      // this boot's start of Hot has been dealt with
    clock: nat,
    leftByRollBack: set<Service>,       // went down, unexplained, in a roll-back's unfinished start
    lastStart: nat)                     // the clock at the last start of a service

  datatype World = World(saved: Saved, env: Env)

  predicate Idle(v: Env) { forall x: Service :: x !in v.running }

  /** The local database as it is, dumped with nothing running. */
  function DumpOf(v: Env, kind: BackupKind): Backup
  {
    Backup(kind, v.level.local, if Idle(v) then Present else Absent, Present)
  }

  /** A dump from which nothing is missing: no service ran as it was taken, and none has started since. */
  predicate Complete(v: Env, path: nat)
  {
    path in v.backups && v.backups[path].made.Present? && v.backups[path].quiet.Present? && v.lastStart <= path
  }

  // -- what the saved state says about the host ------------------------------------

  predicate OpenDeploy(s: Saved) { s.deploying.Some? && PartlyMigrated(s.deploying.value) }

  predicate OpenFailed(s: Saved)
  {
    s.failed.Some? && PartlyMigrated(s.failed.value) && !Over(s.failed.value)
  }

  /** Migrations were opened, and have not been undone. */
  predicate Open(s: Saved) { OpenDeploy(s) || OpenFailed(s) }

  /** Where the open migrations are undone from. */
  function PointOf(s: Saved): Option<Point>
  {
    if OpenDeploy(s) then s.deploying.value.restorePoint
    else if OpenFailed(s) then s.failed.value.restorePoint
    else None
  }

  predicate DataHasMoved(s: Saved)
  {
    || (s.deploying.Some? && MovedData(s.deploying.value))
    || (s.failed.Some? && MovedData(s.failed.value))
  }

  predicate RestoreUnfinished(s: Saved) { s.failed.Some? && Restoring(s.failed.value) }

  predicate FailedIsOver(s: Saved) { s.failed.Some? && Over(s.failed.value) }

  /** The migration level of the database the installed release uses. */
  function Level(w: World): nat
    requires w.saved.modes.Some?
  {
    w.env.level.At(w.saved.modes.value.postgres)
  }

  /** Services that read their secrets now would use another database than the installation's. */
  predicate Mismatched(w: World)
  {
    && w.saved.release.Some? && w.saved.modes.Some? && w.env.secrets.services.Some?
    && w.env.secrets.services.value.postgres != w.saved.modes.value.postgres
  }

  /** A deploy, or an attempt cut short before it, began to drain Hot. */
  predicate DrainBegun(d: Record) { Draining in d.steps || Draining in d.cutShort }

  /** Between the secrets of a data move and those it kept: its deploy goes on, or its failure puts them back. */
  predicate Swapped(w: World)
  {
    && w.saved.deploying.Some? && DrainBegun(w.saved.deploying.value) && !DataHasMoved(w.saved)
    && StorageProgress(w.saved.deploying.value) == NotMoved
    && w.env.kept.Some?
  }

  /** Such secrets, with no move to account for them. */
  predicate Astray(w: World) { Mismatched(w) && !Swapped(w) }

  // -- the invariant ------------------------------------------------------------------

  predicate Consistent(s: Saved)
  {
    && (s.release.Some? ==> s.modes.Some? && s.migrations == Some(s.release.value.latest))
    && (s.release.None? ==> s.migrations.None? && s.modes.None? && s.restarting == {})
    && (s.stopping.Present? ==> s.stopped.Present? && s.release.Some?)
    && (s.deploying.Some? ==>
          && s.deploying.value.previous == s.release
          && s.deploying.value.rolledBack.Absent?
          && s.deploying.value.rollBack.None?)
  }

  /** Unless migrations stand open, the database is one the installed release knows. */
  predicate SchemaKnown(w: World)
    requires Consistent(w.saved)
  {
    w.saved.release.Some? && !Open(w.saved) ==> Level(w) <= w.saved.release.value.latest
  }

  /** Open migrations have a restore point from before them: on a local database, a dump still there. */
  predicate PointStands(w: World)
    requires Consistent(w.saved)
  {
    w.saved.release.Some? && Open(w.saved) ==>
      && PointOf(w.saved).Some?
      && var point := PointOf(w.saved).value;
      && (w.saved.modes.value.postgres.Local? ==> point.Dump?)
      && (point.Dump? ==>
            && (w.saved.modes.value.postgres.Local? || DataHasMoved(w.saved))
            && point.path in w.env.backups && w.env.backups[point.path].made.Present?
            && w.env.backups[point.path].level <= w.saved.release.value.latest)
  }

  /** Once the data moved, nothing on this host names the old database. */
  predicate MoveStands(w: World)
    requires Consistent(w.saved)
  {
    && (DataHasMoved(w.saved) ==>
          && w.saved.release.Some?
          && !w.saved.modes.value.postgres.Local?
          && !Mismatched(w))
    && (w.saved.failed.Some? && MovedData(w.saved.failed.value) ==>
          w.saved.failed.value.rolledBack.Absent? && w.saved.failed.value.rollBack.None?)
  }

  /** What a roll-back left of its progress. */
  predicate RollBackStands(s: Saved)
  {
    s.failed.Some? ==>
      && (Restoring(s.failed.value) ==> s.deploying.None? && s.stopped.Present? && OpenFailed(s))
      && (s.failed.value.pointedBack.Present? ==> s.failed.value.rolledBack.Present?)
      && (RestoreChecked(s.failed.value) ==>
            FailedPartly(s) && s.failed.value.restorePoint.Some? && s.failed.value.restorePoint.value.Dump?)
  }

  /** A deploy under way knows what the failed attempt before it left. */
  predicate CarriedStands(s: Saved)
  {
    s.deploying.Some? && s.failed.Some? && !Over(s.failed.value) ==>
      var d, f := s.deploying.value, s.failed.value;
      && (PartlyMigrated(f) ==> PartlyMigrated(d) && (s.release.Some? ==> d.restorePoint == f.restorePoint))
      && (MovedData(f) ==> MovedData(d))
      && (StorageProgress(f) != NotMoved ==> StorageProgress(d) != NotMoved)
  }

  /** A failed record whose recovery is not over: parts of Hot may be down on its account. */
  predicate FailedStands(s: Saved)
  {
    s.failed.Some? && s.failed.value.rolledBack.Absent? &&
    var f := s.failed.value;
    PartlyMigrated(f) || MovedData(f) || StorageProgress(f) != NotMoved
  }

  /** What a deploy's record says it may have taken down. */
  predicate Owes(d: Record, x: Service)
  {
    || (x.Scheduler? && SchedulerStopped in Stops(d))
    || Draining in Stops(d) || Starting in Stops(d) || Rebooted in Stops(d)
    || PartlyMigrated(d) || MovedData(d) || StorageProgress(d) != NotMoved
  }

  /** The saved state, or a boot still to be answered, explains that `x` may be down. */
  predicate Explained(s: Saved, settled: Mark, x: Service)
  {
    || s.stopped.Present? || s.resumeFailed.Present? || settled.Absent?
    || x in s.restarting
    || FailedStands(s)
    || (s.deploying.Some? && Owes(s.deploying.value, x))
  }

  predicate Accounted(w: World, x: Service)
  {
    Explained(w.saved, w.env.settled, x) || x in w.env.leftByRollBack
  }

  predicate ServicesStand(w: World)
  {
    w.saved.release.Some? ==> forall x: Service :: x in w.env.running || Accounted(w, x)
  }

  /** While a restore is unfinished, nothing of Hot runs on its database. */
  predicate RestoreIsAlone(w: World)
  {
    RestoreUnfinished(w.saved) ==> Idle(w.env)
  }

  ghost predicate Inv(w: World)
  {
    && Consistent(w.saved)
    && SchemaKnown(w)
    && PointStands(w)
    && MoveStands(w)
    && RollBackStands(w.saved)
    && CarriedStands(w.saved)
    && ServicesStand(w)
    && RestoreIsAlone(w)
    && (forall p | p in w.env.backups :: p < w.env.clock)
    && w.env.lastStart <= w.env.clock
    && (Astray(w) ==> w.env.kept.None?)
    && Stamped(w.env.secrets, w.env.clock) && (w.env.kept.Some? ==> Stamped(w.env.kept.value, w.env.clock))
  }

  predicate Stamped(t: SecretTree, clock: nat) { t.services.Some? ==> t.services.value.stamp < clock }

  // -- effects ------------------------------------------------------------------------

  datatype Event =
    | Genesis
    | Save                                   // any save but the four below
    | SaveBegun                              // a deploy's first
    | SaveMoved                              // the data modes and the data-moved step
    | SaveFailure                            // a deploy ends as a failure
    | Finish                                 // a deploy ends as a success
    | Stop(stopping: set<Service>)
    | Start(starting: set<Service>, release: Release, rolling: bool)
    | Migrate(release: Release, on: Mode)
    | RestoreDump(path: nat)
    | MoveDatabase(to: Mode)
    | TakeDump(path: nat, kind: BackupKind)
    | Prune(kind: BackupKind)
    | Deliver(postgres: Mode)
    | DeliverJobs(postgres: Mode)
    | KeepSecrets
    | RestoreKept
    | DropKept
    | InstallBundle(release: Release, on: Mode)
    | PutBundleBack(release: Release)
    | Settle
    | Reboot
    | RestoredElsewhere(on: Mode)            // an operator restored a database off this host

  /** Dumps of one kind newer than `path`. */
  function Newer(backups: map<nat, Backup>, kind: BackupKind, path: nat): set<nat>
  {
    set p | p in backups && backups[p].kind == kind && path < p
  }

  const UPGRADE_DUMPS := 3

  /** The newest dumps of a kind, and every other dump. */
  function Pruned(backups: map<nat, Backup>, kind: BackupKind): map<nat, Backup>
  {
    map p | p in backups && (backups[p].kind == kind ==> |Newer(backups, kind, p)| < UPGRADE_DUMPS) :: backups[p]
  }

  /** A start that may fail partway: each service is as it was, down, or up on `release`, with the secrets there
      are now. Without any, none comes up. */
  predicate StartedSome(v: Env, after: map<Service, Instance>, xs: set<Service>, release: Release)
  {
    forall x: Service ::
      || ((x in after <==> x in v.running) && (x in after ==> after[x] == v.running[x]))
      || (x in xs && (x in after ==> v.secrets.services.Some?
                                     && after[x] == Instance(release, v.secrets.services.value.postgres)))
  }

  /** What goes down in a start, if the state explains none of it. */
  function Unexplained(w: World): set<Service>
  {
    set x | x in w.env.running && !Explained(w.saved, w.env.settled, x)
  }

  /** What every save keeps, whatever it is for. */
  predicate KeepsFacts(w: World, s: Saved)
    requires Consistent(w.saved) && Consistent(s)
  {
    && s.release == w.saved.release
    && (Open(w.saved) && Open(s) && s.release.Some? ==> PointOf(s) == PointOf(w.saved))
    && (!Open(w.saved) && Open(s) && s.release.Some? && PointOf(s).Some? && PointOf(s).value.Dump? ==>
          && PointOf(s).value.path in w.env.backups
          && w.env.backups[PointOf(s).value.path].level == Level(World(s, w.env)))
    && (DataHasMoved(w.saved) ==> DataHasMoved(s))
  }

  /** What only a deploy's end may change about the failed record. */
  predicate KeepsFailed(before: Saved, after: Saved)
  {
    && (FailedIsOver(before) ==> FailedIsOver(after))
    && (RestoreUnfinished(before) ==>
          after.failed.Some? && (Restoring(after.failed.value) || RestoreChecked(after.failed.value)))
    && (RestoreUnfinished(after) && !RestoreUnfinished(before) ==> OpenFailed(before))
  }

  /** One effect of the agent, of Hot's jobs, or of the world around them. */
  ghost predicate Allowed(w: World, e: Event, w': World)
    requires Inv(w)
  {
    var s, v, v' := w.saved, w.env, w'.env;
    match e
    case Genesis => false
    case Save =>
      && v' == v && Inv(w') && KeepsFacts(w, w'.saved) && KeepsFailed(s, w'.saved)
      && w'.saved.modes == s.modes && (s.deploying.Some? <==> w'.saved.deploying.Some?)
      && (Astray(w') ==> Astray(w))
    case SaveBegun =>
      && v' == v && Inv(w') && KeepsFacts(w, w'.saved) && KeepsFailed(s, w'.saved)
      && w'.saved.modes == s.modes && w'.saved.deploying.Some?
      && (Astray(w') ==> Astray(w))
    case SaveMoved =>
      && v' == v && Inv(w') && KeepsFacts(w, w'.saved) && KeepsFailed(s, w'.saved)
      && DataHasMoved(w'.saved) && !Mismatched(w') && Idle(v)
      && (s.release.Some? ==> s.modes.value.postgres.Local?)
      && s.deploying.Some? && w'.saved.deploying.Some? && w'.saved.deploying.value.restorePoint.Some?
      && w'.saved.deploying.value.restorePoint.value.Dump?
      && Complete(v, w'.saved.deploying.value.restorePoint.value.path)
    case SaveFailure =>
      && v' == v && Inv(w') && KeepsFacts(w, w'.saved)
      && w'.saved.modes == s.modes && !RestoreUnfinished(s) && w'.saved.deploying.None?
      && v.kept.None?
    case Finish =>
      && v' == v && Inv(w') && s.deploying.Some? && w'.saved.deploying.None? && w'.saved.failed.None?
      && w'.saved.release.Some? && Level(w') == w'.saved.release.value.latest
      && !Mismatched(w') && (s.release.Some? ==> w'.saved.modes.value.postgres == s.modes.value.postgres)
      && (forall x: Service ::
            x in v.running && v.running[x] == Instance(w'.saved.release.value, w'.saved.modes.value.postgres))
    case Stop(xs) =>
      && w'.saved == s
      && (exists ys :: ys <= xs && v' == v.(running := v.running - ys))
      && (forall x | x in xs :: Accounted(w, x))
    case Start(xs, release, rolling) =>
      && w'.saved == s
      && v' == v.(running := v'.running, leftByRollBack := v'.leftByRollBack, lastStart := v.clock)
      && StartedSome(v, v'.running, xs, release)
      && v'.leftByRollBack ==
         (set x | x in v.leftByRollBack + (if rolling then Unexplained(w) else {}) && x !in v'.running)
      && !RestoreUnfinished(s)
      && (Mismatched(w) ==> Astray(w))
      && (Scheduler in xs && v.secrets.services.Some? && !Mismatched(w) ==>
            v.level.At(v.secrets.services.value.postgres) <= release.latest)
      && (rolling || forall x | x in xs :: Accounted(w, x))
    case Migrate(release, on) =>
      && w'.saved == s
      && v' == v.(level := v.level.With(on, v'.level.At(on)))
      && v.level.At(on) <= v'.level.At(on)
      && (v'.level != v.level ==> v'.level.At(on) <= release.latest)
      && v.secrets.jobs.Some? && v.secrets.jobs.value.postgres == on
      && (s.release.Some? ==> on == s.modes.value.postgres)
      && (s.deploying.Some? ==> Scheduler !in v.running)
      && (s.release.Some? && !Open(s) ==>
            release.latest <= s.release.value.latest || v' == v)
    case RestoreDump(path) =>
      && w'.saved == s
      && v' == v.(level := v.level.With(Local, v'.level.local))
      && RestoreUnfinished(s) && s.modes.Some? && s.modes.value.postgres.Local?
      && PointOf(s) == Some(Dump(path)) && path in v.backups && v.backups[path].made.Present?
    case MoveDatabase(to) =>
      && w'.saved == s
      && v' == v.(level := v.level.With(to, v'.level.At(to)))
      && s.release.Some? && s.modes.value.postgres.Local? && !to.Local? && Idle(v)
    case TakeDump(path, kind) =>
      && w'.saved == s
      && path == v.clock
      && v' == v.(backups := v'.backups, clock := v.clock + 1)
      && (|| v'.backups == v.backups[path := DumpOf(v, kind)]
          || v'.backups == v.backups[path := DumpOf(v, kind).(made := Absent)])
    case Prune(kind) =>
      && w'.saved == s
      && (exists gone :: gone !! Pruned(v.backups, kind).Keys && v' == v.(backups := v.backups - gone))
      && !Open(s)
    case Deliver(postgres) =>
      && w'.saved == s
      && var d := Delivery(postgres, v.clock);
      && v' == v.(secrets := SecretTree(Some(d), Some(d)), clock := v.clock + 1)
      && (s.release.Some? ==> postgres == s.modes.value.postgres || Swapped(w))
    case DeliverJobs(postgres) =>
      && w'.saved == s
      && v' == v.(secrets := v.secrets.(jobs := Some(Delivery(postgres, v.clock))), clock := v.clock + 1)
    case KeepSecrets =>
      && w'.saved == s
      && v' == v.(kept := if v.secrets == NO_SECRETS then None else Some(v.secrets))
      && s.release.Some? && s.deploying.Some? && DrainBegun(s.deploying.value)
      && StorageProgress(s.deploying.value) == NotMoved
      && (Mismatched(w) ==> Astray(w))
    case RestoreKept =>
      && w'.saved == s
      && v.kept.Some? && v' == v.(secrets := v.kept.value, kept := None)
      && !DataHasMoved(s)
    case DropKept =>
      w'.saved == s && v' == v.(kept := None)
    case InstallBundle(release, on) =>
      && w'.saved == s
      && v' == v.(bundles := v.bundles[release := on], aside := v'.aside)
      && (DataHasMoved(s) ==> !on.Local?)
    case PutBundleBack(release) =>
      && w'.saved == s
      && release in v.aside
      && v' == v.(bundles := v.bundles[release := v.aside[release]], aside := v.aside - {release})
      && !DataHasMoved(s)
    case Settle =>
      && w'.saved == s && v' == v.(settled := Present) && Inv(w')
    case Reboot =>
      && w'.saved == s
      && v' == v.(running := map[], secrets := NO_SECRETS, kept := None, settled := Absent)
    case RestoredElsewhere(on) =>
      && w'.saved == s
      && v' == v.(level := v.level.With(on, v'.level.At(on)))
      && !on.Local? && v'.level.At(on) <= v.level.At(on)
  }

  // -- every effect keeps the invariant ---------------------------------------------------

  lemma ServicesKeepInv(w: World, e: Event, w': World)
    requires Inv(w) && Allowed(w, e, w') && (e.Stop? || e.Start?)
    ensures Inv(w')
  {
  }

  lemma LedgersKeepInv(w: World, e: Event, w': World)
    requires Inv(w) && Allowed(w, e, w') && (e.Migrate? || e.RestoreDump? || e.MoveDatabase? || e.RestoredElsewhere?)
    ensures Inv(w')
  {
  }

  lemma DumpsKeepInv(w: World, e: Event, w': World)
    requires Inv(w) && Allowed(w, e, w') && (e.TakeDump? || e.Prune?)
    ensures Inv(w')
  {
  }

  lemma DeliveriesKeepInv(w: World, e: Event, w': World)
    requires Inv(w) && Allowed(w, e, w') && (e.Deliver? || e.DeliverJobs?)
    ensures Inv(w')
  {
  }

  lemma KeptSecretsKeepInv(w: World, e: Event, w': World)
    requires Inv(w) && Allowed(w, e, w') && (e.KeepSecrets? || e.RestoreKept? || e.DropKept?)
    ensures Inv(w')
  {
  }

  lemma BundlesAndBootsKeepInv(w: World, e: Event, w': World)
    requires Inv(w) && Allowed(w, e, w') && (e.InstallBundle? || e.PutBundleBack? || e.Settle? || e.Reboot?)
    ensures Inv(w')
  {
  }

  lemma SavesKeepInv(w: World, e: Event, w': World)
    requires Inv(w) && Allowed(w, e, w')
    requires e.Genesis? || e.Save? || e.SaveBegun? || e.SaveMoved? || e.SaveFailure? || e.Finish?
    ensures Inv(w')
  {
  }

  lemma AllowedKeepsInv(w: World, e: Event, w': World)
    requires Inv(w) && Allowed(w, e, w')
    ensures Inv(w')
  {
    if e.Stop? || e.Start? {
      ServicesKeepInv(w, e, w');
    } else if e.Migrate? || e.RestoreDump? || e.MoveDatabase? || e.RestoredElsewhere? {
      LedgersKeepInv(w, e, w');
    } else if e.TakeDump? || e.Prune? {
      DumpsKeepInv(w, e, w');
    } else if e.Deliver? || e.DeliverJobs? {
      DeliveriesKeepInv(w, e, w');
    } else if e.KeepSecrets? || e.RestoreKept? || e.DropKept? {
      KeptSecretsKeepInv(w, e, w');
    } else if e.InstallBundle? || e.PutBundleBack? || e.Settle? || e.Reboot? {
      BundlesAndBootsKeepInv(w, e, w');
    } else {
      SavesKeepInv(w, e, w');
    }
  }

  // -- runs ---------------------------------------------------------------------------------

  /** An effect and the host after it. */
  datatype Transition = At(event: Event, world: World)

  const BLANK: Saved := Saved(None, None, None, None, None, None, Absent, Absent, {}, Absent)

  /** A host the agent has not been on. */
  predicate Blank(v: Env)
  {
    && v.backups == map[] && v.running == map[] && v.secrets == NO_SECRETS && v.kept == None
    && v.leftByRollBack == {} && v.lastStart == 0
  }

  /** A host with nothing installed, whatever its databases hold. */
  predicate Fresh(w: World)
  {
    w.saved == BLANK && Blank(w.env)
  }

  /** The `i`th effect was allowed where it happened. */
  ghost predicate StepAt(run: seq<Transition>, i: nat)
    requires 0 < i < |run|
  {
    Inv(run[i - 1].world) && Allowed(run[i - 1].world, run[i].event, run[i].world)
  }

  ghost predicate IsRun(run: seq<Transition>)
  {
    && |run| > 0
    && run[0].event == Genesis && Fresh(run[0].world)
    && forall i {:trigger StepAt(run, i)} | 0 < i < |run| :: StepAt(run, i)
  }

  function Last(run: seq<Transition>): World
    requires |run| > 0
  {
    run[|run| - 1].world
  }

  lemma Extend(run: seq<Transition>, e: Event, w: World)
    requires IsRun(run) && Inv(Last(run)) && Allowed(Last(run), e, w)
    ensures IsRun(run + [At(e, w)]) && Inv(w)
  {
    AllowedKeepsInv(Last(run), e, w);
    var longer := run + [At(e, w)];
    forall i {:trigger StepAt(longer, i)} | 0 < i < |longer| ensures StepAt(longer, i) {
      if i < |run| { assert StepAt(run, i); }
    }
  }

  /** How often a run started a Hot service. */
  function Starts(run: seq<Transition>): nat
  {
    if run == [] then 0
    else Starts(run[..|run| - 1]) + if run[|run| - 1].event.Start? then 1 else 0
  }

  /** How often a run began a deploy. */
  function Begins(run: seq<Transition>): nat
  {
    if run == [] then 0
    else Begins(run[..|run| - 1]) + if run[|run| - 1].event.SaveBegun? then 1 else 0
  }

  /** `after` goes on from `before` and begins no deploy. */
  ghost predicate Grew(before: seq<Transition>, after: seq<Transition>)
  {
    before <= after && Begins(after) == Begins(before)
  }

  /** It starts no service either. */
  ghost predicate GrewQuietly(before: seq<Transition>, after: seq<Transition>)
  {
    Grew(before, after) && Starts(after) == Starts(before)
  }
}
