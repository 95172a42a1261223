/** The host agent on a single machine. Every change it makes to the host is one
    effect of Protocol, appended to `run`, so what Protocol proves of every run
    holds of whatever these methods do, however they are cut short. */
module HostAgent {
  import opened Options
  import opened Records
  import opened Protocol
  import Runs

  /** How a step ends: it works, it raises, or the agent is killed there. */
  datatype Outcome = Ok | Failed | Killed {
    predicate IsFailure() { !Ok? }

    function PropagateFailure(): Outcome
      requires IsFailure()
    {
      this
    }
  }

  /** What the host finds around it: where its configuration has the data services, that configuration's digest, the
      roles whose storage it has elsewhere, whether the installed bundle has a job that reads the ledger and its Hot
      knows that, and whether the host's address or the operator's secrets changed since the last render. */
  datatype Config = Config(modes: Modes, digest: nat, storage: set<StorageRole>, statusJob: Mark, statusKnown: Mark,
                           readdressed: Mark, unmounted: Mark)

  /** A deploy that worked: its release is installed, on the configuration, with nothing left to do, and every service
      runs it on its database, migrated to its level. */
  ghost predicate Deployed(s: Saved, v: Env, release: Release, config: Config)
  {
    && s == Saved(Some(release), Some(release.latest), Some(config.modes), Some(config.digest),
                  None, None, Absent, Absent, {}, Absent)
    && v.level.At(config.modes.postgres) == release.latest && v.settled.Present? && v.kept.None?
    && forall x: Service :: x in v.running && v.running[x] == Instance(release, config.modes.postgres)
  }

  /** A deploy of `release` that began from `before` is over: it worked, or it is on record as failed. */
  ghost predicate Ended(before: Saved, s: Saved, v: Env, release: Release, config: Config)
  {
    && s.deploying.None?
    && (|| Deployed(s, v, release, config)
        || (s.release == before.release && s.failed.Some? && s.failed.value.release == release))
  }

  /** `r` is `d` further on: more steps, none of them a migration or a data move, and perhaps
      a restore point or what a storage move reported. */
  predicate Follows(d: Record, r: Record)
  {
    && r.release == d.release && r.previous == d.previous
    && r.partlyMigrated == d.partlyMigrated && r.dataMoved == d.dataMoved && r.storageProgress == d.storageProgress
    && r.cutShort == d.cutShort && r.rebooted == d.rebooted
    && r.rolledBack == d.rolledBack && r.rollBack == d.rollBack
    && d.steps <= r.steps
    && (Migrating in r.steps ==> Migrating in d.steps)
    && (DataMoved in r.steps ==> DataMoved in d.steps)
    && (PartlyMigrated(d) ==> r.restorePoint == d.restorePoint)
  }

  /** No storage move begins between a data move's two sets of secrets. */
  predicate MovesApart(w: World, r: Record)
    requires w.saved.deploying.Some?
  {
    Mismatched(w) && StorageProgress(w.saved.deploying.value) == NotMoved ==> StorageProgress(r) == NotMoved
  }

  /** Saving a record that goes on from the saved one keeps every fact. */
  lemma SaveRecordAllowed(w: World, r: Record)
    requires Inv(w) && w.saved.deploying.Some? && Follows(w.saved.deploying.value, r) && MovesApart(w, r)
    ensures Allowed(w, Save, World(w.saved.(deploying := Some(r)), w.env))
  {
    assert Stops(w.saved.deploying.value) <= Stops(r);
  }

  /** `r` has a complete dump of the local database as it is. */
  predicate Copied(v: Env, r: Record)
  {
    && r.restorePoint.Some? && r.restorePoint.value.Dump?
    && Complete(v, r.restorePoint.value.path) && v.backups[r.restorePoint.value.path].level == v.level.local
    && Idle(v)
  }

  /** One save commits a data move: it names the new modes and the step together. */
  lemma MoveSaveAllowed(w: World, modes: Modes)
    requires Inv(w) && w.saved.release.Some? && w.saved.modes.value.postgres.Local? && !modes.postgres.Local?
    requires w.saved.deploying.Some? && !PartlyMigrated(w.saved.deploying.value)
    requires Copied(w.env, w.saved.deploying.value)
    requires w.env.level.At(modes.postgres) == w.env.level.local
    requires w.env.secrets.services.Some? ==> w.env.secrets.services.value.postgres == modes.postgres
    ensures var r := WithStep(w.saved.deploying.value, DataMoved);
            Allowed(w, SaveMoved, World(w.saved.(modes := Some(modes), deploying := Some(r)), w.env))
  {
    var r := WithStep(w.saved.deploying.value, DataMoved);
    assert Stops(w.saved.deploying.value) <= Stops(r);
  }

  /** `r` has a restore point that matches today's ledger. */
  predicate PointReady(w: World, r: Record)
    requires w.saved.modes.Some?
  {
    && r.restorePoint.Some?
    && (w.saved.modes.value.postgres.Local? ==> r.restorePoint.value.Dump?)
    && (r.restorePoint.value.Dump? ==>
          && (w.saved.modes.value.postgres.Local? || MovedData(r))
          && r.restorePoint.value.path in w.env.backups && w.env.backups[r.restorePoint.value.path].made.Present?
          && w.env.backups[r.restorePoint.value.path].level == Level(w))
  }

  /** This save opens migrations. */
  lemma MigratingSaveAllowed(w: World, r: Record)
    requires Inv(w) && w.saved.deploying.Some? && Follows(w.saved.deploying.value, r) && MovesApart(w, r)
    requires w.saved.release.Some? && !PartlyMigrated(r) ==> PointReady(w, r)
    ensures Allowed(w, Save, World(w.saved.(deploying := Some(WithStep(r, Migrating))), w.env))
  {
    assert Stops(w.saved.deploying.value) <= Stops(WithStep(r, Migrating));
  }

  // -- the record a failure is recovered by -----------------------------------------------

  /** The deploy's own record, or, when it failed before it began one, what earlier attempts left. */
  function RecoveryRecord(s: Saved, release: Release): Record
  {
    if s.deploying.Some? && s.deploying.value.release == release then s.deploying.value
    else Begin(release, s.release, Inherit(s.failed, s.deploying))
  }

  /** A storage move was begun that no finished deploy ended. */
  predicate StorageUnderWay(s: Saved)
  {
    || (s.deploying.Some? && StorageProgress(s.deploying.value) != NotMoved)
    || (s.failed.Some? && StorageProgress(s.failed.value) != NotMoved && !Over(s.failed.value))
  }

  /** The newest attempt that stands and moved any objects moved them all. */
  predicate AllObjectsMoved(s: Saved)
  {
    if s.deploying.Some? && ObjectsTouched(s.deploying.value) then ObjectsMoved(s.deploying.value)
    else s.failed.Some? && !Over(s.failed.value) && ObjectsMoved(s.failed.value)
  }

  /** When Hot is down after a failure: it was before, data or objects went elsewhere, or migrations are open and
      a drain or a reboot had taken it down. */
  predicate StaysStopped(s: Saved)
  {
    || s.stopped.Present? || StorageUnderWay(s) || DataHasMoved(s)
    || (Open(s) && s.release.Some? && (Draining in StopsOf(s.deploying) || Rebooted in StopsOf(s.deploying)))
  }

  /** `r` says all the state says: neither record's migrations, moves or stops are missed. */
  predicate Speaks(s: Saved, r: Record)
  {
    && r.previous == s.release
    && (PartlyMigrated(r) <==> Open(s))
    && (MovedData(r) <==> DataHasMoved(s))
    && (StorageProgress(r) != NotMoved <==> StorageUnderWay(s))
    && (StorageProgress(r) == Moved <==> AllObjectsMoved(s))
    && Stops(r) == StopsOf(s.deploying)
    && (Open(s) && s.release.Some? ==> r.restorePoint == PointOf(s))
  }

  /** So does the note that a boot interrupted the deploy. */
  lemma RebootSaveAllowed(w: World)
    requires Inv(w) && w.saved.deploying.Some?
    ensures Allowed(w, Save, World(w.saved.(deploying := Some(w.saved.deploying.value.(rebooted := Present))), w.env))
  {
    assert Stops(w.saved.deploying.value) <= Stops(w.saved.deploying.value.(rebooted := Present));
  }

  /** What a deploy inherits from both attempts speaks for them. */
  lemma InheritedSpeaks(s: Saved, release: Release)
    requires Consistent(s) && CarriedStands(s)
    requires s.failed.Some? && MovedData(s.failed.value) ==> !Over(s.failed.value)
    requires s.release.Some? && Open(s) ==> PointOf(s).Some?
    ensures Speaks(s, Begin(release, s.release, Inherit(s.failed, s.deploying)))
  {
    assert Stops(Begin(release, s.release, Inherit(s.failed, s.deploying))) == Inherit(s.failed, s.deploying).cutShort;
  }

  lemma RecoveryRecordSpeaks(s: Saved, release: Release)
    requires Consistent(s) && CarriedStands(s)
    requires s.failed.Some? && MovedData(s.failed.value) ==> !Over(s.failed.value)
    requires s.release.Some? && Open(s) ==> PointOf(s).Some?
    ensures Speaks(s, RecoveryRecord(s, release))
  {
    InheritedSpeaks(s, release);
  }

  lemma SpeakingKeepsInv(w: World, r: Record)
    requires Inv(w) && !RestoreUnfinished(w.saved) && !Swapped(w)
    requires Speaks(w.saved, r) && r.rolledBack.Absent? && r.rollBack.None?
    ensures Inv(World(w.saved.(deploying := Some(WithStep(r, Started))), w.env))
  {
    assert Stops(WithStep(r, Started)) == Stops(r);
  }

  /** A record that speaks for the attempts before it can take their place as the deploy under way. */
  lemma SpeakingSaveAllowed(w: World, r: Record)
    requires Inv(w) && !RestoreUnfinished(w.saved) && !Swapped(w)
    requires Speaks(w.saved, r) && r.rolledBack.Absent? && r.rollBack.None?
    ensures Allowed(w, SaveBegun, World(w.saved.(deploying := Some(WithStep(r, Started))), w.env))
  {
    SpeakingKeepsInv(w, r);
  }

  /** That is how a deploy makes its first save. */
  lemma FirstSaveAllowed(w: World, release: Release)
    requires Inv(w) && !RestoreUnfinished(w.saved) && !Swapped(w)
    ensures var r := WithStep(Begin(release, w.saved.release, Inherit(w.saved.failed, w.saved.deploying)), Started);
            Allowed(w, SaveBegun, World(w.saved.(deploying := Some(r)), w.env))
  {
    InheritedSpeaks(w.saved, release);
    SpeakingSaveAllowed(w, Begin(release, w.saved.release, Inherit(w.saved.failed, w.saved.deploying)));
  }

  /** Whether all of the installed release is started again after a failure that opened no migrations: something
      drained, replaced or rebooted it, or a checked roll-back left its start incomplete. */
  predicate StartsWhole(s: Saved, stops: set<Step>)
  {
    || Draining in stops || Starting in stops || Rebooted in stops
    || (s.failed.Some? && RestoreChecked(s.failed.value))
  }

  /** The parts of a record that a failure keeps. */
  function Failure(r: Record): Record
  {
    r.(previous := None, cutShort := {}, rebooted := Absent, rolledBack := Absent, pointedBack := Absent,
       rollBack := None)
  }

  /** A failure's save keeps what its record says, and accounts for what is down. */
  lemma FailureSaveAllowed(w: World, r: Record, stopped: Mark, restarting: set<Service>, resumeFailed: Mark)
    requires Inv(w) && !RestoreUnfinished(w.saved) && w.env.kept.None?
    requires PartlyMigrated(r) <==> Open(w.saved)
    requires MovedData(r) <==> DataHasMoved(w.saved)
    requires Open(w.saved) && w.saved.release.Some? ==> r.restorePoint == PointOf(w.saved)
    requires w.saved.stopped.Present? ==> stopped.Present?
    requires w.saved.release.None? ==> restarting == {}
    requires w.saved.release.Some? && !PartlyMigrated(r) && !MovedData(r) && StorageProgress(r) == NotMoved ==>
               forall x: Service :: x in w.env.running || stopped.Present? || resumeFailed.Present?
                                    || w.env.settled.Absent? || x in restarting || x in w.env.leftByRollBack
    ensures Allowed(w, SaveFailure,
                    World(w.saved.(deploying := None, failed := Some(Failure(r)), stopped := stopped,
                                   restarting := restarting, resumeFailed := resumeFailed), w.env))
  {
  }

  /** The state with its marks about stops and starts changed. */
  function Marked(s: Saved, stopped: Mark, stopping: Mark, restarting: set<Service>, resumeFailed: Mark): Saved
  {
    s.(stopped := stopped, stopping := stopping, restarting := restarting, resumeFailed := resumeFailed)
  }

  /** The marks can change while what is down stays accounted for, and a stop that a restore needs stays. */
  lemma MarksSaveAllowed(w: World, stopped: Mark, stopping: Mark, restarting: set<Service>, resumeFailed: Mark)
    requires Inv(w) && w.saved.release.Some?
    requires stopping.Present? || RestoreUnfinished(w.saved) ==> stopped.Present?
    requires ServicesStand(World(Marked(w.saved, stopped, stopping, restarting, resumeFailed), w.env))
    ensures Allowed(w, Save, World(Marked(w.saved, stopped, stopping, restarting, resumeFailed), w.env))
  {
  }

  /** Why a deploy may not move data or objects: a storage move is not over, migrations are open, the release
      changes too, or a finished storage move would gain a role. */
  predicate MovesRefused(r: Record, installed: Option<Release>, moving: bool, storage: set<StorageRole>)
  {
    || (moving && StorageProgress(r) != NotMoved)
    || ((moving || storage != {}) && r.partlyMigrated.Some?)
    || (storage != {} && (Some(r.release) != installed || moving))
    || (storage != {} && StorageProgress(r) == Moved && !(storage <= r.storageManifests.Keys))
  }

  /** Whether a bundle set aside goes back: its own release was being deployed again, had got a new one, and had
      moved nothing for good. */
  predicate BundleGoesBack(record: Option<Record>, aside: map<Release, Mode>)
  {
    && record.Some? && Some(record.value.release) == record.value.previous && Rendered in record.value.steps
    && !Committed(record.value) && record.value.release in aside
  }

  /** Recovering from a failure of `release` puts a bundle back before it comes to any secrets. */
  predicate BundleFirst(s: Saved, aside: map<Release, Mode>, release: Release)
  {
    !Open(s) && s.deploying.Some? && s.deploying.value.release == release && BundleGoesBack(s.deploying, aside)
  }

  // -- the services' secrets ------------------------------------------------------------------

  /** Not between a move's two sets of secrets: what services read now is the installation's, or astray. */
  predicate Settled(w: World) { Mismatched(w) ==> Astray(w) }

  lemma StaysSettled(w: World, r: Record)
    requires Settled(w) && (Astray(w) ==> w.env.kept.None?)
    ensures Settled(World(w.saved.(deploying := Some(r)), w.env))
  {
  }

  lemma DrainingOwes(r: Record)
    requires Draining in r.steps
    ensures forall x: Service :: Owes(r, x)
  {
    assert Draining in Stops(r);
  }

  /** A deploy past the beginning of a drain, or past its secrets. */
  predicate MoveBegun(r: Record)
  {
    Draining in r.steps || Drained in r.steps || Dumped in r.steps || Secrets in r.steps
  }

  /** The last step before a move keeps the delivered secrets and changes them. */
  predicate ReadyToSwap(steps: set<Step>, postgres: bool)
  {
    if postgres then Dumped in steps else Drained in steps
  }

  /** `r` is `record` on its way to the secrets step; only a move stops anything before that. */
  predicate UpToSecrets(record: Record, r: Record, moving: bool)
  {
    && r.steps <= record.steps + {Rendered, Pulled, Draining, Drained, Dumped}
    && (Draining in r.steps ==> moving || Draining in record.steps)
    && (Drained in r.steps || Dumped in r.steps ==> Draining in r.steps)
  }

  /** On a host that had no secrets at all, as after a boot while Hot is stopped, its services' were written for
      the installed data services. */
  predicate Supplied(before: SecretTree, services: Option<Delivery>, s: Saved)
  {
    before == NO_SECRETS && s.modes.Some? && services.Some? && services.value.postgres == s.modes.value.postgres
  }

  /** No service's file changed, unless there were no secrets and they were supplied. */
  predicate AsFound(before: SecretTree, after: SecretTree, s: Saved)
  {
    && (after == NO_SECRETS ==> before == NO_SECRETS)
    && (after.services == before.services || Supplied(before, after.services, s))
  }

  /** The services' files are as found, and a copy is beside them exactly if a move was about to change them. */
  predicate SecretsUntouched(before: Env, after: Env, steps: set<Step>, postgres: bool, s: Saved)
  {
    && AsFound(before.secrets, after.secrets, s)
    && (if ReadyToSwap(steps, postgres) then after.kept.Some? && after.kept.value.services == after.secrets.services
        else after.kept == before.kept)
  }

  /** What putting the installed release's secrets back does: kept ones go back, or, where the configuration
      has other data services, its own are delivered, if that works; otherwise they stay. */
  predicate PutBack(before: Env, after: Env, modes: Option<Modes>, configured: Modes, works: bool)
  {
    if before.kept.Some? then after.secrets == before.kept.value && after.kept.None?
    else if modes.Some? && modes.value != configured then
      && after.kept.None?
      && (after.secrets == before.secrets || Redelivered(before, after, modes.value))
      && (works ==> Redelivered(before, after, modes.value))
    else after.secrets == before.secrets && after.kept.None?
  }

  /** The services' files were written since. */
  predicate Freshly(before: Env, after: Env)
  {
    after.secrets.services.Some? && before.clock <= after.secrets.services.value.stamp
  }

  predicate Redelivered(before: Env, after: Env, modes: Modes)
  {
    after.secrets.services == Some(Delivery(modes.postgres, before.clock))
  }

  /** Whether recovering from a failure writes the services' secrets: kept ones go back, or the configuration
      has other data services, and Hot stays stopped over open migrations or the installed release starts whole. */
  predicate Rewrites(s: Saved, v: Env, configured: Modes)
  {
    var others := v.kept.Some? || (s.modes.Some? && s.modes.value != configured);
    && !StorageUnderWay(s) && !DataHasMoved(s)
    && if Open(s) then StaysStopped(s) && others
       else if s.release.None? then false
       else if s.stopped.Present? then v.kept.Some?
       else StartsWhole(s, StopsOf(s.deploying)) && others
  }

  function Rewritten(s: Saved, v: Env): Option<Delivery>
  {
    if v.kept.Some? then v.kept.value.services
    else if s.modes.Some? then Some(Delivery(s.modes.value.postgres, v.clock)) else None
  }

  /** The configuration has PostgreSQL elsewhere than the installation. */
  predicate PostgresMoves(s: Saved, modes: Modes)
  {
    s.release.Some? && s.modes.Some? && s.modes.value.postgres != modes.postgres
  }

  /** `after` is `before` with a first deploy refused before its secrets step: what the attempts so far did
      is as it was, and at most a drain was begun, which nothing open allows. */
  predicate RefusedFrom(before: Saved, after: Saved)
  {
    && after == before.(deploying := after.deploying) && after.deploying.Some?
    && (Open(after) <==> Open(before)) && (DataHasMoved(after) <==> DataHasMoved(before))
    && (StorageUnderWay(after) <==> StorageUnderWay(before))
    && Refusable(after.deploying.value) && (PartlyMigrated(after.deploying.value) <==> Open(before))
    && (Draining in after.deploying.value.steps ==> !Open(before))
  }

  predicate Refusable(r: Record)
  {
    && r.steps <= {Started, Verified, Rendered, Pulled, Draining, Drained, Dumped}
    && (Drained in r.steps || Dumped in r.steps ==> Draining in r.steps)
    && r.cutShort == {} && r.rebooted.Absent?
  }

  lemma FirstIsRefused(s: Saved, release: Release)
    requires Consistent(s) && s.deploying.None?
    requires s.failed.Some? && MovedData(s.failed.value) ==> !Over(s.failed.value)
    requires s.release.Some? && Open(s) ==> PointOf(s).Some?
    ensures var r := WithStep(Begin(release, s.release, Inherit(s.failed, s.deploying)), Started);
            RefusedFrom(s, s.(deploying := Some(r)))
  {
    InheritedSpeaks(s, release);
  }

  lemma StaysRefused(s: Saved, d: Record, r: Record)
    requires s.deploying.None? && RefusedFrom(s, s.(deploying := Some(d))) && Follows(d, r) && Refusable(r)
    requires Draining in r.steps ==> !PartlyMigrated(d)
    ensures RefusedFrom(s, s.(deploying := Some(r)))
  {
  }

  /** A failure between a data move's two sets of secrets is one whose recovery writes them. */
  lemma SwappedIsRewritten(w: World, configured: Modes)
    requires Inv(w) && Swapped(w) && Mismatched(w)
    ensures Rewrites(w.saved, w.env, configured) && Rewritten(w.saved, w.env) == w.env.kept.value.services
  {
    assert Draining in Stops(w.saved.deploying.value);
  }

  /** When recovering from a first deploy refused before its secrets step writes the services' secrets, from
      the state before the deploy and the steps it took: it found secrets kept, or other data services
      configured, and Hot is stopped over open migrations, or a drain begun, or a roll-back's unfinished
      start, makes the installed release start whole. A move that kept the secrets itself puts the same
      ones back. */
  predicate RefusalRewrites(s: Saved, v: Env, steps: set<Step>, configured: Modes)
  {
    var others := v.kept.Some? || (s.modes.Some? && s.modes.value != configured);
    && !StorageUnderWay(s) && !DataHasMoved(s)
    && if Open(s) then s.stopped.Present? && others
       else if s.release.None? || ReadyToSwap(steps, PostgresMoves(s, configured)) then false
       else if s.stopped.Present? then v.kept.Some?
       else (Draining in steps || (s.failed.Some? && RestoreChecked(s.failed.value))) && others
  }

  lemma RefusalMeans(before: Saved, v: Env, after: Saved, v': Env, configured: Modes)
    requires RefusedFrom(before, after) && before.deploying.None?
    requires SecretsUntouched(v, v', after.deploying.value.steps, PostgresMoves(before, configured), before)
    ensures RefusalRewrites(before, v, after.deploying.value.steps, configured) ==>
              Rewrites(after, v', configured) && v'.kept == v.kept
    ensures !RefusalRewrites(before, v, after.deploying.value.steps, configured) && Rewrites(after, v', configured) ==>
              Rewritten(after, v') == v'.secrets.services
  {
    var r := after.deploying.value;
    assert Stops(r) == r.steps * {Draining};
  }

  // -- roll-back ---------------------------------------------------------------------------

  /** Why a roll-back is refused before it changes anything. */
  predicate RollBackRefused(s: Saved)
  {
    || s.release.None? || OpenDeploy(s) || s.failed.None?
    || MovedData(s.failed.value) || StorageProgress(s.failed.value) != NotMoved
    || (PartlyMigrated(s.failed.value)
        && (s.failed.value.pointedBack.Present? || s.failed.value.rolledBack.Present?
            || s.failed.value.restorePoint.None? || !s.failed.value.restorePoint.value.Dump?))
  }

  /** What a failed deploy's migrations did to a local database can always be rolled back, unless data or
      storage moved. */
  lemma RollBackStaysPossible(w: World)
    requires Inv(w) && w.saved.release.Some? && w.saved.modes.value.postgres.Local?
    requires OpenFailed(w.saved) && w.saved.deploying.None? && StorageProgress(w.saved.failed.value) == NotMoved
    ensures !RollBackRefused(w.saved) && PointOf(w.saved).value.path in w.env.backups
    ensures w.env.backups[PointOf(w.saved).value.path].made.Present?
  {
  }

  /** A roll-back is offered for every failure of an installed release that moved neither data nor objects, while no
      deploy with open migrations is under way, if it migrated nothing or its dump is here and it is not over. */
  lemma RollBackIsOffered(s: Saved)
    requires s.release.Some? && s.failed.Some? && !(s.deploying.Some? && PartlyMigrated(s.deploying.value))
    requires !MovedData(s.failed.value) && !ObjectsTouched(s.failed.value)
    requires PartlyMigrated(s.failed.value) ==>
               && s.failed.value.rolledBack.Absent? && s.failed.value.pointedBack.Absent?
               && s.failed.value.restorePoint.Some? && s.failed.value.restorePoint.value.Dump?
    ensures !RollBackRefused(s)
  {
  }

  function WithRollBack(s: Saved, steps: set<RollBackStep>, stopped: Mark): Saved
    requires s.failed.Some?
  {
    s.(failed := Some(s.failed.value.(rollBack := Some(steps))), stopped := stopped)
  }

  lemma RollBackSaveAllowed(w: World, steps: set<RollBackStep>, stopped: Mark)
    requires Inv(w) && !RollBackRefused(w.saved)
    requires HotStopped in steps && Checked !in steps ==>
               stopped.Present? && OpenFailed(w.saved) && forall x: Service :: x !in w.env.running
    requires Checked in steps ==> PartlyMigrated(w.saved.failed.value) && Level(w) <= w.saved.release.value.latest
    requires Checked !in steps ==> !RestoreChecked(w.saved.failed.value)
    requires RestoreUnfinished(w.saved) ==> HotStopped in steps
    requires w.saved.stopping.Present? ==> stopped.Present?
    requires ServicesStand(World(WithRollBack(w.saved, steps, stopped), w.env))
    ensures Allowed(w, Save, World(WithRollBack(w.saved, steps, stopped), w.env))
  {
  }

  /** The state a finished roll-back saves: no stop and no restart is left, and the failure is marked undone. */
  function RolledBack(s: Saved): Saved
    requires s.failed.Some?
  {
    Marked(s, Absent, Absent, {}, Absent).(failed := Some(s.failed.value.(rolledBack := Present, rollBack := None)))
  }

  lemma RolledBackSaveAllowed(w: World)
    requires Inv(w) && !RollBackRefused(w.saved) && !Open(w.saved)
    requires forall x: Service :: x in w.env.running
    ensures Allowed(w, Save, World(RolledBack(w.saved), w.env))
  {
  }

  // -- the loop and the commands --------------------------------------------------------------

  /** A failed attempt that is ended by naming the installed release again: its database is remote and was
      restored there, or its storage move stopped midway. */
  predicate EndsByPointingBack(s: Saved, desired: Option<Release>)
  {
    && s.stopped.Present? && s.failed.Some? && s.failed.value.rolledBack.Absent? && !MovedData(s.failed.value)
    && !(PartlyMigrated(s.failed.value) && s.failed.value.restorePoint.Some? && s.failed.value.restorePoint.value.Dump?)
    && (PartlyMigrated(s.failed.value) || StorageProgress(s.failed.value) != NotMoved)
    && s.release == desired
  }

  function PointedBack(s: Saved): Saved
    requires s.failed.Some?
  {
    s.(failed := Some(s.failed.value.(rolledBack := Present, pointedBack := Present)))
  }

  lemma PointedBackSaveAllowed(w: World, desired: Option<Release>)
    requires Inv(w) && EndsByPointingBack(w.saved, desired) && w.saved.release.Some?
    requires w.saved.deploying.None? && !RestoreUnfinished(w.saved)
    requires PartlyMigrated(w.saved.failed.value) ==> Level(w) <= w.saved.release.value.latest
    ensures Allowed(w, Save, World(PointedBack(w.saved), w.env))
  {
  }

  /** The release pointer names a release whose deploy failed here and was not interrupted since. */
  predicate FailedNamed(s: Saved, desired: Option<Release>)
  {
    s.deploying.None? && s.failed.Some? && Some(s.failed.value.release) == desired
  }

  /** A stopped installation that nothing asks to change: there is no deploy under way, and the release named is
      the failed one, or the installed one on its own configuration. */
  predicate Quiet(s: Saved, digest: nat, desired: Option<Release>)
  {
    && s.stopped.Present? && s.deploying.None?
    && (desired.Some? ==>
          || FailedNamed(s, desired)
          || (desired == s.release && (s.configuration.None? || s.configuration.value == digest)))
  }

  /** Why restarting one service is refused: a stop to finish, a roll-back to wait for, objects between two
      storages, a bundle whose database moved away, or a scheduler that is held. */
  predicate RestartRefused(s: Saved, v: Env, x: Service)
    requires s.release.Some? && s.modes.Some?
  {
    || s.stopping.Present? || RestorePending(s, s.release)
    || (s.deploying.Some? && StorageProgress(s.deploying.value) == Moving)
    || (s.failed.Some? && StorageProgress(s.failed.value) == Moving && s.failed.value.rolledBack.Absent?)
    || (s.release.value in v.bundles && v.bundles[s.release.value].Local? && !s.modes.value.postgres.Local?)
    || (x.Scheduler? && SchedulerHeld(s))
  }

  /** Hot is stopped over migrations that a failed deploy may have left partway, and their dump is on this host. */
  predicate AwaitsRollBack(s: Saved)
  {
    && s.stopped.Present? && s.release.Some? && s.failed.Some?
    && PartlyMigrated(s.failed.value) && s.failed.value.rolledBack.Absent? && !MovedData(s.failed.value)
    && s.failed.value.restorePoint.Some? && s.failed.value.restorePoint.value.Dump?
  }

  /** What the ingress serves is up on the release, and so are the workers. */
  predicate ServesAll(running: map<Service, Instance>, release: Release)
  {
    forall x: Service | x != Scheduler && x != Ingress :: x in running && running[x].release == release
  }

  /** The deploy that was under way is over, as a failure of its release. */
  predicate FailedAs(before: Saved, s: Saved)
  {
    && before.deploying.Some? && s.deploying.None? && s.release == before.release
    && s.failed.Some? && s.failed.value.release == before.deploying.value.release
  }

  /** Every service is up, but for a scheduler that is held. */
  predicate IsUp(s: Saved, v: Env)
  {
    forall x: Service ::
      || x in v.running
      || (x.Scheduler? && (|| (s.deploying.Some? && PartlyMigrated(s.deploying.value))
                           || (s.failed.Some? && PartlyMigrated(s.failed.value) && s.failed.value.rolledBack.Absent?)))
  }

  /** Only a roll-back may come next: one is unfinished, or the database awaits it and the installed release is
      named. */
  predicate OnlyRollBackNext(s: Saved, desired: Option<Release>)
  {
    RestoreUnfinished(s) || (AwaitsRollBack(s) && desired == s.release)
  }

  /** What the release pointer and the configuration ask for is what is installed, or nothing. */
  predicate AsksForNothing(s: Saved, config: Config, desired: Option<Release>, retry: bool)
  {
    || desired.None?
    || (&& desired == s.release
        && (s.configuration.Some? ==> s.configuration.value == config.digest)
        && (config.readdressed.Present? ==> !retry && s.stopped.Present? && s.deploying.None?)
        && (retry ==> config.unmounted.Absent?))
  }

  /** The release named failed here, and waits to be asked for. */
  predicate WaitsToBeAsked(s: Saved, desired: Option<Release>, retry: bool)
  {
    && !retry && s.failed.Some? && Some(s.failed.value.release) == desired
    && !(s.deploying.Some? && Some(s.deploying.value.release) == desired)
  }

  datatype Command = DeployNow | RestartService(service: Service) | DrainAndStop | RollBackNow | BackUp | Inspect

  class Agent {
    var config: Config
    var saved: Saved
    var env: Env
    ghost var run: seq<Transition>

    ghost function Now(): World
      reads this
    {
      World(saved, env)
    }

    ghost predicate Valid()
      reads this
    {
      IsRun(run) && Last(run) == Now() && Inv(Now())
    }

    constructor (config: Config, env: Env)
      requires Blank(env)
      ensures Valid() && this.config == config && saved == BLANK && this.env == env
      ensures run == [At(Genesis, World(BLANK, env))]
    {
      this.config, this.saved, this.env := config, BLANK, env;
      this.run := [At(Genesis, World(BLANK, env))];
    }

    // -- effects -----------------------------------------------------------------------

    method Do(ghost e: Event, s: Saved, v: Env)
      requires Valid() && Allowed(Now(), e, World(s, v))
      modifies `saved, `env, `run
      ensures Valid() && saved == s && env == v
      ensures run == old(run) + [At(e, Now())]
      ensures Starts(run) == Starts(old(run)) + (if e.Start? then 1 else 0)
      ensures Begins(run) == Begins(old(run)) + (if e.SaveBegun? then 1 else 0)
    {
      Extend(run, e, World(s, v));
      ghost var grown := run + [At(e, World(s, v))];
      assert grown[..|grown| - 1] == run;
      run := grown;
      saved, env := s, v;
    }

    /** Where a step ends, if it may fail. */
    method Fate() returns (o: Outcome)
    {
      if * { o := Ok; } else if * { o := Failed; } else { o := Killed; }
    }

    method Survives() returns (o: Outcome)
      ensures !o.Failed?
    {
      if * { o := Ok; } else { o := Killed; }
    }

    method SaveState(s: Saved) returns (o: Outcome)
      requires Valid() && Allowed(Now(), Save, World(s, env))
      modifies `saved, `env, `run
      ensures Valid() && saved == s && env == old(env) && !o.Failed? && GrewQuietly(old(run), run)
    {
      Do(Save, s, env);
      o := Survives();
    }

    method ComposeStop(xs: set<Service>) returns (o: Outcome)
      requires Valid() && forall x | x in xs :: Accounted(Now(), x)
      modifies `saved, `env, `run
      ensures Valid() && saved == old(saved) && GrewQuietly(old(run), run)
      ensures env == old(env).(running := env.running) && env.running.Keys <= old(env.running.Keys)
      ensures forall x | x in env.running :: env.running[x] == old(env.running)[x]
      ensures forall x | x in old(env.running) && x !in xs :: x in env.running
      ensures o.Ok? ==> forall x | x in xs :: x !in env.running
    {
      o := Fate();
      var ys: set<Service> :| ys <= xs && (o.Ok? ==> ys == xs);
      Do(Stop(xs), saved, env.(running := env.running - ys));
    }

    /** What runs once a start of `xs` ended, well or not. */
    method Running(xs: set<Service>, release: Release, works: bool) returns (after: map<Service, Instance>)
      requires works && xs != {} ==> env.secrets.services.Some?
      ensures StartedSome(env, after, xs, release)
      ensures forall x: Service | x !in xs :: x in after <==> x in env.running
      ensures forall x: Service | x !in xs && x in after :: after[x] == env.running[x]
      ensures works ==> forall x | x in xs ::
                x in after && after[x] == Instance(release, env.secrets.services.value.postgres)
    {
      after := env.running;
      if works && xs != {} {
        after := env.running + map x | x in xs :: Instance(release, env.secrets.services.value.postgres);
      } else {
        assert StartedSome(env, env.running, xs, release);
        after :| StartedSome(env, after, xs, release);
      }
    }

    /** Create or recreate services from a bundle, with the secrets there are: none comes up without any. A
        failure can leave each of them down. */
    method ComposeUp(xs: set<Service>, release: Release, rolling: bool) returns (o: Outcome)
      requires Valid() && !RestoreUnfinished(saved) && (Mismatched(Now()) ==> Astray(Now()))
      requires Scheduler in xs && env.secrets.services.Some? && !Mismatched(Now()) ==>
                 env.level.At(env.secrets.services.value.postgres) <= release.latest
      requires rolling || forall x | x in xs :: Accounted(Now(), x)
      modifies `saved, `env, `run
      ensures Valid() && saved == old(saved) && Grew(old(run), run)
      ensures env == old(env).(running := env.running, leftByRollBack := env.leftByRollBack, lastStart := env.lastStart)
      ensures env.leftByRollBack <= old(env.leftByRollBack) + if rolling then Unexplained(old(Now())) else {}
      ensures forall x: Service | x !in xs :: x in env.running <==> x in old(env.running)
      ensures forall x: Service | x !in xs && x in env.running :: env.running[x] == old(env.running)[x]
      ensures o.Ok? && xs != {} ==> env.secrets.services.Some?
      ensures o.Ok? ==> forall x | x in xs ::
                x in env.running && env.running[x] == Instance(release, env.secrets.services.value.postgres)
    {
      o := Fate();
      if o.Ok? && xs != {} && env.secrets.services.None? { o := Failed; }
      var after := Running(xs, release, o.Ok?);
      var lost := set x | x in env.running && !Explained(saved, env.settled, x);
      var left := env.leftByRollBack + if rolling then lost else {};
      Do(Start(xs, release, rolling), saved,
         env.(running := after, leftByRollBack := (set x | x in left && x !in after), lastStart := env.clock));
    }

    /** Where a migration from `level` to `release` ends: it refuses a newer ledger, and may stop partway. */
    method MigratesTo(release: Release, level: nat) returns (o: Outcome, reached: nat)
      ensures level <= reached && (reached != level ==> reached <= release.latest)
      ensures o.Ok? ==> reached == release.latest
    {
      o := Fate();
      reached := level;
      if level > release.latest {
        if o.Ok? { o := Failed; }
      } else {
        reached :| level <= reached <= release.latest && (o.Ok? ==> reached == release.latest);
      }
    }

    /** Migrate the database at `on`, which the job's delivered secrets name. */
    method RunMigrate(release: Release, on: Mode) returns (o: Outcome)
      requires Valid()
      requires saved.deploying.Some? ==> Scheduler !in env.running
      requires env.secrets.jobs.Some? && env.secrets.jobs.value.postgres == on
      requires saved.release.Some? ==> on == saved.modes.value.postgres
      requires saved.release.Some? && !Open(saved) ==> release.latest <= saved.release.value.latest
      modifies `saved, `env, `run
      ensures Valid() && saved == old(saved) && GrewQuietly(old(run), run)
      ensures env == old(env).(level := old(env.level).With(on, env.level.At(on)))
      ensures o.Ok? ==> env.level.At(on) == release.latest
    {
      var reached: nat;
      o, reached := MigratesTo(release, env.level.At(on));
      Do(Migrate(release, on), saved, env.(level := env.level.With(on, reached)));
    }

    /** Grant the runtime role its rights: no part of the host this model sees changes. */
    method RunJob() returns (o: Outcome)
    {
      o := Fate();
    }

    /** Write every secret, for services whose database is `postgres`: all of them, or none. */
    method DeliverSecrets(postgres: Mode) returns (o: Outcome)
      requires Valid() && (saved.release.Some? ==> postgres == saved.modes.value.postgres || Swapped(Now()))
      modifies `saved, `env, `run
      ensures Valid() && saved == old(saved) && GrewQuietly(old(run), run)
      ensures env == old(env).(secrets := env.secrets, clock := env.clock)
      ensures o.Failed? ==> env == old(env)
      ensures !o.Failed? ==> env.secrets.services == Some(Delivery(postgres, old(env.clock)))
      ensures !o.Failed? ==> env.secrets.jobs == env.secrets.services
    {
      o := Fate();
      if !o.Failed? {
        var d := Delivery(postgres, env.clock);
        Do(Deliver(postgres), saved, env.(secrets := SecretTree(Some(d), Some(d)), clock := env.clock + 1));
      }
    }

    /** Deliver to the migration job alone. */
    method DeliverLevelSecrets() returns (o: Outcome)
      requires Valid()
      modifies `saved, `env, `run
      ensures Valid() && saved == old(saved) && GrewQuietly(old(run), run)
      ensures env == old(env).(secrets := old(env.secrets).(jobs := env.secrets.jobs), clock := env.clock)
      ensures env.secrets.jobs.Some? || env.secrets == old(env.secrets)
      ensures !o.Failed? ==> env.secrets.jobs.Some? && env.secrets.jobs.value.postgres == config.modes.postgres
    {
      o := Fate();
      if !o.Failed? {
        var pg := config.modes.postgres;
        Do(DeliverJobs(pg), saved,
           env.(secrets := env.secrets.(jobs := Some(Delivery(pg, env.clock))), clock := env.clock + 1));
      }
    }

    method DropKeptSecrets() returns (o: Outcome)
      requires Valid()
      modifies `saved, `env, `run
      ensures Valid() && saved == old(saved) && GrewQuietly(old(run), run)
      ensures env == old(env).(kept := None) && !o.Failed?
    {
      Do(DropKept, saved, env.(kept := None));
      o := Survives();
    }

    method SettleBoot() returns (o: Outcome)
      requires Valid() && ServicesStand(World(saved, env.(settled := Present)))
      modifies `saved, `env, `run
      ensures Valid() && saved == old(saved) && GrewQuietly(old(run), run)
      ensures env == old(env).(settled := Present) && !o.Failed?
    {
      Do(Settle, saved, env.(settled := Present));
      o := Survives();
    }

    /** Undo a move's delivery: its kept copy goes back, or else the installed data services' secrets are written. */
    method RestoreInstalledSecrets(modes: Option<Modes>) returns (o: Outcome)
      requires Valid() && !DataHasMoved(saved) && (modes.Some? ==> saved.modes == modes)
      modifies `saved, `env, `run
      ensures Valid() && saved == old(saved) && GrewQuietly(old(run), run)
      ensures env == old(env).(secrets := env.secrets, kept := env.kept, clock := env.clock)
      ensures PutBack(old(env), env, modes, config.modes, o.Ok?)
      ensures old(env.kept).None? && (modes.None? || modes == Some(config.modes)) ==> o.Ok? && env == old(env)
    {
      if env.kept.Some? {
        Do(RestoreKept, saved, env.(secrets := env.kept.value, kept := None));
        o := Fate();
      } else if modes.Some? && modes.value != config.modes {
        o := DeliverSecrets(modes.value.postgres);
      } else {
        o := Ok;
      }
    }

    /** Undo the bundle of a redeploy that moved nothing for good. */
    method RestoreInstalledBundle(record: Option<Record>) returns (o: Outcome)
      requires Valid()
      requires record.Some? && !Committed(record.value) ==> !DataHasMoved(saved)
      modifies `saved, `env, `run
      ensures Valid() && saved == old(saved) && GrewQuietly(old(run), run)
      ensures if BundleGoesBack(record, old(env.aside)) then
                var release := record.value.release;
                env == old(env).(bundles := old(env.bundles)[release := old(env.aside)[release]],
                                 aside := old(env.aside) - {release})
              else env == old(env) && o.Ok?
      ensures env != old(env) ==>
                && record.Some? && record.value.previous == Some(record.value.release) && Rendered in record.value.steps
                && !MovedData(record.value) && !ObjectsMoved(record.value)
      ensures record.Some? && record.value.previous == Some(record.value.release) && Rendered in record.value.steps
              && !MovedData(record.value) && !ObjectsMoved(record.value) && record.value.release in old(env.aside) ==>
                var release := record.value.release;
                && release in env.bundles && env.bundles[release] == old(env.aside)[release]
                && release !in env.aside
    {
      o := Ok;
      if BundleGoesBack(record, env.aside) {
        var release := record.value.release;
        Do(PutBundleBack(release), saved,
           env.(bundles := env.bundles[release := env.aside[release]], aside := env.aside - {release}));
        o := Fate();
      }
    }

    /** Make sure of the data services: a host booted while stopped has neither them nor any secrets. */
    method StartInstalledData() returns (o: Outcome)
      requires Valid()
      modifies `saved, `env, `run
      ensures Valid() && saved == old(saved) && GrewQuietly(old(run), run)
      ensures env == old(env).(secrets := env.secrets, clock := env.clock)
      ensures old(env.secrets) != NO_SECRETS ==> env == old(env)
      ensures saved.modes.Some? ==> AsFound(old(env.secrets), env.secrets, saved)
      ensures old(Settled(Now())) ==> Settled(Now())
      ensures o.Ok? ==> env.secrets != NO_SECRETS
      ensures o.Ok? && old(env.secrets) == NO_SECRETS ==>
                env.secrets.services.Some?
                && env.secrets.services.value.postgres == if saved.modes.Some? then saved.modes.value.postgres
                                                          else config.modes.postgres
    {
      var modes := if saved.modes.Some? then saved.modes.value else config.modes;
      if env.secrets == NO_SECRETS {
        :- DeliverSecrets(modes.postgres);
      }
      o := Fate();
    }

    /** Take Hot down, scheduler first and web services last. */
    method StopServices() returns (o: Outcome)
      requires Valid() && forall x: Service :: Explained(saved, env.settled, x)
      modifies `saved, `env, `run
      ensures Valid() && saved == old(saved) && GrewQuietly(old(run), run)
      ensures env == old(env).(running := env.running)
      ensures forall x | x in env.running :: x in old(env.running) && env.running[x] == old(env.running)[x]
      // While the scheduler is up nothing went down, and while a worker is up no web service or ingress did.
      ensures Scheduler in env.running ==> env.running.Keys == old(env.running.Keys)
      ensures Worker in env.running || TaskWorker in env.running ==>
                forall x | x in old(env.running) && (IsWeb(x) || x.Ingress?) :: x in env.running
      ensures o.Ok? ==> Idle(env)
    {
      o := ComposeStop({Scheduler});
      if !o.Ok? { return; }
      :- ComposeStop({Worker, TaskWorker});
      o := ComposeStop({App, Api, Ingress});
      if o.Ok? {
        forall x: Service ensures x !in env.running {
          match x case App => case Api => case Worker => case TaskWorker => case Scheduler => case Ingress =>
        }
      }
    }

    /** Bring up the web services and the workers. */
    method StartServed(release: Release, rolling: bool) returns (o: Outcome)
      requires Valid() && !RestoreUnfinished(saved) && (Mismatched(Now()) ==> Astray(Now()))
      requires rolling || forall x: Service :: Explained(saved, env.settled, x)
      modifies `saved, `env, `run
      ensures Valid() && saved == old(saved) && Grew(old(run), run)
      ensures env == old(env).(running := env.running, leftByRollBack := env.leftByRollBack, lastStart := env.lastStart)
      ensures (forall x: Service :: Explained(saved, env.settled, x)) ==> env.leftByRollBack <= old(env.leftByRollBack)
      ensures forall x | x in {Scheduler, Ingress} :: x in env.running <==> x in old(env.running)
      ensures o.Ok? ==> env.secrets.services.Some?
      ensures o.Ok? ==> forall x: Service | x != Scheduler && x != Ingress ::
                x in env.running && env.running[x] == Instance(release, env.secrets.services.value.postgres)
    {
      o := RunJob();  // the task worker's hotbox
      if o.Ok? { o := ComposeUp({App, Api, Worker, TaskWorker}, release, rolling); }
    }

    /** Bring up everything except the scheduler, the ingress behind the services it serves. */
    method StartBeforeScheduler(release: Release, rolling: bool) returns (o: Outcome)
      requires Valid() && !RestoreUnfinished(saved) && (Mismatched(Now()) ==> Astray(Now()))
      requires rolling || forall x: Service :: Explained(saved, env.settled, x)
      modifies `saved, `env, `run
      ensures Valid() && saved == old(saved) && Grew(old(run), run)
      ensures env == old(env).(running := env.running, leftByRollBack := env.leftByRollBack, lastStart := env.lastStart)
      ensures (forall x: Service :: Explained(saved, env.settled, x)) ==> env.leftByRollBack <= old(env.leftByRollBack)
      ensures Scheduler in env.running <==> Scheduler in old(env.running)
      ensures Ingress in env.running && Ingress !in old(env.running) ==> ServesAll(env.running, release)
      ensures o.Ok? ==> env.secrets.services.Some?
      ensures o.Ok? ==> forall x: Service | x != Scheduler ::
                x in env.running && env.running[x] == Instance(release, env.secrets.services.value.postgres)
    {
      o := StartServed(release, rolling);
      if !o.Ok? { return; }
      :- ComposeUp({Ingress}, release, rolling);
      o := RunJob();  // readiness, and that each stays up
    }

    /** Start the services, the scheduler last. */
    method StartServices(release: Release, scheduler: bool, rolling: bool) returns (o: Outcome)
      requires Valid() && !RestoreUnfinished(saved) && (Mismatched(Now()) ==> Astray(Now()))
      requires scheduler && env.secrets.services.Some? && !Mismatched(Now()) ==>
                 env.level.At(env.secrets.services.value.postgres) <= release.latest
      requires rolling || forall x: Service :: Explained(saved, env.settled, x)
      modifies `saved, `env, `run
      ensures Valid() && saved == old(saved) && Grew(old(run), run)
      ensures env == old(env).(running := env.running, leftByRollBack := env.leftByRollBack, lastStart := env.lastStart)
      ensures (forall x: Service :: Explained(saved, env.settled, x)) ==> env.leftByRollBack <= old(env.leftByRollBack)
      ensures o.Ok? ==> env.secrets.services.Some?
      ensures o.Ok? ==> forall x: Service | x != Scheduler || scheduler ::
                x in env.running && env.running[x] == Instance(release, env.secrets.services.value.postgres)
      ensures Scheduler in env.running && Scheduler !in old(env.running) ==>
                scheduler && forall x: Service | x != Scheduler :: x in env.running && env.running[x].release == release
      ensures Ingress in env.running && Ingress !in old(env.running) ==> ServesAll(env.running, release)
    {
      o := StartBeforeScheduler(release, rolling);
      if !o.Ok? { return; }
      if scheduler {
        :- ComposeUp({Scheduler}, release, rolling);
        :- RunJob();
      }
      o := Ok;
    }

    // -- deploy --------------------------------------------------------------------------

    method SaveRecord(record: Record) returns (o: Outcome)
      requires Valid() && saved.deploying.Some? && Follows(saved.deploying.value, record)
      requires MovesApart(Now(), record)
      modifies `saved, `env, `run
      ensures Valid() && saved == old(saved).(deploying := Some(record)) && env == old(env) && !o.Failed?
      ensures GrewQuietly(old(run), run)
    {
      SaveRecordAllowed(Now(), record);
      o := SaveState(saved.(deploying := Some(record)));
    }

    /** Add a step to the deploy's record and save it. */
    method TakeStep(record: Record, step: Step) returns (o: Outcome, r: Record)
      requires Valid() && saved.deploying.Some? && Follows(saved.deploying.value, record)
      requires step != Migrating && step != DataMoved && MovesApart(Now(), WithStep(record, step))
      modifies `saved, `env, `run
      ensures Valid() && saved == old(saved).(deploying := Some(r)) && env == old(env)
      ensures r == WithStep(record, step) && Follows(record, r) && !o.Failed?
      ensures GrewQuietly(old(run), run)
    {
      r := WithStep(record, step);
      o := SaveRecord(r);
    }

    /** Before a deploy begins: what an interrupted one kept aside goes back, unless it is past that. */
    method PutInterruptedBack() returns (o: Outcome)
      requires Valid()
      modifies `saved, `env, `run
      ensures Valid() && saved == old(saved) && GrewQuietly(old(run), run)
      ensures saved.deploying.None? ==> o.Ok? && env == old(env)
      // Secrets an interrupted deploy kept go back, whatever they name, unless it got past that.
      ensures o.Ok? && saved.deploying.Some? ==>
                env.kept.None?
                && env.secrets == if old(env.kept).Some? && !MovedData(saved.deploying.value)
                                     && !ObjectsMoved(saved.deploying.value)
                                  then old(env.kept).value else old(env.secrets)
    {
      var interrupted := saved.deploying;
      if interrupted.None? { return Ok; }
      :- RestoreInstalledBundle(interrupted);
      if Committed(interrupted.value) {
        o := DropKeptSecrets();
      } else {
        o := RestoreInstalledSecrets(None);
      }
    }

    /** The deploy's first save. */
    method BeginDeploy(release: Release) returns (o: Outcome, record: Record)
      requires Valid() && !RestoreUnfinished(saved)
      modifies `saved, `env, `run
      ensures Valid() && saved == old(saved).(deploying := saved.deploying)
      ensures Starts(run) == Starts(old(run)) && old(run) <= run
      ensures o.Ok? ==> saved.deploying == Some(record) && record.release == release && record.steps == {Started}
      ensures o.Ok? ==>
                record == WithStep(Begin(release, saved.release, Inherit(saved.failed, old(saved.deploying))), Started)
      ensures o.Ok? && record.restorePoint.Some? ==> PartlyMigrated(record)
      ensures o.Failed? ==> saved == old(saved)
      ensures old(saved.deploying).None? ==> !o.Failed? && env == old(env)
      ensures o.Ok? && Mismatched(Now()) ==> Astray(Now())
    {
      record := *;
      :- PutInterruptedBack();
      var carried := CarriedOver(saved.failed, saved.deploying);
      record := WithStep(Begin(release, saved.release, carried), Started);
      FirstSaveAllowed(Now(), release);
      Do(SaveBegun, saved.(deploying := Some(record)), env);
      o := Survives();
    }

    /** Compare the configured modes with the installed ones. A remote PostgreSQL is not moved. */
    method DataMoves() returns (o: Outcome, postgres: bool, valkey: bool)
      requires Valid()
      ensures !o.Killed? && (saved.release.None? ==> !postgres && !valkey)
      ensures o.Ok? && saved.release.Some? ==>
                && (postgres <==> saved.modes.value.postgres != config.modes.postgres)
                && (valkey <==> saved.modes.value.valkey != config.modes.valkey)
                && (postgres ==> saved.modes.value.postgres.Local? && !config.modes.postgres.Local?)
    {
      postgres := saved.release.Some? && saved.modes.value.postgres != config.modes.postgres;
      valkey := saved.release.Some? && saved.modes.value.valkey != config.modes.valkey;
      o := if postgres && !saved.modes.value.postgres.Local? then Failed else Ok;
    }

    /** A second source for the level: the new release's job, or the record of a local database that no attempt
        migrated. */
    method LevelWithoutTheJob(record: Record) returns (o: Outcome, level: Option<nat>)
      requires Valid() && saved.release.Some?
      modifies `saved, `env, `run
      ensures Valid() && saved == old(saved) && GrewQuietly(old(run), run)
      ensures env == old(env).(secrets := old(env.secrets).(jobs := env.secrets.jobs), clock := env.clock)
      ensures env.secrets.jobs.Some? || env.secrets == old(env.secrets)
      ensures o.Ok? ==>
                || level == Some(Level(Now()))
                || (level == saved.migrations && saved.modes == Some(config.modes) && config.modes.postgres.Local?
                    && record.partlyMigrated.None?)
    {
      level := None;
      var inPlace := saved.modes == Some(config.modes);
      if inPlace {
        o := DeliverLevelSecrets();
        if o.Ok? { o := RunJob(); }
        if o.Ok? { level := Some(env.level.At(saved.modes.value.postgres)); }
        if !o.Failed? { return; }
        if * { return; }  // refused by something other than the job
      }
      o := Failed;
      if inPlace && config.modes.postgres.Local? && record.partlyMigrated.None? {
        o, level := Ok, saved.migrations;
      }
    }

    /** The installed release can say its database's level. */
    predicate HasStatusJob()
      reads this
    {
      config.statusJob.Present? && config.statusKnown.Present?
    }

    /** The installed release's job reads the ledger, once its data services and its secrets are there. */
    method LevelByTheJob() returns (o: Outcome, level: Option<nat>)
      requires Valid() && saved.release.Some?
      modifies `saved, `env, `run
      ensures Valid() && saved == old(saved) && GrewQuietly(old(run), run)
      ensures env == old(env).(secrets := env.secrets, clock := env.clock)
      ensures AsFound(old(env.secrets), env.secrets, saved)
      ensures old(Settled(Now())) ==> Settled(Now())
      ensures level == if o.Ok? then Some(Level(Now())) else saved.migrations
      // With the data services in place, the job's files name the database whose level that is.
      ensures o.Ok? && saved.modes == Some(config.modes) ==>
                env.secrets.jobs.Some? && env.secrets.jobs.value.postgres == saved.modes.value.postgres
    {
      level := saved.migrations;
      o := StartInstalledData();
      if o.Ok? && saved.modes == Some(config.modes) { o := DeliverLevelSecrets(); }
      if o.Ok? { o := RunJob(); }
      if o.Ok? && config.statusKnown.Absent? { o := Failed; }
      if o.Ok? { level := Some(env.level.At(saved.modes.value.postgres)); }
    }

    /** What level the database is at, by its ledger or, failing that, by the record. */
    method DatabaseLevel(record: Record) returns (o: Outcome, level: Option<nat>)
      requires Valid()
      modifies `saved, `env, `run
      ensures Valid() && saved == old(saved) && GrewQuietly(old(run), run)
      ensures env == old(env).(secrets := env.secrets, clock := env.clock)
      ensures AsFound(old(env.secrets), env.secrets, saved)
      ensures old(Settled(Now())) ==> Settled(Now())
      ensures o.Ok? ==> (level.None? <==> saved.release.None?)
      ensures o.Ok? && level.Some? ==> level.value == Level(Now()) || level == saved.migrations
      // Where a job can say, the record counts only for a local database that no attempt migrated.
      ensures o.Ok? && saved.release.Some? && record.dataMoved.Absent? && HasStatusJob() ==>
                || level == Some(Level(Now()))
                || (level == saved.migrations && saved.modes == Some(config.modes) && config.modes.postgres.Local?
                    && record.partlyMigrated.None?)
      ensures o.Ok? && level == Some(0) ==> saved.migrations == Some(0)
      ensures record.dataMoved.Present? ==> level == saved.migrations && env == old(env)
    {
      level := saved.migrations;
      if saved.release.None? || record.dataMoved.Present? { return Ok, level; }
      if config.statusJob.Absent? { return Ok, level; }
      o, level := LevelByTheJob();
      if o.Killed? { return; }
      if o.Failed? {
        if * { return; }             // not the job's doing
        if config.statusKnown.Absent? { return Ok, level; }
        level :- LevelWithoutTheJob(record);
      }
      o := if saved.migrations != Some(0) && level == Some(0) then Failed else Ok;
    }

    /** Dump the local database, through the bundle that runs it. */
    method DumpPostgres(kind: BackupKind) returns (o: Outcome, path: nat)
      requires Valid()
      modifies `saved, `env, `run
      ensures Valid() && saved == old(saved) && GrewQuietly(old(run), run)
      ensures path == old(env.clock)
      ensures o.Failed? ==> env == old(env)
      ensures env == old(env).(backups := env.backups, clock := env.clock)
      ensures o.Ok? ==> env.backups == old(env.backups)[path := DumpOf(old(env), kind)] && env.clock == path + 1
    {
      path := env.clock;
      o := Fate();
      var begun, made := o.Ok?, Present;
      if o.Killed? { begun, made := *, *; }  // perhaps with only its directory there
      if begun {
        var dump := DumpOf(env, kind).(made := made);
        assert made.Present? ==> dump == DumpOf(env, kind);
        Do(TakeDump(path, kind), saved, env.(backups := env.backups[path := dump], clock := path + 1));
      }
    }

    /** The dumps a pruning gets to remove. */
    method Outdated(kind: BackupKind) returns (o: Outcome, gone: set<nat>)
      ensures gone !! Pruned(env.backups, kind).Keys
      ensures o.Ok? ==> env.backups.Keys - gone == Pruned(env.backups, kind).Keys
    {
      o := Fate();
      var rest := env.backups.Keys - Pruned(env.backups, kind).Keys;
      gone :| gone <= rest && (o.Ok? ==> gone == rest);
    }

    /** Keep the newest dumps of a kind: the others are removed one by one. */
    method PruneDumps(kind: BackupKind) returns (o: Outcome)
      requires Valid() && !Open(saved)
      modifies `saved, `env, `run
      ensures Valid() && saved == old(saved) && GrewQuietly(old(run), run)
      ensures env == old(env).(backups := env.backups)
      ensures forall p | p in env.backups :: p in old(env.backups) && env.backups[p] == old(env.backups)[p]
      ensures forall p | p in old(env.backups) ::
                old(env.backups)[p].kind != kind || |Newer(old(env.backups), kind, p)| < 3 ==> p in env.backups
      ensures o.Ok? ==> forall p | p in old(env.backups) ::
                p in env.backups <==> old(env.backups)[p].kind != kind || |Newer(old(env.backups), kind, p)| < 3
    {
      var gone: set<nat>;
      o, gone := Outdated(kind);
      Do(Prune(kind), saved, env.(backups := env.backups - gone));
    }

    /** A dump and the pruning after it: the newest dump is never the one pruned. */
    method DumpAndPrune(kind: BackupKind) returns (o: Outcome, path: nat)
      requires Valid() && !Open(saved)
      modifies `saved, `env, `run
      ensures Valid() && saved == old(saved) && GrewQuietly(old(run), run)
      ensures env == old(env).(backups := env.backups, clock := env.clock)
      ensures o.Ok? ==> path in env.backups && env.backups[path].made.Present?
                        && env.backups[path].level == env.level.local
      ensures o.Ok? && Idle(env) ==> Complete(env, path)
    {
      path :- DumpPostgres(kind);
      assert Newer(env.backups, kind, path) == {};
      o := PruneDumps(kind);
    }

    /** Bring up whichever workers are down, and wait for an empty queue. */
    method FinishQueue() returns (o: Outcome)
      requires Valid() && saved.release.Some? && saved.deploying.Some? && (Mismatched(Now()) ==> Astray(Now()))
      requires forall x: Service :: Owes(saved.deploying.value, x)
      modifies `saved, `env, `run
      ensures old(run) <= run
      ensures Valid() && saved == old(saved)
      ensures env == old(env).(running := env.running, leftByRollBack := env.leftByRollBack, lastStart := env.lastStart)
      ensures forall x: Service | x != Worker && x != TaskWorker :: x in env.running <==> x in old(env.running)
    {
      var down := set x | x in {Worker, TaskWorker} && x !in env.running;
      :- RunJob();  // the task worker's hotbox
      :- ComposeUp(down, saved.release.value, false);
      o := RunJob();  // until the queue is empty
    }

    /** Take Hot down for a move: what admits work first, the workers last, with the queue emptied if it moves. */
    method Drain(queue: bool) returns (o: Outcome)
      requires Valid() && saved.release.Some? && saved.deploying.Some?
      requires forall x: Service :: Owes(saved.deploying.value, x)
      requires queue && Mismatched(Now()) ==> Astray(Now())
      modifies `saved, `env, `run
      ensures old(run) <= run
      ensures Valid() && saved == old(saved) && (o.Ok? ==> Idle(env))
      ensures env == old(env).(running := env.running, leftByRollBack := env.leftByRollBack, lastStart := env.lastStart)
      // What admits work goes down before the workers that finish it.
      ensures Scheduler in env.running ==> forall x | x in old(env.running) :: x in env.running
      ensures App in env.running || Api in env.running || Ingress in env.running ==>
                forall x | x in {Worker, TaskWorker} && x in old(env.running) :: x in env.running
    {
      o := ComposeStop({Scheduler});
      if !o.Ok? { return; }
      :- ComposeStop({App, Api, Ingress});
      if queue {
        :- FinishQueue();
      }
      assert Scheduler !in env.running && App !in env.running && Api !in env.running && Ingress !in env.running;
      o := ComposeStop({Worker, TaskWorker});
      if o.Ok? {
        forall x: Service ensures x !in env.running {
          match x case App => case Api => case Worker => case TaskWorker => case Scheduler => case Ingress =>
        }
      }
    }

    /** Move one role's objects, keeping in the record where the move says what it did. */
    method MoveRole(record: Record, role: StorageRole) returns (o: Outcome, r: Record)
      requires Valid() && saved.deploying == Some(record)
      modifies `saved, `env, `run
      ensures old(run) <= run
      ensures Valid() && saved == old(saved).(deploying := Some(r)) && env == old(env)
      ensures Follows(record, r) && r.steps == record.steps && r.restorePoint == record.restorePoint
      ensures r.storageManifests.Keys == record.storageManifests.Keys + {role}
    {
      var manifest: nat := *;
      r := record.(storageManifests := record.storageManifests[role := manifest]);
      :- SaveRecord(r);
      o := RunJob();
      if o.Failed? {
        // What did not move, and what a setting left behind.
        var report: Option<FailedObjects>, left: map<StorageRole, nat> := *, *;
        r := r.(storageFailed := report, storageLeftBehind := left);
        :- SaveRecord(r);
        o := Failed;
      }
    }

    method MoveObjects(record: Record, roles: set<StorageRole>) returns (o: Outcome, r: Record)
      requires Valid() && saved.deploying == Some(record)
      modifies `saved, `env, `run
      ensures old(run) <= run
      ensures Valid() && saved == old(saved).(deploying := Some(r)) && env == old(env)
      ensures Follows(record, r) && r.steps == record.steps && r.restorePoint == record.restorePoint
      ensures o.Ok? ==> r.storageManifests.Keys == record.storageManifests.Keys + roles
    {
      r := record;
      var todo := roles;
      while todo != {}
        invariant Valid() && saved == old(saved).(deploying := Some(r)) && env == old(env) && old(run) <= run
        invariant Follows(record, r) && r.steps == record.steps && r.restorePoint == record.restorePoint
        invariant todo <= roles && r.storageManifests.Keys == record.storageManifests.Keys + (roles - todo)
      {
        var role :| role in todo;
        todo := todo - {role};
        r :- MoveRole(r, role);
      }
      o := Ok;
    }

    /** Before a storage move stops anything: what it needs is there, delivered and writable. */
    method PrepareStorageMove() returns (o: Outcome)
      requires Valid() && saved.release.Some? && config.modes.postgres == saved.modes.value.postgres
      modifies `saved, `env, `run
      ensures old(run) <= run
      ensures Valid() && saved == old(saved)
      ensures env == old(env).(secrets := env.secrets, clock := env.clock)
      ensures o.Ok? ==> !Mismatched(Now()) && Freshly(old(env), env)
    {
      o := RunJob();  // skip files, and the grant on the bucket
      if !o.Ok? { return; }
      :- StartInstalledData();
      Runs.ClockGoesOn(run, |old(run)| - 1, |run| - 1);
      o := DeliverSecrets(config.modes.postgres);
    }

    /** Say that objects move, and stop Hot for that. */
    method BeginStorageMove(record: Record) returns (o: Outcome, r: Record)
      requires Valid() && saved.deploying == Some(record) && saved.release.Some? && !Mismatched(Now())
      modifies `saved, `env, `run
      ensures old(run) <= run
      ensures Valid() && saved == old(saved).(deploying := Some(r))
      ensures env == old(env).(running := env.running, leftByRollBack := env.leftByRollBack, lastStart := env.lastStart)
      ensures r == WithStep(record, StorageMoving) && Follows(record, r) && (o.Ok? ==> Idle(env))
    {
      o, r := TakeStep(record, StorageMoving);
      if o.Ok? { o := Drain(false); }
    }

    /** Stop Hot and move each role's objects to the new storage. */
    method MoveStorage(record: Record, roles: set<StorageRole>) returns (o: Outcome, r: Record)
      requires Valid() && saved.deploying == Some(record) && saved.release.Some? && !Mismatched(Now())
      modifies `saved, `env, `run
      ensures old(run) <= run
      ensures Valid() && saved == old(saved).(deploying := Some(r))
      ensures env == old(env).(running := env.running, leftByRollBack := env.leftByRollBack, lastStart := env.lastStart)
      ensures Follows(record, r) && r.restorePoint == record.restorePoint
      ensures r.steps <= record.steps + {StorageMoving, StorageMoved}
      ensures o.Ok? ==> StorageMoved in r.steps && roles <= r.storageManifests.Keys && Idle(env)
    {
      o, r := BeginStorageMove(record);
      if !o.Ok? { return; }
      r :- MoveObjects(r, roles);
      var counted: map<StorageRole, nat> := *;
      r := r.(storageFailed := None, storageLeftBehind := counted);
      o, r := TakeStep(r, StorageMoved);
    }

    /** The new bundle in place, a running release's own beside it. */
    method PlaceBundle(release: Release) returns (o: Outcome)
      requires Valid() && (DataHasMoved(saved) ==> !config.modes.postgres.Local?)
      modifies `saved, `env, `run
      ensures old(run) <= run
      ensures Valid() && saved == old(saved)
      ensures env == old(env).(bundles := old(env.bundles)[release := config.modes.postgres], aside := env.aside)
      ensures Some(release) == saved.release && release in old(env.bundles) ==>
                release in env.aside && env.aside[release] == old(env.bundles)[release]
    {
      var aside := if Some(release) == saved.release && release in env.bundles
                   then env.aside[release := env.bundles[release]] else env.aside;
      Do(InstallBundle(release, config.modes.postgres), saved,
         env.(bundles := env.bundles[release := config.modes.postgres], aside := aside));
      o := Fate();
    }

    /** Put the new bundle in place, on record. */
    method RenderRelease(record: Record) returns (o: Outcome, r: Record)
      requires Valid() && saved.deploying == Some(record) && (DataHasMoved(saved) ==> !config.modes.postgres.Local?)
      modifies `saved, `env, `run
      ensures old(run) <= run
      ensures Valid() && saved == old(saved).(deploying := Some(r))
      ensures env == old(env).(bundles := env.bundles, aside := env.aside)
      ensures Follows(record, r) && r.restorePoint == record.restorePoint && r.steps <= record.steps + {Rendered}
    {
      r := record;
      o := PlaceBundle(record.release);
      if o.Ok? { o, r := TakeStep(r, Rendered); }
    }

    /** Bring the release onto the host: its bundle, and its images. */
    method InstallRelease(record: Record) returns (o: Outcome, r: Record)
      requires Valid() && saved.deploying == Some(record) && (DataHasMoved(saved) ==> !config.modes.postgres.Local?)
      modifies `saved, `env, `run
      ensures old(run) <= run
      ensures Valid() && saved == old(saved).(deploying := Some(r))
      ensures env == old(env).(bundles := env.bundles, aside := env.aside)
      ensures Follows(record, r) && r.restorePoint == record.restorePoint
      ensures r.steps <= record.steps + {Rendered, Pulled}
    {
      o, r := RenderRelease(record);
      if !o.Ok? { return; }
      :- RunJob();
      r :- TakeStep(r, Pulled);
      o := RunJob();  // a spare copy of its hotbox
    }

    /** Take Hot down on the installed data services. */
    method DrainInstalled(queue: bool) returns (o: Outcome)
      requires Valid() && saved.release.Some? && saved.deploying.Some? && Settled(Now())
      requires forall x: Service :: Owes(saved.deploying.value, x)
      modifies `saved, `env, `run
      ensures old(run) <= run
      ensures Valid() && saved == old(saved) && Settled(Now())
      ensures env == old(env).(running := env.running, leftByRollBack := env.leftByRollBack, lastStart := env.lastStart,
                               secrets := env.secrets, clock := env.clock)
      ensures AsFound(old(env.secrets), env.secrets, saved)
      ensures o.Ok? ==> Idle(env) && env.secrets != NO_SECRETS
    {
      o := StartInstalledData();
      if o.Ok? { o := Drain(queue); }
    }

    /** Say that all of Hot stops, and stop it. */
    method BeginDrain(record: Record, queue: bool) returns (o: Outcome, r: Record)
      requires Valid() && saved.deploying == Some(record) && saved.release.Some? && Settled(Now())
      modifies `saved, `env, `run
      ensures old(run) <= run
      ensures Valid() && saved == old(saved).(deploying := Some(r)) && Settled(Now())
      ensures env == old(env).(running := env.running, leftByRollBack := env.leftByRollBack, lastStart := env.lastStart,
                               secrets := env.secrets, clock := env.clock)
      ensures AsFound(old(env.secrets), env.secrets, saved)
      ensures r == WithStep(record, Draining) && Follows(record, r)
      ensures o.Ok? ==> Idle(env) && env.secrets != NO_SECRETS
    {
      StaysSettled(Now(), WithStep(record, Draining));
      o, r := TakeStep(record, Draining);
      if !o.Ok? { return; }
      DrainingOwes(r);
      o := DrainInstalled(queue);
    }

    /** Stop all of Hot for a data move. The record says so first. */
    method StopForMove(record: Record, valkey: bool) returns (o: Outcome, r: Record)
      requires Valid() && saved.deploying == Some(record) && saved.release.Some?
      requires Settled(Now())
      modifies `saved, `env, `run
      ensures old(run) <= run
      ensures Valid() && saved == old(saved).(deploying := Some(r)) && Settled(Now())
      ensures env == old(env).(running := env.running, leftByRollBack := env.leftByRollBack, lastStart := env.lastStart,
                               secrets := env.secrets, clock := env.clock)
      ensures AsFound(old(env.secrets), env.secrets, saved)
      ensures Follows(record, r) && r.restorePoint == record.restorePoint && Draining in r.steps
      ensures r.steps <= record.steps + {Draining, Drained} && (o.Failed? ==> r.steps <= record.steps + {Draining})
      ensures o.Ok? ==> Idle(env) && env.secrets != NO_SECRETS && Drained in r.steps
    {
      o, r := BeginDrain(record, valkey);
      if !o.Ok? { return; }
      StaysSettled(Now(), WithStep(r, Drained));
      o, r := TakeStep(r, Drained);
    }

    /** Stop all of Hot for a data move, and dump the database if it is what moves. */
    method DrainForMove(record: Record, postgres: bool, valkey: bool) returns (o: Outcome, r: Record)
      requires Valid() && saved.deploying == Some(record) && saved.release.Some? && !PartlyMigrated(record)
      requires Settled(Now()) && !MoveBegun(record)
      modifies `saved, `env, `run
      ensures old(run) <= run
      ensures Valid() && saved == old(saved).(deploying := Some(r)) && Settled(Now())
      ensures env == old(env).(running := env.running, leftByRollBack := env.leftByRollBack, lastStart := env.lastStart,
                               secrets := env.secrets, clock := env.clock, backups := env.backups)
      ensures AsFound(old(env.secrets), env.secrets, saved)
      ensures Follows(record, r) && Draining in r.steps && r.steps <= record.steps + {Draining, Drained, Dumped}
      ensures o.Ok? ==> Idle(env) && env.secrets != NO_SECRETS && (postgres ==> Copied(env, r))
      ensures o.Ok? ==> ReadyToSwap(r.steps, postgres)
      ensures o.Failed? ==> !ReadyToSwap(r.steps, postgres)
      ensures !postgres ==> r.restorePoint == record.restorePoint
    {
      o, r := StopForMove(record, valkey);
      if o.Ok? && postgres {
        o, r := DumpForMove(r);
      }
    }

    method DumpForMove(record: Record) returns (o: Outcome, r: Record)
      requires Valid() && saved.deploying == Some(record) && !PartlyMigrated(record) && Idle(env)
      modifies `saved, `env, `run
      ensures old(run) <= run
      ensures Valid() && saved == old(saved).(deploying := Some(r))
      ensures env == old(env).(clock := env.clock, backups := env.backups)
      ensures Follows(record, r) && r.steps <= record.steps + {Dumped} && (o.Failed? ==> r == record)
      ensures o.Ok? ==> Copied(env, r) && Dumped in r.steps
    {
      r := record;
      var path :- DumpAndPrune(DataMove);
      o, r := TakeStep(r.(restorePoint := Some(Dump(path))), Dumped);
    }

    method KeepDeliveredSecrets() returns (o: Outcome)
      requires Valid() && saved.deploying.Some? && saved.release.Some? && Settled(Now()) && env.secrets != NO_SECRETS
      requires DrainBegun(saved.deploying.value) && StorageProgress(saved.deploying.value) == NotMoved
      modifies `saved, `env, `run
      ensures old(run) <= run
      ensures Valid() && saved == old(saved) && env == old(env).(kept := Some(env.secrets)) && !o.Failed?
    {
      Do(KeepSecrets, saved, env.(kept := Some(env.secrets)));
      o := Survives();
    }

    /** What a data move does before any secret changes: drain, dump, and keep the delivered ones. */
    method DrainAndKeep(record: Record, postgres: bool, valkey: bool) returns (o: Outcome, r: Record)
      requires Valid() && saved.deploying == Some(record) && saved.release.Some? && !PartlyMigrated(record)
      requires Settled(Now()) && !MoveBegun(record) && StorageProgress(record) == NotMoved
      modifies `saved, `env, `run
      ensures old(run) <= run
      ensures Valid() && saved == old(saved).(deploying := Some(r))
      ensures env == old(env).(running := env.running, leftByRollBack := env.leftByRollBack, lastStart := env.lastStart,
                               secrets := env.secrets, clock := env.clock, backups := env.backups, kept := env.kept)
      ensures AsFound(old(env.secrets), env.secrets, saved)
      ensures Follows(record, r) && Draining in r.steps && r.steps <= record.steps + {Draining, Drained, Dumped}
      ensures o.Ok? ==> env.kept == Some(env.secrets) && ReadyToSwap(r.steps, postgres) && (postgres ==> Copied(env, r))
      ensures StorageProgress(r) == NotMoved
      ensures o.Failed? ==> env.kept == old(env.kept) && !ReadyToSwap(r.steps, postgres)
      ensures !postgres ==> r.restorePoint == record.restorePoint
    {
      o, r := DrainForMove(record, postgres, valkey);
      if !o.Ok? { return; }
      o := KeepDeliveredSecrets();
    }

    /** Deliver the configured data services' secrets, on record. */
    method SwapSecrets(record: Record) returns (o: Outcome, r: Record)
      requires Valid() && saved.deploying == Some(record)
      requires saved.release.Some? ==> config.modes.postgres == saved.modes.value.postgres || Swapped(Now())
      modifies `saved, `env, `run
      ensures old(run) <= run
      ensures Valid() && saved == old(saved).(deploying := Some(r))
      ensures env == old(env).(secrets := env.secrets, clock := env.clock)
      ensures Follows(record, r) && r.restorePoint == record.restorePoint && r.steps <= record.steps + {Secrets}
      ensures o.Failed? ==> r == record && env == old(env)
      ensures o.Ok? ==> Secrets in r.steps && env.secrets.jobs == env.secrets.services
                        && env.secrets.services.Some? && env.secrets.services.value.postgres == config.modes.postgres
    {
      r := record;
      o := DeliverSecrets(config.modes.postgres);
      if o.Ok? { o, r := TakeStep(r, Secrets); }
    }

    /** Deliver the new secrets: at once, or, when a data service moves, only once Hot is drained and dumped. */
    method ChangeSecrets(record: Record, postgres: bool, valkey: bool) returns (o: Outcome, r: Record)
      requires Valid() && saved.deploying == Some(record) && Settled(Now()) && !MoveBegun(record)
      requires postgres || valkey ==>
                 saved.release.Some? && !PartlyMigrated(record) && StorageProgress(record) == NotMoved
      requires postgres ==> saved.modes.value.postgres.Local?
      requires !postgres && saved.release.Some? ==> saved.modes.value.postgres == config.modes.postgres
      modifies `saved, `env, `run
      ensures old(run) <= run
      ensures Valid() && saved == old(saved).(deploying := Some(r))
      ensures env == old(env).(running := env.running, leftByRollBack := env.leftByRollBack, lastStart := env.lastStart,
                               secrets := env.secrets, clock := env.clock, backups := env.backups, kept := env.kept)
      ensures Follows(record, r) && (o.Ok? ==> Secrets in r.steps)
      ensures r.steps <= record.steps + {Draining, Drained, Dumped, Secrets}
      ensures Drained in r.steps || Dumped in r.steps ==> Draining in r.steps
      ensures !postgres && !valkey ==> env.kept == old(env.kept) && Draining !in r.steps
      ensures o.Failed? ==> SecretsUntouched(old(env), env, r.steps, postgres, saved)
      ensures o.Ok? ==> env.secrets.services.Some? && env.secrets.services.value.postgres == config.modes.postgres
      ensures o.Ok? ==> env.secrets.jobs == env.secrets.services
      ensures o.Ok? && postgres ==> Copied(env, r)
      ensures !postgres ==> r.restorePoint == record.restorePoint
    {
      r := record;
      if postgres || valkey {
        o, r := DrainAndKeep(record, postgres, valkey);
        if !o.Ok? { return; }
      }
      o, r := SwapSecrets(r);
    }

    /** Say that the scheduler stops, and stop it. */
    method BeginSchedulerStop(record: Record) returns (o: Outcome, r: Record)
      requires Valid() && saved.deploying == Some(record)
      modifies `saved, `env, `run
      ensures old(run) <= run
      ensures Valid() && saved == old(saved).(deploying := Some(r))
      ensures env == old(env).(running := env.running) && (Idle(old(env)) ==> Idle(env))
      ensures r == WithStep(record, SchedulerStopping) && Follows(record, r)
      ensures o.Ok? ==> Scheduler !in env.running
    {
      o, r := TakeStep(record, SchedulerStopping);
      if !o.Ok? { return; }
      assert SchedulerStopped in Stops(r);
      o := ComposeStop({Scheduler});
    }

    /** Stop the scheduler, on record before and after: a kill may fall inside the stop. */
    method StopOldScheduler(record: Record) returns (o: Outcome, r: Record)
      requires Valid() && saved.deploying == Some(record)
      modifies `saved, `env, `run
      ensures old(run) <= run
      ensures Valid() && saved == old(saved).(deploying := Some(r))
      ensures env == old(env).(running := env.running) && (Idle(old(env)) ==> Idle(env))
      ensures Follows(record, r) && r.restorePoint == record.restorePoint
      ensures o.Ok? ==> Scheduler !in env.running
    {
      o, r := BeginSchedulerStop(record);
      if o.Ok? { o, r := TakeStep(r, SchedulerStopped); }
    }

    /** Fill the new database from the dump. */
    method RestoreMovedDatabase(path: nat) returns (o: Outcome)
      requires Valid() && saved.release.Some? && saved.modes.value.postgres.Local? && !config.modes.postgres.Local?
      requires path in env.backups && Idle(env)
      modifies `saved, `env, `run
      ensures old(run) <= run
      ensures Valid() && saved == old(saved)
      ensures env == old(env).(level := old(env.level).With(config.modes.postgres, env.level.At(config.modes.postgres)))
      ensures o.Ok? ==> env.level.At(config.modes.postgres) == env.backups[path].level
    {
      var to := config.modes.postgres;
      o := Fate();
      var level: nat := *;
      if o.Ok? { level := env.backups[path].level; }
      Do(MoveDatabase(to), saved, env.(level := env.level.With(to, level)));
    }

    /** The data moves: from the step it saves, a failure is fixed forward. */
    method MoveData(record: Record) returns (o: Outcome, r: Record)
      requires Valid() && saved.deploying == Some(record) && !PartlyMigrated(record)
      requires saved.release.Some? && saved.modes.value.postgres.Local? && !config.modes.postgres.Local?
      requires Copied(env, record)
      requires env.secrets.services.Some? ==> env.secrets.services.value.postgres == config.modes.postgres
      modifies `saved, `env, `run
      ensures old(run) <= run
      ensures Valid() && saved == old(saved).(modes := saved.modes, deploying := Some(r))
      ensures env == old(env).(level := old(env.level).With(config.modes.postgres, env.level.At(config.modes.postgres)))
      ensures !o.Ok? ==> r == record || r == WithStep(record, DataMoved)
      ensures o.Ok? ==> r == WithStep(record, DataMoved) && saved.modes == Some(config.modes)
      ensures o.Ok? ==> env.level.At(config.modes.postgres) == env.level.local
    {
      r := record;
      :- RestoreMovedDatabase(record.restorePoint.value.path);
      MoveSaveAllowed(Now(), config.modes);
      r := WithStep(record, DataMoved);
      Do(SaveMoved, saved.(modes := Some(config.modes), deploying := Some(r)), env);
      o := Survives();
    }

    /** A way back from migrations about to run: by the mode, a dump here or a note for whoever runs the database. */
    method TakeRestorePoint() returns (o: Outcome, point: Point)
      requires Valid() && saved.release.Some? && !Open(saved)
      modifies `saved, `env, `run
      ensures old(run) <= run
      ensures Valid() && saved == old(saved)
      ensures env == old(env).(backups := env.backups, clock := env.clock)
      ensures o.Ok? ==> (point.Dump? <==> config.modes.postgres.Local?)
                        && (point.PointInTime? <==> config.modes.postgres.Managed?)
                        && (point.OperatorBackup? <==> config.modes.postgres.Existing?)
      ensures o.Ok? && point.Dump? ==>
                point.path in env.backups && env.backups[point.path].made.Present?
                && env.backups[point.path].level == env.level.local
    {
      point := PointInTime;
      match config.modes.postgres
      case Local =>
        var path :- DumpAndPrune(PreUpgrade);
        o, point := Ok, Dump(path);
      case Managed => o := Ok;
      case Existing => o, point := Ok, OperatorBackup;
    }

    /** Before a schema changes: a restore point, unless attempts before this one left theirs. */
    method SecureRestorePoint(record: Record) returns (o: Outcome, r: Record)
      requires Valid() && saved.deploying == Some(record) && saved.release.Some?
      requires saved.modes.value.postgres == config.modes.postgres
      requires !PartlyMigrated(record) && record.restorePoint.Some? ==> PointReady(Now(), record)
      modifies `saved, `env, `run
      ensures old(run) <= run
      ensures Valid() && saved == old(saved).(deploying := Some(r))
      ensures env == old(env).(backups := env.backups, clock := env.clock)
      ensures Follows(record, r)
      ensures record.restorePoint.Some? ==> r.restorePoint == record.restorePoint && env == old(env)
      ensures o.Ok? ==> RestorePoint in r.steps && r.restorePoint.Some?
      ensures o.Ok? && !PartlyMigrated(r) ==> PointReady(Now(), r)
    {
      r := record;
      if record.restorePoint.None? {
        var point: Point;
        point :- TakeRestorePoint();
        r := r.(restorePoint := Some(point));
      }
      o, r := TakeStep(r, RestorePoint);
    }

    method BeginMigrating(record: Record) returns (o: Outcome, r: Record)
      requires Valid() && saved.deploying == Some(record)
      requires saved.release.Some? && !PartlyMigrated(record) ==> PointReady(Now(), record)
      modifies `saved, `env, `run
      ensures old(run) <= run
      ensures Valid() && saved == old(saved).(deploying := Some(r)) && env == old(env) && !o.Failed?
      ensures r == WithStep(record, Migrating)
    {
      r := WithStep(record, Migrating);
      MigratingSaveAllowed(Now(), record);
      o := SaveState(saved.(deploying := Some(r)));
    }

    /** Start the data services where the configuration has them, moving the database there first if it moved. */
    method ReadyData(record: Record, postgres: bool) returns (o: Outcome, r: Record)
      requires Valid() && saved.deploying == Some(record)
      requires postgres ==> saved.release.Some? && saved.modes.value.postgres.Local? && !config.modes.postgres.Local?
                            && !PartlyMigrated(record) && Copied(env, record)
      requires env.secrets.services.Some? && env.secrets.services.value.postgres == config.modes.postgres
      requires !postgres && saved.release.Some? ==> saved.modes.value.postgres == config.modes.postgres
      modifies `saved, `env, `run
      ensures old(run) <= run
      ensures Valid() && saved == old(saved).(modes := saved.modes, deploying := Some(r))
      ensures env == old(env).(level := env.level) && (!postgres ==> env == old(env))
      ensures record.steps <= r.steps && r.partlyMigrated == record.partlyMigrated && r.release == record.release
      ensures PartlyMigrated(r) == PartlyMigrated(record) && (Migrating in r.steps ==> Migrating in record.steps)
      ensures r.restorePoint == record.restorePoint
      ensures o.Ok? && saved.release.Some? ==> saved.modes.value.postgres == config.modes.postgres
      ensures o.Ok? && postgres ==> PointReady(Now(), r)
    {
      r := record;
      :- RunJob();  // local data services, and the new database's checks
      if postgres {
        o, r := MoveData(r);
        if !o.Ok? { return; }
      }
      o, r := TakeStep(r, DataReady);
    }

    /** Put migrations on record, after a restore point, unless the database is at the level already. */
    method PrepareMigration(record: Record, level: Option<nat>) returns (o: Outcome, r: Record)
      requires Valid() && saved.deploying == Some(record)
      requires saved.release.Some? ==> saved.modes.value.postgres == config.modes.postgres
      requires level.None? <==> saved.release.None?
      requires !Open(saved) && level.Some? ==> level.value <= saved.release.value.latest
      requires saved.release.Some? && !PartlyMigrated(record) && record.restorePoint.Some? ==> PointReady(Now(), record)
      requires Migrating !in record.steps
      modifies `saved, `env, `run
      ensures old(run) <= run
      ensures Valid() && saved == old(saved).(deploying := Some(r))
      ensures env == old(env).(backups := env.backups, clock := env.clock)
      ensures record.steps <= r.steps && r.release == record.release
      // They are opened exactly if the schema changes or is unknown, or an earlier attempt left them open, and only a
      // change takes a restore point.
      ensures o.Ok? ==>
                (Migrating in r.steps <==>
                   level.None? || level.value < record.release.latest || record.partlyMigrated.Some?)
      ensures record.restorePoint.Some? || (level.Some? && record.release.latest <= level.value) ==> env == old(env)
      ensures o.Ok? && saved.release.Some? && !Open(saved) ==> record.release.latest <= saved.release.value.latest
    {
      r := record;
      var schemaChanges := level.None? || record.release.latest > level.value;
      if saved.release.Some? && schemaChanges {
        o, r := SecureRestorePoint(r);
        if !o.Ok? { return; }
      }
      if schemaChanges || record.partlyMigrated.Some? {
        o, r := BeginMigrating(r);
      } else {
        o := Ok;
      }
    }

    /** Migrate, grant, and create the first administrator. */
    method MigrateDatabase(record: Record) returns (o: Outcome, r: Record)
      requires Valid() && saved.deploying == Some(record) && Scheduler !in env.running
      requires saved.release.Some? ==> saved.modes.value.postgres == config.modes.postgres
      requires env.secrets.jobs.Some? && env.secrets.jobs.value.postgres == config.modes.postgres
      requires saved.release.Some? && !Open(saved) ==> record.release.latest <= saved.release.value.latest
      modifies `saved, `env, `run
      ensures old(run) <= run
      ensures Valid() && saved == old(saved).(deploying := Some(r))
      ensures env == old(env).(level := env.level)
      ensures Follows(record, r)
      ensures o.Ok? ==> env.level.At(config.modes.postgres) == record.release.latest
    {
      r := record;
      o := RunMigrate(record.release, config.modes.postgres);
      if o.Ok? { o := RunJob(); }
      if o.Ok? { o, r := TakeStep(r, Migrated); }
      if o.Ok? { o := RunJob(); }
    }

    /** A deploy's last save. */
    method SaveFinished(release: Release) returns (o: Outcome)
      requires Valid() && saved.deploying.Some? && env.level.At(config.modes.postgres) == release.latest
      requires saved.release.Some? ==> saved.modes.value.postgres == config.modes.postgres
      requires env.secrets.services.Some? && env.secrets.services.value.postgres == config.modes.postgres
      requires forall x: Service :: x in env.running && env.running[x] == Instance(release, config.modes.postgres)
      modifies `saved, `env, `run
      ensures old(run) <= run
      ensures Valid() && !o.Failed? && env == old(env)
      ensures saved == Saved(Some(release), Some(release.latest), Some(config.modes), Some(config.digest),
                             None, None, Absent, Absent, {}, Absent)
    {
      Do(Finish, Saved(Some(release), Some(release.latest), Some(config.modes), Some(config.digest),
                       None, None, Absent, Absent, {}, Absent), env);
      o := Survives();
    }

    /** The success: the new release is the installed one, and nothing is owed. */
    method FinishDeploy(release: Release) returns (o: Outcome)
      requires Valid() && saved.deploying.Some? && env.level.At(config.modes.postgres) == release.latest
      requires saved.release.Some? ==> saved.modes.value.postgres == config.modes.postgres
      requires env.secrets.services.Some? && env.secrets.services.value.postgres == config.modes.postgres
      requires forall x: Service :: x in env.running && env.running[x] == Instance(release, config.modes.postgres)
      modifies `saved, `env, `run
      ensures old(run) <= run
      ensures Valid() && !o.Failed?
      ensures saved == Saved(Some(release), Some(release.latest), Some(config.modes), Some(config.digest),
                             None, None, Absent, Absent, {}, Absent)
      ensures env == old(env).(settled := env.settled, kept := env.kept)
      ensures o.Ok? ==> Deployed(saved, env, release, config)
    {
      o := SaveFinished(release);
      if o.Ok? { o := SettleBoot(); }
      if o.Ok? { o := DropKeptSecrets(); }
    }

    /** Replace the services with the release's own, which the record says may happen. */
    method ReplaceServices(record: Record) returns (o: Outcome)
      requires Valid() && saved.deploying == Some(record) && Starting in record.steps
      requires env.secrets.services.Some? && !Mismatched(Now())
      requires env.level.At(env.secrets.services.value.postgres) <= record.release.latest
      modifies `saved, `env, `run
      ensures old(run) <= run
      ensures Valid() && saved == old(saved)
      ensures env == old(env).(running := env.running, leftByRollBack := env.leftByRollBack, lastStart := env.lastStart)
      ensures o.Ok? ==> forall x: Service ::
                x in env.running && env.running[x] == Instance(record.release, env.secrets.services.value.postgres)
    {
      assert Starting in Stops(record);
      o := StartServices(record.release, true, false);
    }

    /** The new release's services take over: the record says so first. */
    method StartRelease(record: Record) returns (o: Outcome, r: Record)
      requires Valid() && saved.deploying == Some(record)
      requires saved.release.Some? ==> saved.modes.value.postgres == config.modes.postgres
      requires env.level.At(config.modes.postgres) == record.release.latest
      requires env.secrets.services.Some? && env.secrets.services.value.postgres == config.modes.postgres
      modifies `saved, `env, `run
      ensures old(run) <= run
      ensures Valid() && saved == old(saved).(deploying := Some(r)) && Follows(record, r)
      ensures env == old(env).(running := env.running, leftByRollBack := env.leftByRollBack, lastStart := env.lastStart)
      ensures o.Ok? ==> forall x: Service ::
                x in env.running && env.running[x] == Instance(record.release, config.modes.postgres)
    {
      o, r := TakeStep(record, Starting);
      if !o.Ok? { return; }
      o := ReplaceServices(r);
    }

    /** Start the release, and end the deploy. */
    method StartAndFinish(record: Record) returns (o: Outcome)
      requires Valid() && saved.deploying == Some(record)
      requires saved.release.Some? ==> saved.modes.value.postgres == config.modes.postgres
      requires env.level.At(config.modes.postgres) == record.release.latest
      requires env.secrets.services.Some? && env.secrets.services.value.postgres == config.modes.postgres
      modifies `saved, `env, `run
      ensures old(run) <= run
      ensures Valid()
      ensures o.Failed? ==> saved.deploying.Some? && saved == old(saved).(deploying := saved.deploying)
                            && Follows(record, saved.deploying.value)
      ensures o.Ok? ==> Deployed(saved, env, record.release, config)
    {
      var r: Record;
      o, r := StartRelease(record);
      if o.Ok? { o, r := TakeStep(r, Ready); }
      if o.Ok? { o := FinishDeploy(record.release); }
    }

    /** A release that does not know the database's migrations is refused. */
    method CheckUpgrade(record: Record) returns (o: Outcome, level: Option<nat>)
      requires Valid() && saved.deploying == Some(record) && Migrating !in record.steps
      modifies `saved, `env, `run
      ensures old(run) <= run
      ensures Valid() && saved == old(saved)
      ensures env == old(env).(secrets := env.secrets, clock := env.clock)
      ensures AsFound(old(env.secrets), env.secrets, saved)
      ensures old(Settled(Now())) ==> Settled(Now())
      ensures o.Ok? ==> (level.None? <==> saved.release.None?)
      ensures o.Ok? && !Open(saved) && level.Some? ==> level.value <= saved.release.value.latest
      ensures o.Ok? && level.Some? ==> level.value <= record.release.latest
      // The release knows every migration of the database, wherever a job can say which those are.
      ensures o.Ok? && saved.release.Some? && record.dataMoved.Absent? && HasStatusJob() ==>
                Level(Now()) <= record.release.latest
    {
      level :- DatabaseLevel(record);
      if level.Some? && record.release.latest < level.value { return Failed, level; }
      o := RunJob();  // versions it cannot upgrade
    }

    /** What may refuse a deploy before it changes anything a service reads. */
    method CheckDeploy(record: Record, moving: bool, storage: set<StorageRole>)
      returns (o: Outcome, r: Record, level: Option<nat>)
      requires Valid() && saved.deploying == Some(record) && record.steps == {Started}
      modifies `saved, `env, `run
      ensures old(run) <= run
      ensures Valid() && saved == old(saved).(deploying := Some(r))
      ensures env == old(env).(secrets := env.secrets, clock := env.clock)
      ensures AsFound(old(env.secrets), env.secrets, saved)
      ensures old(Settled(Now())) ==> Settled(Now())
      ensures Follows(record, r) && r.restorePoint == record.restorePoint && r.steps <= {Started, Verified}
      ensures o.Ok? ==> (level.None? <==> saved.release.None?) && !MovesRefused(record, saved.release, moving, storage)
      ensures o.Ok? && moving ==> !ObjectsTouched(record) && record.partlyMigrated.None?
      ensures o.Ok? && storage != {} ==>
                && !moving && record.partlyMigrated.None? && Some(record.release) == saved.release
                && (ObjectsMoved(record) ==> storage <= record.storageManifests.Keys)
      ensures o.Ok? ==> r.steps == {Started, Verified}
      ensures o.Ok? && !Open(saved) && level.Some? ==> level.value <= saved.release.value.latest
      ensures o.Ok? && level.Some? ==> level.value <= record.release.latest
      ensures o.Ok? && saved.release.Some? && record.dataMoved.Absent? && HasStatusJob() ==>
                Level(Now()) <= record.release.latest
    {
      r, level := record, None;
      if moving && StorageProgress(record) != NotMoved { return Failed, r, level; }
      :- RunJob();  // the manifest, the operator secrets, and a render beside the installed bundle
      level :- CheckUpgrade(record);
      r :- TakeStep(r, Verified);
      if MovesRefused(record, saved.release, moving, storage) { return Failed, r, level; }
      o := RunJob();  // moves this host does not make
    }

    /** Bring the new bundle and secrets in, and stop the old scheduler before anything else changes. */
    method ChangeOver(record: Record, postgres: bool, valkey: bool) returns (o: Outcome, r: Record)
      requires Valid() && saved.deploying == Some(record) && Migrating !in record.steps
      requires Settled(Now()) && !MoveBegun(record)
      requires postgres || valkey ==>
                 saved.release.Some? && !PartlyMigrated(record) && StorageProgress(record) == NotMoved
      requires postgres ==> saved.modes.value.postgres.Local? && !config.modes.postgres.Local?
      requires !postgres && saved.release.Some? ==> saved.modes.value.postgres == config.modes.postgres
      modifies `saved, `env, `run
      ensures old(run) <= run
      ensures Valid() && saved == old(saved).(deploying := Some(r))
      ensures env == old(env).(running := env.running, leftByRollBack := env.leftByRollBack, lastStart := env.lastStart,
                               secrets := env.secrets, clock := env.clock, backups := env.backups, kept := env.kept,
                               bundles := env.bundles, aside := env.aside)
      ensures Follows(record, r)
      ensures Secrets !in r.steps && StorageMoving in r.steps ==> StorageMoving in record.steps
      ensures o.Failed? && Secrets !in r.steps ==>
                SecretsUntouched(old(env), env, r.steps, postgres, saved) && UpToSecrets(record, r, postgres || valkey)
      ensures o.Ok? ==> Scheduler !in env.running && Secrets in r.steps
      ensures o.Ok? ==> env.secrets.services.Some? && env.secrets.services.value.postgres == config.modes.postgres
      ensures o.Ok? ==> env.secrets.jobs == env.secrets.services
      ensures o.Ok? && postgres ==> Copied(env, r)
      ensures !postgres ==> r.restorePoint == record.restorePoint
    {
      o, r := InstallRelease(record);
      assert !MoveBegun(r);
      if !o.Ok? { return; }
      o, r := ChangeSecrets(r, postgres, valkey);
      if !o.Ok? { return; }
      o, r := StopOldScheduler(r);
    }

    /** Ready the data, migrate, and start the release. */
    method MigrateAndStart(record: Record, postgres: bool, level: Option<nat>) returns (o: Outcome)
      requires Valid() && saved.deploying == Some(record) && Scheduler !in env.running && Migrating !in record.steps
      requires postgres ==> saved.release.Some? && saved.modes.value.postgres.Local? && !config.modes.postgres.Local?
                            && !PartlyMigrated(record) && Copied(env, record)
      requires env.secrets.services.Some? && env.secrets.services.value.postgres == config.modes.postgres
      requires env.secrets.jobs == env.secrets.services
      requires !postgres && saved.release.Some? ==> saved.modes.value.postgres == config.modes.postgres
      requires !postgres && !PartlyMigrated(record) ==> record.restorePoint.None?
      requires level.None? <==> saved.release.None?
      requires !Open(saved) && level.Some? ==> level.value <= saved.release.value.latest
      modifies `saved, `env, `run
      ensures old(run) <= run
      ensures Valid()
      ensures o.Failed? ==> saved.deploying.Some? && saved.deploying.value.release == record.release
                            && record.steps <= saved.deploying.value.steps
                            && saved == old(saved).(modes := saved.modes, deploying := saved.deploying)
      ensures o.Ok? ==> Deployed(saved, env, record.release, config)
    {
      var r: Record;
      o, r := ReadyData(record, postgres);
      if !o.Ok? { return; }
      o, r := PrepareMigration(r, level);
      if !o.Ok? { return; }
      o, r := MigrateDatabase(r);
      if !o.Ok? { return; }
      o := StartAndFinish(r);
    }

    /** Move the objects first if the configuration has new storage: it stops Hot for that. */
    method MoveStorageFirst(record: Record, storage: set<StorageRole>) returns (o: Outcome, r: Record)
      requires Valid() && saved.deploying == Some(record)
      requires storage != {} ==> saved.release.Some? && config.modes.postgres == saved.modes.value.postgres
      modifies `saved, `env, `run
      ensures old(run) <= run
      ensures Valid() && saved == old(saved).(deploying := Some(r))
      ensures Follows(record, r) && r.restorePoint == record.restorePoint
      ensures r.steps <= record.steps + {StorageMoving, StorageMoved}
      ensures storage == {} ==> o.Ok? && r == record && env == old(env)
      ensures o.Ok? && old(Settled(Now())) ==> Settled(Now())
      ensures StorageMoving in r.steps && StorageMoving !in record.steps ==> Freshly(old(env), env)
    {
      o, r := Ok, record;
      if storage != {} {
        :- PrepareStorageMove();
        o, r := MoveStorage(record, storage);
      }
    }

    /** A deploy past its checks. */
    method CarryOut(record: Record, postgres: bool, valkey: bool, storage: set<StorageRole>, level: Option<nat>)
      returns (o: Outcome)
      requires Valid() && saved.deploying == Some(record) && Migrating !in record.steps
      requires Settled(Now()) && !MoveBegun(record)
      requires record.restorePoint.Some? ==> PartlyMigrated(record)
      requires postgres || valkey || storage != {} ==> saved.release.Some? && !PartlyMigrated(record)
      requires postgres || valkey ==> StorageProgress(record) == NotMoved && storage == {}
      requires postgres ==> saved.modes.value.postgres.Local? && !config.modes.postgres.Local?
      requires !postgres && saved.release.Some? ==> saved.modes.value.postgres == config.modes.postgres
      requires level.None? <==> saved.release.None?
      requires !Open(saved) && level.Some? ==> level.value <= saved.release.value.latest
      modifies `saved, `env, `run
      ensures old(run) <= run
      ensures Valid()
      ensures o.Failed? ==> saved.deploying.Some? && saved.deploying.value.release == record.release
                            && record.steps <= saved.deploying.value.steps
                            && saved == old(saved).(modes := saved.modes, deploying := saved.deploying)
      ensures o.Ok? ==> Deployed(saved, env, record.release, config)
      ensures o.Failed? && Secrets !in saved.deploying.value.steps && StorageMoving in saved.deploying.value.steps
              && StorageMoving !in record.steps ==>
                Freshly(old(env), env)
      ensures o.Failed? && Secrets !in saved.deploying.value.steps && storage == {} ==>
                && SecretsUntouched(old(env), env, saved.deploying.value.steps, postgres, old(saved))
                && Follows(record, saved.deploying.value)
                && UpToSecrets(record, saved.deploying.value, postgres || valkey)
                && saved.modes == old(saved.modes)
    {
      var r: Record;
      o, r := MoveStorageFirst(record, storage);
      if !o.Ok? { return; }
      o, r := ChangeOver(r, postgres, valkey);
      if !o.Ok? { return; }
      o := MigrateAndStart(r, postgres, level);
    }

    /** Which data services move, and whether anything refuses that or the release. */
    method CheckMoves(record: Record, storage: set<StorageRole>)
      returns (o: Outcome, r: Record, postgres: bool, valkey: bool, level: Option<nat>)
      requires Valid() && saved.deploying == Some(record) && record.steps == {Started}
      modifies `saved, `env, `run
      ensures old(run) <= run
      ensures Valid() && saved == old(saved).(deploying := Some(r))
      ensures env == old(env).(secrets := env.secrets, clock := env.clock) && old(env.clock) <= env.clock
      ensures AsFound(old(env.secrets), env.secrets, saved)
      ensures old(Settled(Now())) ==> Settled(Now())
      ensures Follows(record, r) && r.restorePoint == record.restorePoint && r.steps <= {Started, Verified}
      ensures o.Ok? ==> r.steps == {Started, Verified}
      ensures o.Ok? ==> !MovesRefused(record, saved.release, postgres || valkey, storage)
      ensures o.Ok? ==> (postgres || valkey ==> saved.release.Some?)
      ensures o.Ok? ==> (postgres ==> saved.modes.value.postgres.Local? && !config.modes.postgres.Local?)
      ensures o.Ok? ==> (postgres <==> PostgresMoves(saved, config.modes))
      ensures o.Ok? ==> (level.None? <==> saved.release.None?)
      ensures o.Ok? && !Open(saved) && level.Some? ==> level.value <= saved.release.value.latest
    {
      r, level := record, None;
      postgres, valkey :- DataMoves();
      o, r, level := CheckDeploy(record, postgres || valkey, storage);
      Runs.ClockGoesOn(run, |old(run)| - 1, |run| - 1);
    }

    /** A deploy's first save and its checks. */
    method PrepareDeploy(release: Release, storage: set<StorageRole>)
      returns (o: Outcome, record: Record, postgres: bool, valkey: bool, level: Option<nat>)
      requires Valid() && !RestoreUnfinished(saved)
      requires storage != {} ==> saved.release.Some?
      modifies `saved, `env, `run
      ensures old(run) <= run
      ensures Valid() && saved == old(saved).(deploying := saved.deploying)
      ensures !o.Killed? && old(saved.deploying).None? ==>
                saved.deploying.Some? && saved.deploying.value.release == release
                && saved.deploying.value.steps <= {Started, Verified}
      ensures o.Failed? && old(saved.deploying).Some? ==>
                saved.deploying == old(saved.deploying)
                || (saved.deploying.Some? && saved.deploying.value.release == release)
      ensures o.Ok? ==> saved.deploying == Some(record) && record.release == release
      ensures o.Ok? ==> record.steps == {Started, Verified} && Settled(Now())
      ensures o.Ok? ==> (record.restorePoint.Some? ==> PartlyMigrated(record))
      ensures o.Ok? ==> (postgres || valkey || storage != {} ==> saved.release.Some? && !PartlyMigrated(record))
      ensures o.Ok? ==> (postgres ==> saved.modes.value.postgres.Local? && !config.modes.postgres.Local?)
      ensures o.Ok? ==> (postgres <==> PostgresMoves(saved, config.modes))
      ensures o.Ok? && (postgres || valkey) ==> StorageProgress(record) == NotMoved && storage == {}
      ensures o.Ok? ==> (level.None? <==> saved.release.None?)
      ensures o.Ok? && !Open(saved) && level.Some? ==> level.value <= saved.release.value.latest
      ensures !o.Killed? && old(saved.deploying).None? ==>
                && AsFound(old(env.secrets), env.secrets, old(saved)) && env.kept == old(env.kept)
                && old(env.clock) <= env.clock
                && RefusedFrom(old(saved), saved)
    {
      record, postgres, valkey, level := *, false, false, None;
      record :- BeginDeploy(release);
      ghost var first := record;
      if old(saved.deploying).None? { FirstIsRefused(old(saved), release); }
      o, record, postgres, valkey, level := CheckMoves(record, storage);
      if old(saved.deploying).None? { StaysRefused(old(saved), first, record); }
    }

    /** Deploy one release. */
    method Deploy(release: Release, storage: set<StorageRole>) returns (o: Outcome)
      requires Valid() && !RestoreUnfinished(saved)
      requires storage != {} ==> saved.release.Some?
      modifies `saved, `env, `run
      ensures old(run) <= run
      ensures Valid()
      ensures o.Failed? ==> saved == old(saved).(modes := saved.modes, deploying := saved.deploying)
      ensures o.Failed? && old(saved.deploying).None? ==>
                saved.deploying.Some? && saved.deploying.value.release == release
      ensures o.Failed? && old(saved.deploying).Some? ==>
                saved.deploying == old(saved.deploying)
                || (saved.deploying.Some? && saved.deploying.value.release == release)
      ensures o.Ok? ==> Deployed(saved, env, release, config)
      // A refusal before the secrets step leaves what the services read as found.
      ensures o.Failed? && old(saved.deploying).None? && Secrets !in saved.deploying.value.steps
              && (storage == {} || Verified !in saved.deploying.value.steps) ==>
                && saved.modes == old(saved.modes)
                && SecretsUntouched(old(env), env, saved.deploying.value.steps, PostgresMoves(saved, config.modes),
                                    old(saved))
                && RefusedFrom(old(saved), saved)
      // A storage move wrote it, for the objects' new keys.
      ensures o.Failed? && old(saved.deploying).None? && Secrets !in saved.deploying.value.steps
              && StorageMoving in saved.deploying.value.steps ==>
                Freshly(old(env), env)
    {
      var record: Record, postgres: bool, valkey: bool, level: Option<nat>;
      record, postgres, valkey, level :- PrepareDeploy(release, storage);
      o := CarryOut(record, postgres, valkey, storage, level);
      if o.Failed? && storage == {} && old(saved.deploying).None? && Secrets !in saved.deploying.value.steps {
        StaysRefused(old(saved), record, saved.deploying.value);
      }
    }

    // -- restarts -----------------------------------------------------------------------

    /** Add and remove services on the list of restarts under way. */
    method NoteRestarts(started: set<Service>, done: set<Service>) returns (o: Outcome)
      requires Valid() && saved.release.Some?
      requires ServicesStand(World(saved.(restarting := saved.restarting - done + started), env))
      modifies `saved, `env, `run
      ensures Valid() && saved == old(saved).(restarting := old(saved.restarting) - done + started)
      ensures env == old(env) && !o.Failed? && GrewQuietly(old(run), run)
    {
      o := SaveState(saved.(restarting := saved.restarting - done + started));
    }

    /** Follow a web service's restart with the ingress, which takes its place on the list. */
    method RestartIngress(x: Service) returns (o: Outcome)
      requires Valid() && saved.release.Some? && !RestoreUnfinished(saved) && x in env.running && x != Ingress
      requires Settled(Now())
      modifies `saved, `env, `run
      ensures Grew(old(run), run)
      ensures Valid() && saved == old(saved).(restarting := saved.restarting)
      ensures env == old(env).(running := env.running, leftByRollBack := env.leftByRollBack, lastStart := env.lastStart)
      ensures forall y: Service | y != Ingress :: y in env.running <==> y in old(env.running)
      ensures forall y: Service | y != Ingress && y in env.running :: env.running[y] == old(env.running)[y]
      ensures o.Ok? ==> saved.restarting == old(saved.restarting) - {x, Ingress} && Ingress in env.running
      ensures o.Ok? ==> env.secrets.services.Some?
                        && env.running[Ingress] == Instance(saved.release.value, env.secrets.services.value.postgres)
    {
      o := NoteRestarts({Ingress}, {x});
      if !o.Ok? { return; }
      :- ComposeUp({Ingress}, saved.release.value, false);
      o := NoteRestarts({}, {x, Ingress});
    }

    /** Recreate one service, which the state names first. */
    method Recreate(x: Service) returns (o: Outcome)
      requires Valid() && saved.release.Some? && !RestoreUnfinished(saved) && Settled(Now())
      requires x.Scheduler? ==> !SchedulerHeld(saved)
      modifies `saved, `env, `run
      ensures Grew(old(run), run)
      ensures Valid() && saved == old(saved).(restarting := saved.restarting)
      ensures env == old(env).(running := env.running, leftByRollBack := env.leftByRollBack, lastStart := env.lastStart)
      ensures !o.Failed? ==> saved.restarting == old(saved.restarting) + {x}
      ensures o.Ok? ==> x in env.running && env.secrets.services.Some?
                        && env.running[x] == Instance(saved.release.value, env.secrets.services.value.postgres)
      ensures forall y: Service | y != x :: y in env.running <==> y in old(env.running)
    {
      o := NoteRestarts({x}, {});
      if !o.Ok? { return; }
      if x == Scheduler {
        :- ComposeStop({Scheduler});
      }
      o := ComposeUp({x}, saved.release.value, false);
    }

    /** Restart one service. Until it is up, the state names it. */
    method Restart(x: Service) returns (o: Outcome)
      requires Valid() && saved.release.Some? && !RestoreUnfinished(saved) && Settled(Now())
      requires x.Scheduler? ==> !SchedulerHeld(saved)
      modifies `saved, `env, `run
      ensures Grew(old(run), run)
      ensures Valid() && saved == old(saved).(restarting := saved.restarting)
      ensures env == old(env).(running := env.running, leftByRollBack := env.leftByRollBack, lastStart := env.lastStart)
      ensures o.Ok? ==> saved.restarting <= old(saved.restarting) - {x}
      ensures o.Ok? ==> x in env.running && env.secrets.services.Some?
                        && env.running[x] == Instance(saved.release.value, env.secrets.services.value.postgres)
                        && (IsWeb(x) ==> Ingress in env.running && env.running[Ingress] == env.running[x])
      ensures forall y: Service | y != x && y != Ingress :: y in env.running <==> y in old(env.running)
    {
      if x == TaskWorker {
        :- RunJob();  // its hotbox
      }
      :- Recreate(x);
      if IsWeb(x) {
        o := RestartIngress(x);
      } else {
        o := NoteRestarts({}, {x});
      }
    }

    method RestartAll(waiting: set<Service>) returns (o: Outcome)
      requires Valid() && saved.release.Some? && !RestoreUnfinished(saved) && Settled(Now())
      requires !SchedulerHeld(saved) && saved.restarting <= waiting
      modifies `saved, `env, `run
      ensures Grew(old(run), run)
      ensures Valid() && saved == old(saved).(restarting := saved.restarting)
      ensures env == old(env).(running := env.running, leftByRollBack := env.leftByRollBack, lastStart := env.lastStart)
      ensures o.Ok? ==> saved.restarting == {}
      ensures o.Ok? && (Scheduler in waiting || Scheduler in old(env.running)) ==> Scheduler in env.running
    {
      var todo := waiting;
      while todo != {}
        invariant Valid() && saved == old(saved).(restarting := saved.restarting) && saved.restarting <= todo
        invariant Grew(old(run), run)
        invariant env == old(env).(running := env.running, leftByRollBack := env.leftByRollBack,
                                   lastStart := env.lastStart)
        invariant todo <= waiting
        invariant (Scheduler in waiting && Scheduler !in todo) || Scheduler in old(env.running) ==>
                    Scheduler in env.running
      {
        var x :| x in todo;
        todo := todo - {x};
        :- Restart(x);
      }
      o := Ok;
    }

    // -- recovery -------------------------------------------------------------------------

    /** Start the installed release's services as a failed deploy found them. */
    method RestartPrevious(stops: set<Step>) returns (o: Outcome)
      requires Valid() && saved.release.Some? && !RestoreUnfinished(saved) && !Open(saved) && !DataHasMoved(saved)
      requires stops == StopsOf(saved.deploying)
      requires FailedStands(saved) ==> RestoreChecked(saved.failed.value)
      requires saved.deploying.Some? ==> StorageProgress(saved.deploying.value) == NotMoved
      modifies `saved, `env, `run
      ensures old(run) <= run
      ensures Valid() && saved == old(saved).(restarting := saved.restarting)
      ensures env == old(env).(running := env.running, leftByRollBack := env.leftByRollBack, lastStart := env.lastStart,
                               secrets := env.secrets, kept := env.kept, clock := env.clock)
      ensures o.Ok? ==> forall x: Service :: x in env.running || saved.stopped.Present? || saved.resumeFailed.Present?
                                             || env.settled.Absent? || x in env.leftByRollBack
      // A whole start puts kept secrets back, whatever they name, or delivers the installed data services'
      // if the configuration has others, and starts every service on those; nothing else changes them.
      ensures !StartsWhole(old(saved), stops) ==> env.secrets == old(env.secrets) && env.kept == old(env.kept)
      ensures StartsWhole(old(saved), stops) ==> PutBack(old(env), env, saved.modes, config.modes, o.Ok?)
      ensures o.Ok? && StartsWhole(old(saved), stops) ==>
                env.secrets.services.Some?
                && forall x: Service ::
                     x in env.running
                     && env.running[x] == Instance(saved.release.value, env.secrets.services.value.postgres)
    {
      var release := saved.release.value;
      if StartsWhole(saved, stops) {
        :- RestoreInstalledSecrets(saved.modes);
        o := StartServices(release, true, false);
      } else {
        var waiting := saved.restarting;
        if SchedulerStopped in stops && Scheduler !in waiting {
          :- ComposeUp({Scheduler}, release, false);
        }
        o := Ok;
        if env.settled.Present? {
          o := RestartAll(waiting);
        }
      }
    }

    /** Recover where no migrations are open: bring the installed release up, or leave a stopped one down. Returns
        the restarts still to do, and whether the start failed, for the failure's save. */
    method ReturnToPrevious(record: Record) returns (o: Outcome, restarting: set<Service>, resumeFailed: Mark)
      requires Valid() && !RestoreUnfinished(saved) && !Open(saved) && !DataHasMoved(saved)
      requires record.previous == saved.release && Stops(record) == StopsOf(saved.deploying)
      requires FailedStands(saved) ==> RestoreChecked(saved.failed.value)
      requires saved.deploying.Some? ==> StorageProgress(saved.deploying.value) == NotMoved
      modifies `saved, `env, `run
      ensures old(run) <= run
      ensures Valid() && saved == old(saved).(restarting := saved.restarting) && !o.Failed?
      ensures saved.stopped.Present? ==> GrewQuietly(old(run), run)
      ensures saved.release.None? ==> restarting == {}
      ensures o.Ok? && saved.release.Some? ==>
                forall x: Service :: x in env.running || saved.stopped.Present? || resumeFailed.Present?
                                     || env.settled.Absent? || x in restarting || x in env.leftByRollBack
      ensures !Rewrites(old(saved), old(env), config.modes) ==> env.secrets.services == old(env.secrets.services)
      ensures Rewrites(old(saved), old(env), config.modes) ==>
                env.secrets.services == old(env.secrets.services)
                || env.secrets.services == Rewritten(old(saved), old(env))
      ensures Rewrites(old(saved), old(env), config.modes) && o.Ok? && resumeFailed.Absent? ==>
                env.secrets.services == Rewritten(old(saved), old(env))
      // Kept secrets are back before anything else can fail, unless a bundle goes back first.
      ensures Rewrites(old(saved), old(env), config.modes) && old(env.kept).Some?
              && !BundleGoesBack(Some(record), old(env.aside)) ==>
                env.secrets.services == old(env.kept).value.services
    {
      restarting, resumeFailed := saved.restarting, saved.resumeFailed;
      if record.previous.None? { return Ok, restarting, resumeFailed; }
      o := RestoreInstalledBundle(Some(record));
      if o.Ok? && saved.stopped.Present? {
        o := RestoreInstalledSecrets(None);
      } else if o.Ok? {
        var settles := env.settled.Present? || StartsWhole(saved, Stops(record));
        o := RestartPrevious(Stops(record));
        if o.Ok? && settles { restarting := {}; }
      }
      if o.Failed? {
        o, resumeFailed := Ok, Present;  // the loop tries that start again
      }
    }

    /** What a failure does to the host, by how far its record says the attempts got. */
    method RecoverHost(record: Record) returns (o: Outcome, stopped: Mark, restarting: set<Service>, resumeFailed: Mark)
      requires Valid() && !RestoreUnfinished(saved) && Speaks(saved, record)
      modifies `saved, `env, `run
      ensures old(run) <= run
      ensures Valid() && saved == old(saved).(restarting := saved.restarting) && !o.Failed?
      ensures saved.stopped.Present? ==> GrewQuietly(old(run), run)
      ensures stopped.Present? <==> StaysStopped(saved)
      ensures saved.release.None? ==> restarting == {}
      ensures o.Ok? && stopped.Present? ==> saved.release.None? || forall x: Service :: Explained(saved, env.settled, x)
      ensures o.Ok? && saved.release.Some? && !PartlyMigrated(record) && !MovedData(record)
              && StorageProgress(record) == NotMoved ==>
                forall x: Service :: x in env.running || stopped.Present? || resumeFailed.Present?
                                     || env.settled.Absent? || x in restarting || x in env.leftByRollBack
      ensures !Rewrites(old(saved), old(env), config.modes) ==> env.secrets.services == old(env.secrets.services)
      ensures Rewrites(old(saved), old(env), config.modes) ==>
                env.secrets.services == old(env.secrets.services)
                || env.secrets.services == Rewritten(old(saved), old(env))
      ensures Rewrites(old(saved), old(env), config.modes) && !Open(old(saved)) && o.Ok? && resumeFailed.Absent? ==>
                env.secrets.services == Rewritten(old(saved), old(env))
      ensures Rewrites(old(saved), old(env), config.modes) && old(env.kept).Some?
              && (Open(old(saved)) || !BundleGoesBack(Some(record), old(env.aside))) ==>
                env.secrets.services == old(env.kept).value.services
    {
      o, stopped, restarting, resumeFailed := Ok, saved.stopped, saved.restarting, saved.resumeFailed;
      if StorageProgress(record) != NotMoved || MovedData(record) {
        stopped := Present;
      } else if PartlyMigrated(record) {
        if saved.release.Some? && (Draining in Stops(record) || Rebooted in Stops(record)) { stopped := Present; }
        if stopped.Present? {
          o := RestoreInstalledSecrets(saved.modes);
          if o.Failed? { o := Ok; }
        }
      } else {
        o, restarting, resumeFailed := ReturnToPrevious(record);
      }
    }

    /** Stop what the attempt started, if Hot stays stopped, and remove the secrets it kept. */
    method StopAgain(stopped: Mark) returns (o: Outcome)
      requires Valid()
      requires stopped.Present? ==> saved.release.None? || forall x: Service :: Explained(saved, env.settled, x)
      modifies `saved, `env, `run
      ensures GrewQuietly(old(run), run)
      ensures Valid() && saved == old(saved) && !o.Failed?
      ensures env == old(env).(running := env.running, kept := env.kept) && (o.Ok? ==> env.kept.None?)
      ensures stopped.Absent? || saved.release.None? ==> env.running == old(env.running)
    {
      o := Ok;
      if stopped.Present? && saved.release.Some? {
        o := StopServices();
      }
      if !o.Killed? { o := DropKeptSecrets(); }
    }

    /** Stop again what the attempt started, if Hot stays stopped, and save the failure. */
    method RecordFailure(record: Record, stopped: Mark, restarting: set<Service>, resumeFailed: Mark)
      returns (o: Outcome)
      requires Valid() && !RestoreUnfinished(saved) && Speaks(saved, record)
      requires saved.stopped.Present? ==> stopped.Present?
      requires saved.release.None? ==> restarting == {}
      requires stopped.Present? ==> saved.release.None? || forall x: Service :: Explained(saved, env.settled, x)
      requires saved.release.Some? && !PartlyMigrated(record) && !MovedData(record)
               && StorageProgress(record) == NotMoved ==>
                 forall x: Service :: x in env.running || stopped.Present? || resumeFailed.Present?
                                      || env.settled.Absent? || x in restarting || x in env.leftByRollBack
      modifies `saved, `env, `run
      ensures GrewQuietly(old(run), run)
      ensures Valid() && !o.Failed?
      ensures o.Ok? ==> saved == old(saved).(deploying := None, failed := Some(Failure(record)), stopped := stopped,
                                             restarting := restarting, resumeFailed := resumeFailed)
      ensures env == old(env).(running := env.running, kept := env.kept)
    {
      o := StopAgain(stopped);
      if !o.Ok? { return; }
      FailureSaveAllowed(Now(), record, stopped, restarting, resumeFailed);
      Do(SaveFailure, saved.(deploying := None, failed := Some(Failure(record)), stopped := stopped,
                             restarting := restarting, resumeFailed := resumeFailed), env);
      o := Survives();
    }

    /** Act on the host by how far a record says the attempts got, and save the failure. */
    method FailBy(record: Record) returns (o: Outcome)
      requires Valid() && !RestoreUnfinished(saved) && Speaks(saved, record)
      modifies `saved, `env, `run
      ensures old(run) <= run
      ensures Valid() && !o.Failed? && (old(saved.stopped).Present? ==> GrewQuietly(old(run), run))
      ensures o.Ok? ==> saved.deploying.None? && saved.failed == Some(Failure(record))
                        && saved.release == old(saved.release) && saved.modes == old(saved.modes)
                        && (saved.stopped.Present? <==> StaysStopped(old(saved)))
      ensures !Rewrites(old(saved), old(env), config.modes) ==> env.secrets.services == old(env.secrets.services)
      ensures Rewrites(old(saved), old(env), config.modes) ==>
                env.secrets.services == old(env.secrets.services)
                || env.secrets.services == Rewritten(old(saved), old(env))
      ensures Rewrites(old(saved), old(env), config.modes) && !Open(old(saved))
              && o.Ok? && saved.resumeFailed.Absent? ==>
                env.secrets.services == Rewritten(old(saved), old(env))
      ensures Rewrites(old(saved), old(env), config.modes) && old(env.kept).Some?
              && (Open(old(saved)) || !BundleGoesBack(Some(record), old(env.aside))) ==>
                env.secrets.services == old(env.kept).value.services
    {
      var stopped: Mark, restarting: set<Service>, resumeFailed: Mark;
      o, stopped, restarting, resumeFailed := RecoverHost(record);
      if o.Ok? { o := RecordFailure(record, stopped, restarting, resumeFailed); }
    }

    /** The record to recover by: the deploy's own, or what attempts before it left. */
    method RecordToRecover(release: Release) returns (o: Outcome, record: Record)
      requires Valid()
      modifies `saved, `env, `run
      ensures Valid() && saved == old(saved) && env == old(env).(bundles := env.bundles, aside := env.aside)
      ensures Speaks(saved, record) && record.release == release
      ensures record == RecoveryRecord(saved, release) && GrewQuietly(old(run), run)
      ensures saved.deploying.None? || saved.deploying.value.release == release ==> env == old(env) && o.Ok?
      ensures if saved.deploying.Some? && saved.deploying.value.release == release
              then record == saved.deploying.value else record.steps == {}
    {
      record := RecoveryRecord(saved, release);
      RecoveryRecordSpeaks(saved, release);
      o := Ok;
      if !(saved.deploying.Some? && saved.deploying.value.release == release) {
        o := RestoreInstalledBundle(saved.deploying);
      }
    }

    /** End a deploy as a failure: act on the host by how far it got, then save it. */
    method Recover(release: Release) returns (o: Outcome)
      requires Valid() && !RestoreUnfinished(saved)
      modifies `saved, `env, `run
      ensures old(run) <= run
      ensures Valid() && (o.Failed? ==> saved == old(saved))
      ensures o.Failed? ==> saved.deploying.Some? && saved.deploying.value.release != release
      ensures old(saved.stopped).Present? ==> GrewQuietly(old(run), run)
      ensures o.Ok? ==> saved.deploying.None? && saved.failed.Some? && saved.failed.value.release == release
      ensures o.Ok? ==> saved.release == old(saved.release) && saved.modes == old(saved.modes)
      ensures o.Ok? ==>
                saved.failed.value.steps ==
                if old(saved.deploying).Some? && old(saved.deploying).value.release == release
                then old(saved.deploying).value.steps else {}
      ensures o.Ok? ==> (saved.stopped.Present? <==> StaysStopped(old(saved)))
      // Hot is down afterwards exactly if it was, objects or data moved, or a drain or a boot took it down over
      // open migrations.
      ensures o.Ok? ==>
                (saved.stopped.Present? <==>
                   || old(saved.stopped).Present? || ObjectsTouched(saved.failed.value) || MovedData(saved.failed.value)
                   || (&& PartlyMigrated(saved.failed.value) && old(saved.release).Some? && old(saved.deploying).Some?
                       && var d := old(saved.deploying).value;
                       || Draining in d.steps + d.cutShort || Rebooted in d.steps + d.cutShort || d.rebooted.Present?))
      ensures o.Ok? ==> (PartlyMigrated(saved.failed.value) <==> Open(old(saved)))
                        && (MovedData(saved.failed.value) <==> DataHasMoved(old(saved)))
                        && (Open(old(saved)) && saved.release.Some? ==>
                              saved.failed.value.restorePoint == PointOf(old(saved)))
      ensures o.Ok? ==> (ObjectsTouched(saved.failed.value) <==> StorageUnderWay(old(saved)))
                        && (ObjectsMoved(saved.failed.value) <==> AllObjectsMoved(old(saved)))
      // What the deploy's own record says is kept whole: of the database, its moves, and every object.
      ensures o.Ok? && old(saved.deploying).Some? && old(saved.deploying).value.release == release ==>
                var d, f := old(saved.deploying).value, saved.failed.value;
                && f.restorePoint == d.restorePoint && f.partlyMigrated == d.partlyMigrated
                && f.dataMoved == d.dataMoved
                && f.storageProgress == d.storageProgress && f.storageManifests == d.storageManifests
                && f.storageFailed == d.storageFailed && f.storageLeftBehind == d.storageLeftBehind
                && f.rolledBack.Absent? && f.rollBack.None?
      ensures o.Ok? ==> saved.failed == Some(Failure(RecoveryRecord(old(saved), release)))
      ensures !Rewrites(old(saved), old(env), config.modes) ==> env.secrets.services == old(env.secrets.services)
      ensures Rewrites(old(saved), old(env), config.modes) ==>
                env.secrets.services == old(env.secrets.services)
                || env.secrets.services == Rewritten(old(saved), old(env))
      ensures Rewrites(old(saved), old(env), config.modes) && !Open(old(saved))
              && o.Ok? && saved.resumeFailed.Absent? ==>
                env.secrets.services == Rewritten(old(saved), old(env))
      // A move's failure gives services the secrets it kept, unless its own bundle goes back first.
      ensures old(Swapped(Now()) && Mismatched(Now())) && o.Ok?
              && !BundleFirst(old(saved), old(env.aside), release) ==>
                env.secrets.services == old(env.kept).value.services
    {
      if Swapped(Now()) && Mismatched(Now()) { SwappedIsRewritten(Now(), config.modes); }
      var record: Record;
      record :- RecordToRecover(release);
      o := FailBy(record);
    }

    // -- starts and stops that were cut short -------------------------------------------------

    method SaveMarks(stopped: Mark, stopping: Mark, restarting: set<Service>, resumeFailed: Mark) returns (o: Outcome)
      requires Valid() && saved.release.Some?
      requires stopping.Present? || RestoreUnfinished(saved) ==> stopped.Present?
      requires ServicesStand(World(Marked(saved, stopped, stopping, restarting, resumeFailed), env))
      modifies `saved, `env, `run
      ensures Valid() && saved == Marked(old(saved), stopped, stopping, restarting, resumeFailed)
      ensures env == old(env) && !o.Failed? && GrewQuietly(old(run), run)
    {
      MarksSaveAllowed(Now(), stopped, stopping, restarting, resumeFailed);
      o := SaveState(Marked(saved, stopped, stopping, restarting, resumeFailed));
    }

    /** Mark a deploy that a boot cut off, and undo its bundle. */
    method NoteReboot() returns (o: Outcome)
      requires Valid() && saved.deploying.Some? && saved.resumeFailed.Present?
      modifies `saved, `env, `run
      ensures Valid() && saved.deploying.Some?
      ensures saved == old(saved).(deploying := saved.deploying)
      ensures saved.deploying.value == old(saved.deploying).value.(rebooted := saved.deploying.value.rebooted)
      ensures env == old(env).(bundles := env.bundles, aside := env.aside) && GrewQuietly(old(run), run)
      ensures o.Ok? ==> saved.deploying.value.rebooted.Present?
    {
      o := RestoreInstalledBundle(saved.deploying);
      if !o.Ok? { return; }
      RebootSaveAllowed(Now());
      o := SaveState(saved.(deploying := Some(saved.deploying.value.(rebooted := Present))));
    }

    /** Deliver the installed release's secrets and start it, or, for an interrupted deploy, only its data. */
    method StartInstalled() returns (o: Outcome)
      requires Valid() && saved.release.Some? && saved.resumeFailed.Present?
      requires saved.deploying.None? ==> !RestoreUnfinished(saved)
      modifies `saved, `env, `run
      ensures Grew(old(run), run)
      ensures Valid() && (saved.deploying.Some? <==> old(saved.deploying).Some?)
      ensures saved == old(saved).(deploying := saved.deploying)
      ensures saved.deploying.Some? ==> saved.deploying.value.release == old(saved.deploying).value.release
      ensures env.level == old(env.level) && env.settled == old(env.settled)
      ensures o.Ok? ==> env.secrets.services.Some?
                        && env.secrets.services.value.postgres == saved.modes.value.postgres
      ensures o.Ok? && saved.deploying.Some? ==> saved.deploying.value.rebooted.Present?
      ensures o.Ok? && saved.deploying.None? ==>
                forall x: Service :: x in env.running || (x.Scheduler? && SchedulerHeld(saved))
      ensures saved.deploying.Some? ==> Starts(run) == Starts(old(run))
    {
      if saved.deploying.Some? {
        :- NoteReboot();
      }
      :- DeliverSecrets(saved.modes.value.postgres);
      :- RunJob();  // images, and local data services
      o := Ok;
      if saved.deploying.None? {
        o := StartServices(saved.release.value, !SchedulerHeld(saved), false);
      }
    }

    /** Bring the installed release up, once per boot or when forced. */
    method Resume(force: bool) returns (o: Outcome)
      requires Valid() && (force ==> !RestoreUnfinished(saved))
      modifies `saved, `env, `run
      ensures Grew(old(run), run)
      ensures Valid()
      ensures saved.release == old(saved.release) && saved.failed == old(saved.failed)
      ensures saved.configuration == old(saved.configuration)
      ensures saved.deploying.Some? <==> old(saved.deploying).Some?
      ensures saved.deploying.Some? ==> saved.deploying.value.release == old(saved.deploying).value.release
      ensures !o.Failed?
      ensures !force && old(saved.stopped).Present? && old(saved.deploying).None? ==>
                saved == old(saved) && Starts(run) == Starts(old(run))
      ensures !force ==> saved.stopped == old(saved.stopped) && saved.stopping == old(saved.stopping)
      // A boot is dealt with, or the state says that its start failed.
      ensures o.Ok? && saved.release.Some? ==> env.settled.Present? || saved.resumeFailed.Present?
      // A start that deploy-now asked for, or a boot of an installation that is not stopped, is over, or the state
      // says that it is not.
      ensures o.Ok? && saved.release.Some? && saved.resumeFailed.Absent?
              && (force || (old(saved.stopped).Absent? && old(env.settled).Absent?)) ==>
                saved.stopped.Absent? && env.settled.Present?
                && env.secrets.services.Some? && env.secrets.services.value.postgres == saved.modes.value.postgres
                && (saved.deploying.None? ==> saved.restarting == {} && IsUp(saved, env))
    {
      if saved.release.None? { return Ok; }
      if !force && saved.stopped.Present? && saved.deploying.None? {
        o := SettleBoot();
        return;
      }
      if !force && env.secrets != NO_SECRETS {
        var due: bool := *;
        if (if saved.resumeFailed.Present? then !due else env.settled.Present?) { return Ok; }
      }
      // Unfinished until proved otherwise.
      if force && saved.stopped.Present? {
        :- SaveMarks(Absent, Absent, saved.restarting, Present);
      } else {
        :- SaveMarks(saved.stopped, saved.stopping, saved.restarting, Present);
      }
      o := StartInstalled();
      if o.Ok? {
        o := FinishResume();
      } else if o.Failed? {
        o := SaveMarks(saved.stopped, saved.stopping, saved.restarting, Present);
      }
    }

    /** The start worked: it is off the record, and so are the restarts, which only a deploy under way still needs. */
    method FinishResume() returns (o: Outcome)
      requires Valid() && saved.release.Some?
      requires saved.deploying.Some? ==> saved.deploying.value.rebooted.Present?
      requires saved.deploying.None? ==> forall x: Service :: x in env.running || (x.Scheduler? && SchedulerHeld(saved))
      modifies `saved, `env, `run
      ensures Valid() && !o.Failed?
      ensures saved == old(saved).(resumeFailed := Absent, restarting := saved.restarting)
      ensures saved.restarting == if saved.deploying.Some? then old(saved.restarting) else {}
      ensures o.Ok? ==> env == old(env).(settled := Present)
      ensures GrewQuietly(old(run), run)
    {
      o := SaveMarks(saved.stopped, saved.stopping, if saved.deploying.Some? then saved.restarting else {}, Absent);
      if !o.Ok? { return; }
      o := SettleBoot();
    }

    /** Complete a stop that is on record as unfinished. */
    method FinishStop() returns (o: Outcome)
      requires Valid()
      modifies `saved, `env, `run
      ensures Valid() && saved == old(saved).(stopping := saved.stopping) && GrewQuietly(old(run), run)
      ensures old(saved.stopping).Absent? ==> saved == old(saved) && env == old(env)
      ensures env == old(env).(running := env.running)
      ensures old(saved.stopping).Present? && saved.stopping.Absent? ==> Idle(env)
      ensures o.Ok? && old(saved.stopping).Present? && saved.deploying.None? ==>
                saved.stopping.Absent? && forall x: Service :: x !in env.running
    {
      if saved.stopping.Absent? || saved.deploying.Some? { return Ok; }
      :- StopServices();
      o := SaveMarks(saved.stopped, Absent, saved.restarting, saved.resumeFailed);
    }

    /** One restart left over: done again, or, for a scheduler held since, only forgotten. */
    method FinishRestart(x: Service) returns (o: Outcome)
      requires Valid() && saved.release.Some? && saved.deploying.None? && !RestoreUnfinished(saved)
      modifies `saved, `env, `run
      ensures Grew(old(run), run)
      ensures Valid() && saved == old(saved).(restarting := saved.restarting)
      ensures env.settled == old(env.settled)
      ensures o.Ok? ==> saved.restarting <= old(saved.restarting) - {x}
      ensures x.Scheduler? && SchedulerHeld(old(saved)) ==> env == old(env) && Starts(run) == Starts(old(run))
    {
      if x.Scheduler? && SchedulerHeld(saved) {
        o := NoteRestarts({}, {x});
      } else {
        o := Restart(x);
      }
    }

    /** Work through the list of restarts; on a stopped installation, only clear it. */
    method FinishRestarts() returns (o: Outcome)
      requires Valid()
      modifies `saved, `env, `run
      ensures Grew(old(run), run)
      ensures Valid() && saved == old(saved).(restarting := saved.restarting)
      ensures saved.stopped.Present? ==> Starts(run) == Starts(old(run)) && env == old(env)
      ensures old(saved.restarting) == {} ==> saved == old(saved) && env == old(env)
      ensures env.settled == old(env.settled)
      ensures o.Ok? && saved.deploying.None? && saved.resumeFailed.Absent? ==>
                saved.restarting == {} || (env.settled.Absent? && saved.stopped.Absent?)
    {
      var waiting := saved.restarting;
      if waiting == {} || saved.deploying.Some? || saved.resumeFailed.Present? { return Ok; }
      if saved.stopped.Present? {
        o := NoteRestarts({}, waiting);
        return;
      }
      if env.settled.Absent? { return Ok; }
      while waiting != {}
        invariant Valid() && saved == old(saved).(restarting := saved.restarting) && saved.restarting <= waiting
        invariant Grew(old(run), run) && env.settled == old(env.settled)
      {
        var x :| x in waiting;
        waiting := waiting - {x};
        :- FinishRestart(x);
      }
      o := Ok;
    }

    // -- roll-back ----------------------------------------------------------------------------

    /** How far a roll-back got, in case nothing more is recorded. */
    method SaveRollBack(steps: set<RollBackStep>, stopped: Mark) returns (o: Outcome)
      requires Valid() && !RollBackRefused(saved)
      requires HotStopped in steps && Checked !in steps ==>
                 stopped.Present? && OpenFailed(saved) && forall x: Service :: x !in env.running
      requires Checked in steps ==> PartlyMigrated(saved.failed.value) && Level(Now()) <= saved.release.value.latest
      requires Checked !in steps ==> !RestoreChecked(saved.failed.value)
      requires RestoreUnfinished(saved) ==> HotStopped in steps
      requires saved.stopping.Present? ==> stopped.Present?
      requires ServicesStand(World(WithRollBack(saved, steps, stopped), env))
      modifies `saved, `env, `run
      ensures Valid() && saved == WithRollBack(old(saved), steps, stopped) && env == old(env) && !o.Failed?
      ensures GrewQuietly(old(run), run)
    {
      RollBackSaveAllowed(Now(), steps, stopped);
      o := SaveState(WithRollBack(saved, steps, stopped));
    }

    /** Put the dump back over whatever the database holds. A failure can leave any part of it. */
    method RestoreFromDump(path: nat) returns (o: Outcome)
      requires Valid() && RestoreUnfinished(saved) && saved.modes.Some? && saved.modes.value.postgres.Local?
      requires PointOf(saved) == Some(Dump(path)) && path in env.backups && env.backups[path].made.Present?
      modifies `saved, `env, `run
      ensures Valid() && saved == old(saved) && GrewQuietly(old(run), run)
      ensures env == old(env).(level := old(env.level).(local := env.level.local))
      ensures o.Ok? ==> env.level.local == env.backups[path].level
    {
      o := Fate();
      var level: nat := *;
      if o.Ok? { level := env.backups[path].level; }
      Do(RestoreDump(path), saved, env.(level := env.level.With(Local, level)));
    }

    /** Stop Hot, restore the dump, and let the installed release check the database. */
    method RestoreDatabase(path: nat) returns (o: Outcome, steps: set<RollBackStep>)
      requires Valid() && !RollBackRefused(saved) && OpenFailed(saved) && PointOf(saved) == Some(Dump(path))
      requires saved.deploying.None? && saved.modes.value.postgres.Local?
      requires env.secrets.jobs.Some? && env.secrets.jobs.value.postgres.Local?
      modifies `saved, `env, `run
      ensures Valid() && GrewQuietly(old(run), run)
      ensures saved.failed.Some? && saved == old(saved).(failed := saved.failed, stopped := saved.stopped)
      ensures env.secrets == old(env.secrets) && env.leftByRollBack == old(env.leftByRollBack)
      ensures env.settled == old(env.settled)
      ensures steps == {} ==> saved == old(saved) && !o.Ok?
      ensures steps != {} && !o.Killed? ==>
                HotStopped in steps && (Checked in steps <==> o.Ok?)
                && saved == WithRollBack(old(saved), if o.Ok? then steps else {HotStopped}, Present)
      ensures o.Ok? ==> env.level.local == saved.release.value.latest
    {
      steps := {};
      :- RunJob();  // room for the dump
      :- StopServices();
      steps := {HotStopped};
      // Saved before the database is touched.
      :- SaveRollBack(steps, Present);
      :- RestoreFromDump(path);
      steps := steps + {Restored};
      :- RunMigrate(saved.release.value, Local);
      :- RunJob();
      steps := steps + {Checked};
      // Saved before anything can write to it.
      o := SaveRollBack(steps, Present);
    }

    /** Save how far a failed roll-back got: no less than an earlier one whose restore it did not redo. */
    method RollBackFailed(wasStopped: Mark, steps: set<RollBackStep>) returns (o: Outcome)
      requires Valid() && !RollBackRefused(saved)
      requires HotStopped in steps && Checked !in steps ==> RestoreUnfinished(saved)
      requires Checked in steps <==> RestoreChecked(saved.failed.value)
      requires saved.stopping.Present? ==> wasStopped.Present?
      requires PartlyMigrated(saved.failed.value) || saved.stopped == wasStopped
      modifies `saved, `env, `run
      ensures Valid() && !o.Ok? && env == old(env) && GrewQuietly(old(run), run)
      ensures saved.failed.Some? && saved == old(saved).(failed := saved.failed, stopped := saved.stopped)
      ensures saved.failed.value == old(saved.failed).value.(rollBack := saved.failed.value.rollBack)
      ensures Restoring(saved.failed.value) <==> old(RestoreUnfinished(saved))
      ensures RestoreChecked(saved.failed.value) <==> RestoreChecked(old(saved.failed).value)
      ensures saved.stopped.Present? <==> wasStopped.Present? || Restoring(saved.failed.value)
    {
      var failed := saved.failed.value;
      var reached := if Restoring(failed) && HotStopped !in steps then RollBackSteps(failed) else steps;
      var restoring := HotStopped in reached && Checked !in reached;
      o := SaveRollBack(reached, if restoring then Present else wasStopped);
      if o.Ok? { o := Failed; }
    }

    /** Restore the database, unless that was done, and start the installed release on it. */
    method RestoreAndStart() returns (o: Outcome, steps: set<RollBackStep>)
      requires Valid() && !RollBackRefused(saved)
      requires env.secrets.services.Some? && env.secrets.services.value.postgres == saved.modes.value.postgres
      requires env.secrets.jobs == env.secrets.services
      modifies `saved, `env, `run
      ensures old(run) <= run
      ensures Valid() && saved.failed.Some? && saved == old(saved).(failed := saved.failed, stopped := saved.stopped)
      ensures !o.Killed? ==> saved.failed.value == old(saved.failed).value.(rollBack := saved.failed.value.rollBack)
      ensures !o.Killed? && HotStopped in steps && Checked !in steps ==> RestoreUnfinished(saved)
      ensures !o.Killed? ==> (Checked in steps <==> RestoreChecked(saved.failed.value))
      ensures PartlyMigrated(old(saved.failed).value) || saved == old(saved)
      ensures env.secrets == old(env.secrets)
      ensures (forall x: Service :: Explained(old(saved), old(env.settled), x)) ==>
                env.leftByRollBack <= old(env.leftByRollBack)
      ensures o.Ok? ==> !Open(saved) && forall x: Service ::
                x in env.running && env.running[x] == Instance(saved.release.value, saved.modes.value.postgres)
    {
      var failed := saved.failed.value;
      steps := if RestoreChecked(failed) then RollBackSteps(failed) else {};
      :- RunJob();  // images
      if PartlyMigrated(failed) && !RestoreChecked(failed) {
        o, steps := RestoreDatabase(failed.restorePoint.value.path);
        if !o.Ok? { return; }
      }
      o := StartServices(saved.release.value, true, !PartlyMigrated(failed));
    }

    /** Roll a failed deploy back: its migrations, if any, then a start. */
    method RollBack() returns (o: Outcome)
      requires Valid()
      modifies `saved, `env, `run
      ensures old(run) <= run
      ensures Valid()
      ensures RollBackRefused(old(saved)) ==> o.Failed? && saved == old(saved) && env == old(env) && run == old(run)
      ensures run != old(run) ==>
                && old(saved.release).Some? && old(saved.failed).Some?
                && !(old(saved.deploying).Some? && PartlyMigrated(old(saved.deploying).value))
                && var f := old(saved.failed).value;
                && !MovedData(f) && !ObjectsTouched(f)
                && (PartlyMigrated(f) ==> f.rolledBack.Absent? && f.pointedBack.Absent?
                                          && f.restorePoint.Some? && f.restorePoint.value.Dump?)
      ensures o.Ok? ==> saved == RolledBack(old(saved)) && env.settled.Present? && !Open(saved)
                        && env.secrets.services.Some?
                        && env.secrets.services.value.postgres == saved.modes.value.postgres
      ensures o.Ok? ==> forall x: Service ::
                x in env.running && env.running[x] == Instance(saved.release.value, saved.modes.value.postgres)
      // It leaves no service down that nothing accounts for, if everything was accounted for before it.
      ensures (forall x: Service :: Explained(old(saved), old(env.settled), x)) ==>
                env.leftByRollBack <= old(env.leftByRollBack)
      ensures saved.release == old(saved.release) && saved.deploying == old(saved.deploying)
      ensures saved.failed.Some? <==> old(saved.failed).Some?
    {
      if RollBackRefused(saved) { return Failed; }
      var state := saved;
      :- DeliverSecrets(saved.modes.value.postgres);
      var steps: set<RollBackStep>;
      o, steps := RestoreAndStart();
      if o.Failed? {
        o := RollBackFailed(state.stopped, steps);
      } else if o.Ok? {
        o := FinishRollBack(state);
      }
    }

    method FinishRollBack(state: Saved) returns (o: Outcome)
      requires Valid() && !RollBackRefused(saved) && !Open(saved) && state.failed.Some?
      requires RolledBack(state) == RolledBack(saved)
      requires forall x: Service :: x in env.running
      modifies `saved, `env, `run
      ensures old(run) <= run
      ensures Valid() && saved == RolledBack(state) && !o.Failed?
      ensures env == old(env).(settled := env.settled)
      ensures o.Ok? ==> env.settled.Present?
    {
      RolledBackSaveAllowed(Now());
      :- SaveState(RolledBack(state));
      o := SettleBoot();
    }

    // -- the loop and the commands ---------------------------------------------------------------

    /** Let the installed release migrate and check a database restored by others. */
    method CheckPointedBack() returns (o: Outcome)
      requires Valid() && saved.release.Some? && saved.deploying.None?
      modifies `saved, `env, `run
      ensures Valid() && saved == old(saved) && GrewQuietly(old(run), run)
      ensures env == old(env).(secrets := env.secrets, clock := env.clock, level := env.level)
      ensures o.Ok? ==> Level(Now()) == saved.release.value.latest
    {
      o := DeliverSecrets(saved.modes.value.postgres);
      if !o.Ok? { return; }
      :- StartInstalledData();
      :- RunMigrate(saved.release.value, saved.modes.value.postgres);
      o := RunJob();
    }

    /** End a failed attempt whose way back is naming the installed release. */
    method SettlePointedBack(desired: Option<Release>) returns (o: Outcome)
      requires Valid() && saved.release.Some? && saved.deploying.None? && !RestoreUnfinished(saved)
      modifies `saved, `env, `run
      ensures Valid() && GrewQuietly(old(run), run)
      ensures saved == old(saved) || (EndsByPointingBack(old(saved), desired) && saved == PointedBack(old(saved)))
      ensures o.Ok? && EndsByPointingBack(old(saved), desired) ==> saved == PointedBack(old(saved))
      ensures o.Failed? ==> saved == old(saved)
      ensures o.Ok? && desired == saved.release && old(saved.stopped).Present? && old(saved.failed).Some? ==>
                var f := old(saved.failed).value;
                f.rolledBack.Absent? && !MovedData(f) && (PartlyMigrated(f) || ObjectsMoving(f))
                && !(PartlyMigrated(f) && f.restorePoint.Some? && f.restorePoint.value.Dump?) ==>
                  saved.failed == Some(f.(rolledBack := Present, pointedBack := Present))
      ensures EndsByPointingBack(old(saved), desired) && ObjectsMoved(old(saved.failed).value) ==>
                o.Failed? && run == old(run)
      ensures run != old(run) ==>
                && desired == saved.release && old(saved.stopped).Present? && old(saved.failed).Some?
                && var f := old(saved.failed).value;
                && f.rolledBack.Absent? && !MovedData(f) && !ObjectsMoved(f) && (PartlyMigrated(f) || ObjectsMoving(f))
                && !(PartlyMigrated(f) && f.restorePoint.Some? && f.restorePoint.value.Dump?)
      ensures o.Ok? && EndsByPointingBack(old(saved), desired) && PartlyMigrated(saved.failed.value) ==>
                Level(Now()) == saved.release.value.latest
    {
      if !EndsByPointingBack(saved, desired) { return Ok; }
      if StorageProgress(saved.failed.value) == Moved { return Failed; }
      if PartlyMigrated(saved.failed.value) {
        :- CheckPointedBack();
      }
      PointedBackSaveAllowed(Now(), desired);
      o := SaveState(PointedBack(saved));
    }

    /** Deploy, and recover if that fails. */
    method DeployOrRecover(release: Release, storage: set<StorageRole>) returns (o: Outcome)
      requires Valid() && !RestoreUnfinished(saved)
      requires storage != {} ==> saved.release.Some?
      modifies `saved, `env, `run
      ensures old(run) <= run
      ensures Valid()
      ensures o.Ok? ==> Ended(old(saved), saved, env, release, config)
      ensures o.Failed? ==> old(saved.deploying).Some? && old(saved.deploying).value.release != release
      // A first deploy refused before its secrets step leaves every service's files as they were, unless its
      // recovery writes them, or there were no secrets and its checks supplied the installed ones.
      ensures o.Ok? && saved.failed.Some? && Secrets !in saved.failed.value.steps
              && (storage == {} || Verified !in saved.failed.value.steps) && old(saved.deploying).None? ==>
                && (!RefusalRewrites(old(saved), old(env), saved.failed.value.steps, config.modes) ==>
                      || env.secrets.services == old(env.secrets.services)
                      || Supplied(old(env.secrets), env.secrets.services, old(saved)))
                && (RefusalRewrites(old(saved), old(env), saved.failed.value.steps, config.modes)
                    && !Open(old(saved)) && saved.resumeFailed.Absent? ==>
                      if old(env.kept).Some? then env.secrets.services == old(env.kept).value.services
                      else Freshly(old(env), env))
      // One that began to move objects had written them.
      ensures o.Ok? && saved.failed.Some? && Secrets !in saved.failed.value.steps
              && StorageMoving in saved.failed.value.steps && old(saved.deploying).None? ==>
                Freshly(old(env), env)
    {
      o := RunJob();  // the host's own readiness
      if o.Ok? {
        o := Deploy(release, storage);
        Runs.ClockGoesOn(run, |old(run)| - 1, |run| - 1);
        if o.Failed? && old(saved.deploying).None?
           && Secrets !in saved.deploying.value.steps && (storage == {} || Verified !in saved.deploying.value.steps)
        {
          RefusalMeans(old(saved), old(env), saved, env, config.modes);
        }
      }
      if o.Failed? {
        o := Recover(release);
      }
    }

    /** Whether the configuration, or this host's address, asks for the installed release again. */
    method Changed(desired: Option<Release>, retry: bool) returns (changed: bool)
      ensures changed <==>
                || (saved.configuration.Some? && saved.configuration.value != config.digest)
                || (config.readdressed.Present? && (retry || saved.stopped.Absent? || saved.deploying.Some?))
                || (config.unmounted.Present? && retry && desired.Some? && desired == saved.release)
    {
      changed := (saved.configuration.Some? && saved.configuration.value != config.digest)
                 || ((retry || saved.stopped.Absent? || saved.deploying.Some?) && config.readdressed.Present?);
      if retry && !changed && desired.Some? && desired == saved.release {
        changed := config.unmounted.Present?;
      }
    }

    /** Act on the release pointer and the configuration; `reported` is whether that came to anything. */
    method Reconcile(desired: Option<Release>, retry: bool) returns (o: Outcome, reported: bool)
      requires Valid()
      modifies `saved, `env, `run
      ensures old(run) <= run
      ensures Valid()
      ensures !reported ==> saved == old(saved) && env == old(env) && run == old(run) && !o.Killed?
      // Nothing is asked for: only a deploy that was interrupted comes to its end, as a failure.
      ensures AsksForNothing(old(saved), config, desired, retry) ==>
                && !o.Failed? && (reported <==> desired.Some? && old(saved.deploying).Some?)
                && (reported && o.Ok? ==> FailedAs(old(saved), saved))
      // A failed release waits, and so does everything while only a roll-back may come next.
      ensures !AsksForNothing(old(saved), config, desired, retry) && WaitsToBeAsked(old(saved), desired, retry) ==>
                o.Ok? && !reported
      ensures !AsksForNothing(old(saved), config, desired, retry) && !WaitsToBeAsked(old(saved), desired, retry)
              && OnlyRollBackNext(old(saved), desired) ==>
                && (reported <==> old(saved.deploying).Some? && PartlyMigrated(old(saved.deploying).value))
                && (!reported ==> (o.Failed? <==> retry)) && (reported && o.Ok? ==> FailedAs(old(saved), saved))
      // Anything else is deployed, and that ends.
      ensures !AsksForNothing(old(saved), config, desired, retry) && !WaitsToBeAsked(old(saved), desired, retry)
              && !OnlyRollBackNext(old(saved), desired) ==>
                && reported && (o.Ok? ==> Ended(old(saved), saved, env, desired.value, config))
                && (o.Failed? ==> old(saved.deploying).Some? && Some(old(saved.deploying).value.release) != desired)
      ensures !retry && Quiet(old(saved), config.digest, desired) ==> o.Ok? && !reported
      ensures RestoreUnfinished(old(saved)) ==> !reported
      ensures old(saved.stopped).Present? && (AsksForNothing(old(saved), config, desired, retry)
                                              || OnlyRollBackNext(old(saved), desired)) ==>
                GrewQuietly(old(run), run)
    {
      reported := false;
      var changed := Changed(desired, retry);
      var interrupted := saved.deploying;
      if desired.None? || (desired == saved.release && !changed) {
        if desired.Some? && interrupted.Some? {
          // The pointer and the configuration went back meanwhile.
          reported := true;
          o := Recover(interrupted.value.release);
          return;
        }
        return Ok, false;
      }
      if !retry && saved.failed.Some? && Some(saved.failed.value.release) == desired
         && !(interrupted.Some? && Some(interrupted.value.release) == desired)
      {
        return Ok, false;
      }
      if RestorePending(saved, desired) {
        if interrupted.Some? && PartlyMigrated(interrupted.value) {
          reported := true;
          o := Recover(interrupted.value.release);
          return;
        }
        return (if retry then Failed else Ok), false;
      }
      reported := true;
      o := DeployOrRecover(desired.value, if saved.release.Some? then config.storage else {});
    }

    /** Recreate one service, unless what the state says forbids it. */
    method RestartOne(x: Service) returns (o: Outcome)
      requires Valid() && saved.release.Some?
      modifies `saved, `env, `run
      ensures old(run) <= run
      ensures Valid() && saved == old(saved).(restarting := saved.restarting)
      ensures RestartRefused(old(saved), old(env), x) ==> o.Failed? && saved == old(saved) && run == old(run)
      ensures run != old(run) ==>
                && old(saved.stopping).Absent? && !RestoreUnfinished(old(saved)) && !AwaitsRollBack(old(saved))
                && !(old(saved.deploying).Some? && ObjectsMoving(old(saved.deploying).value))
                && !(old(saved.failed).Some? && ObjectsMoving(old(saved.failed).value)
                     && old(saved.failed).value.rolledBack.Absent?)
                && !(x.Scheduler? && SchedulerHeld(old(saved)))
      ensures o.Ok? ==> env.secrets.services.Some?
                        && env.secrets.services.value.postgres == saved.modes.value.postgres
                        && saved.restarting <= old(saved.restarting) - {x}
                        && x in env.running
                        && env.running[x] == Instance(saved.release.value, saved.modes.value.postgres)
    {
      if RestartRefused(saved, env, x) { return Failed; }
      :- RunJob();  // the operator's secrets
      :- DeliverSecrets(saved.modes.value.postgres);
      o := Restart(x);
    }

    /** Stop all of Hot for good: on record as stopped, and unfinished, before the first service goes. */
    method StopAll() returns (o: Outcome)
      requires Valid() && saved.release.Some?
      modifies `saved, `env, `run
      ensures Valid() && saved.stopped.Present? && saved.restarting == {} && GrewQuietly(old(run), run)
      ensures saved.failed == old(saved.failed)
      ensures o.Ok? ==> saved.stopping.Absent? && forall x: Service :: x !in env.running
      ensures o.Failed? ==> saved.stopping.Present?
    {
      o := SaveMarks(Present, Present, {}, saved.resumeFailed);
      if !o.Ok? { return; }
      :- StopServices();
      o := SaveMarks(Present, Absent, {}, saved.resumeFailed);
    }

    /** An extra dump beside the others, which no pruning counts. */
    method BackUpNow() returns (o: Outcome, path: nat)
      requires Valid() && saved.release.Some?
      modifies `saved, `env, `run
      ensures Valid() && saved == old(saved) && GrewQuietly(old(run), run)
      ensures o.Ok? ==> path !in old(env.backups)
                        && env.backups == old(env.backups)[path := DumpOf(env, Manual)]
    {
      path := 0;
      if !saved.modes.value.postgres.Local? { return Failed, path; }
      :- StartInstalledData();
      o, path := DumpPostgres(Manual);
    }

    /** Bring up an installation that is down, or else finish its restarts. */
    method StartAsked(desired: Option<Release>) returns (o: Outcome)
      requires Valid() && (desired.Some? ==> saved.deploying.None?)
      modifies `saved, `env, `run
      ensures old(run) <= run
      ensures Valid() && saved.release == old(saved.release)
      ensures saved.deploying.Some? <==> old(saved.deploying).Some?
      ensures OnlyRollBackNext(old(saved), desired) && old(saved.stopped).Present? ==>
                o.Failed? && saved == old(saved) && env == old(env) && run == old(run)
      ensures o.Ok? && saved.release.Some? && saved.resumeFailed.Absent? && saved.deploying.None? ==>
                && saved.stopped.Absent? && env.settled.Present? && saved.restarting == {}
                && (old(saved.stopped).Present? || old(saved.resumeFailed).Present? || old(env.settled).Absent? ==>
                      IsUp(saved, env) && env.secrets.services.Some?
                      && env.secrets.services.value.postgres == saved.modes.value.postgres)
    {
      if saved.stopped.Present? || saved.resumeFailed.Present? || (saved.release.Some? && env.settled.Absent?) {
        if RestorePending(saved, desired) { return Failed; }
        if desired.Some? && saved.release.Some? {
          :- SettlePointedBack(desired);
        }
        o := Resume(true);
      } else {
        o := FinishRestarts();
      }
    }

    /** Reconcile on demand, or, with nothing to deploy, bring up an installation that is down. `answered` is whether
        this request had its answer already. */
    method DeployAsked(desired: Option<Release>) returns (o: Outcome, answered: bool)
      requires Valid()
      modifies `saved, `env, `run
      ensures old(run) <= run
      ensures Valid()
      ensures answered || RestoreUnfinished(old(saved)) ==> saved == old(saved) && env == old(env) && run == old(run)
      // Nothing starts on a database that awaits roll-back while the installed release is named.
      ensures AwaitsRollBack(old(saved)) && desired == old(saved.release) ==> GrewQuietly(old(run), run)
      // A new release, or the installed one on a new configuration, is deployed, and that ends.
      ensures !answered && o.Ok? && !AsksForNothing(old(saved), config, desired, true) ==>
                || Ended(old(saved), saved, env, desired.value, config)
                || (OnlyRollBackNext(old(saved), desired) && FailedAs(old(saved), saved))
      // Otherwise the interrupted deploy ends, or Hot is up, unless the state says that its start failed.
      ensures !answered && o.Ok? && AsksForNothing(old(saved), config, desired, true) ==>
                || FailedAs(old(saved), saved)
                || (desired.None? && old(saved.deploying).Some?)
                || saved.release.None? || saved.resumeFailed.Present?
                || (&& saved.stopped.Absent? && env.settled.Present? && saved.restarting == {}
                    && (old(saved.stopped).Present? || old(saved.resumeFailed).Present? || old(env.settled).Absent? ==>
                          IsUp(saved, env)))
    {
      answered := *;
      if answered { return Ok, true; }
      var reported: bool;
      o, reported := Reconcile(desired, true);
      if !o.Ok? || reported { return; }
      o := StartAsked(desired);
    }

    method Perform(c: Command, desired: Option<Release>) returns (o: Outcome, answered: bool)
      requires Valid()
      modifies `saved, `env, `run
      ensures old(run) <= run
      ensures Valid()
      // Only roll-back goes on from a restore that is not over: no other command starts Hot on its database.
      ensures RestoreUnfinished(old(saved)) && !c.RollBackNow? ==>
                saved.failed == old(saved.failed) && Starts(run) == Starts(old(run))
      ensures c.Inspect? || (old(saved.release).None? && !c.DeployNow?) ==> run == old(run) && (o.Ok? <==> c.Inspect?)
      ensures c.DrainAndStop? && o.Ok? ==> saved.stopped.Present? && forall x: Service :: x !in env.running
      ensures c.RestartService? && o.Ok? ==>
                && saved.release.Some? && saved.modes.Some? && c.service in env.running
                && env.running[c.service] == Instance(saved.release.value, saved.modes.value.postgres)
      ensures c.RollBackNow? && o.Ok? ==>
                && saved.release.Some? && saved.modes.Some?
                && saved.failed.Some? && saved.failed.value.rolledBack.Present?
                && saved.stopped.Absent? && !Open(saved)
                && forall x: Service ::
                     x in env.running && env.running[x] == Instance(saved.release.value, saved.modes.value.postgres)
      ensures c.BackUp? && o.Ok? ==>
                saved == old(saved) && exists path: nat :: path !in old(env.backups)
                                                      && env.backups == old(env.backups)[path := DumpOf(env, Manual)]
      ensures c.DeployNow? && o.Ok? && !answered && desired.Some? && desired != old(saved.release)
              && !OnlyRollBackNext(old(saved), desired) ==>
                Ended(old(saved), saved, env, desired.value, config)
      ensures c.DeployNow? && AwaitsRollBack(old(saved)) && desired == old(saved.release) ==>
                Starts(run) == Starts(old(run))
    {
      answered := false;
      if c.DeployNow? {
        o, answered := DeployAsked(desired);
      } else if saved.release.None? || c.Inspect? {
        o := if c.Inspect? then Ok else Failed;
      } else {
        match c
        case RestartService(x) => o := RestartOne(x);
        case DrainAndStop => o := StopAll();
        case RollBackNow => o := RollBack();
        case BackUp => var path: nat; o, path := BackUpNow();
      }
    }

    /** What a cycle does first: the start a boot asks for, a stop to finish, restarts to finish. */
    method TidyUp() returns (o: Outcome)
      requires Valid()
      modifies `saved, `env, `run
      ensures Valid() && Grew(old(run), run) && !o.Failed?
      ensures saved.release == old(saved.release) && saved.failed == old(saved.failed)
      ensures saved.configuration == old(saved.configuration) && saved.stopped == old(saved.stopped)
      ensures saved.deploying.Some? <==> old(saved.deploying).Some?
      ensures saved.deploying.Some? ==> saved.deploying.value.release == old(saved.deploying).value.release
      ensures RestoreUnfinished(old(saved)) || (old(saved.stopped).Present? && old(saved.deploying).None?) ==>
                Starts(run) == Starts(old(run))
      // A boot is dealt with, or the state says that its start failed; a stop is over, or the state says it is not.
      ensures o.Ok? && saved.release.Some? ==> env.settled.Present? || saved.resumeFailed.Present?
      ensures o.Ok? && saved.release.Some? && saved.resumeFailed.Absent? && saved.deploying.None?
              && old(saved.stopped).Absent? && old(env.settled).Absent? ==>
                IsUp(saved, env)
      ensures o.Ok? && old(saved.stopping).Present? && saved.stopping.Absent? && saved.deploying.None? ==> Idle(env)
    {
      o := Resume(false);
      if o.Killed? { return; }
      o := FinishStop();
      if o.Killed? { return; }
      o := FinishRestarts();
      if o.Failed? { o := Ok; }
    }

    /** One turn of the loop without its commands. No step's failure keeps the next from running. */
    method Cycle(found: Config, desired: Option<Release>) returns (o: Outcome)
      requires Valid()
      modifies this
      ensures old(run) <= run
      ensures Valid() && config == found && !o.Failed?
      ensures RestoreUnfinished(old(saved)) ==> saved.failed == old(saved.failed) && Starts(run) == Starts(old(run))
      ensures FailedNamed(old(saved), desired) ==>
                FailedNamed(saved, desired) && saved.failed == old(saved.failed) && Grew(old(run), run)
      ensures Quiet(old(saved), found.digest, desired) ==>
                Quiet(saved, found.digest, desired) && GrewQuietly(old(run), run)
      // A new release is deployed, and that ends; a deploy that was interrupted is taken up.
      ensures o.Ok? && desired.Some? && desired != old(saved.release) && !RestoreUnfinished(old(saved))
              && (old(saved.failed).None? || Some(old(saved.failed).value.release) != desired)
              && (old(saved.deploying).None? || Some(old(saved.deploying).value.release) == desired) ==>
                Ended(old(saved), saved, env, desired.value, found)
      // With nothing new, a boot is answered, or the state says that its start failed.
      ensures o.Ok? && old(saved.release).Some? && old(saved.deploying).None? && old(saved.stopped).Absent?
              && old(env.settled).Absent? && AsksForNothing(old(saved), found, desired, false) ==>
                saved.resumeFailed.Present? || (env.settled.Present? && IsUp(saved, env))
      ensures o.Ok? && old(saved.stopping).Present? && old(saved.deploying).None?
              && AsksForNothing(old(saved), found, desired, false) ==>
                saved.stopping.Present? || Idle(env)
    {
      config := found;
      o := TidyUp();
      if o.Killed? { return; }
      var reported: bool;
      o, reported := Reconcile(desired, false);
      if o.Failed? { o := Ok; }
    }

    /** A reboot stops everything and empties the tmpfs. */
    method Boot()
      requires Valid()
      modifies `saved, `env, `run
      ensures Valid() && saved == old(saved) && GrewQuietly(old(run), run)
      ensures env.settled.Absent? && env.running == map[] && env.secrets == NO_SECRETS
    {
      Do(Reboot, saved, env.(running := map[], secrets := NO_SECRETS, kept := None, settled := Absent));
    }

    /** Someone restores a database that is not on this host. */
    method RestoreElsewhere(on: Mode, level: nat)
      requires Valid() && !on.Local? && level <= env.level.At(on)
      modifies `saved, `env, `run
      ensures old(run) <= run
      ensures Valid() && saved == old(saved) && env == old(env).(level := old(env.level).With(on, level))
    {
      Do(RestoredElsewhere(on), saved, env.(level := env.level.With(on, level)));
    }

    /** Any life of the host: cycles and commands, each perhaps killed, and boots, with whatever pointer and
        configuration each finds. */
    method Live(turns: nat)
      requires Valid()
      modifies this
      ensures old(run) <= run
      ensures Valid() && forall i | 0 <= i < |run| :: Runs.SafeAt(run, i)
    {
      for i := 0 to turns
        invariant Valid() && old(run) <= run
      {
        var o: Outcome, found: Config, desired: Option<Release>, c: Command := *, *, *, *;
        if * {
          o := Cycle(found, desired);
        } else if * {
          config := found;
          var answered: bool;
          o, answered := Perform(c, desired);
        } else if * {
          Boot();
        } else {
          var on: Mode, level: nat := *, *;
          if !on.Local? && level <= env.level.At(on) { RestoreElsewhere(on, level); }
        }
      }
      Runs.EveryRunIsSafe(run);
    }

    /** Left alone, on one release pointer and configuration, a stopped installation does nothing. */
    method StayQuiet(turns: nat, desired: Option<Release>)
      requires Valid() && Quiet(saved, config.digest, desired)
      modifies this
      ensures Valid() && Quiet(saved, config.digest, desired) && GrewQuietly(old(run), run)
      ensures forall k | |old(run)| <= k < |run| :: run[k].world.saved.deploying.None?
    {
      for i := 0 to turns
        invariant Valid() && config == old(config) && Quiet(saved, config.digest, desired)
        invariant GrewQuietly(old(run), run)
      {
        if * {
          var o := Cycle(config, desired);
        } else {
          Boot();
        }
      }
      Runs.NoDeployBegins(old(run), run);
    }

    /** A release that failed is not deployed again until the release pointer moves or deploy-now asks. */
    method StayFailed(turns: nat, desired: Option<Release>)
      requires Valid() && FailedNamed(saved, desired)
      modifies this
      ensures Valid() && FailedNamed(saved, desired) && saved.failed == old(saved.failed) && Grew(old(run), run)
      ensures forall k | |old(run)| <= k < |run| :: run[k].world.saved.deploying.None?
    {
      for i := 0 to turns
        invariant Valid() && FailedNamed(saved, desired) && saved.failed == old(saved.failed)
        invariant Grew(old(run), run)
      {
        var found: Config := *;
        if * {
          var o := Cycle(found, desired);
        } else {
          Boot();
        }
      }
      Runs.NoDeployBegins(old(run), run);
    }
  }
}
