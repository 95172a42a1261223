# Hot's host agent, proved over every run

Hot installs itself on customers' machines through a host agent (`infra/agent/hot_agent.py`). A
deploy is a long chain of effects: stop the scheduler, drain, dump, move the data or the stored
objects, take a restore point, migrate, start services. The agent saves its progress after each
step, and it can be killed, or its host rebooted, between any two. What it does next is decided from
one state file. This project models that agent as a crash-recoverable state machine and proves what
holds over all its runs, then two protocols between hosts and five smaller algorithms whose
promises are round trips, conservation or optimality.

## How it is built

- `Records.dfy`: the state file and a deploy's record, what can be read off them, and what a deploy
  inherits from the attempts before it.
- `Protocol.dfy`: a `World` is the state file and the host around it (migration ledgers, dumps,
  running services, delivered secrets, bundles, whether the boot is settled). `Allowed` says which
  single effects may happen in a world, `Inv` is the invariant they all keep, and a run is any
  sequence of them from a fresh host.
- `Runs.dfy`: theorems about every run.
- `Agent.dfy`: the agent itself, a class whose methods follow the source's. Every change goes through
  `Do`, which appends it to the ghost field `run` and demands that it is allowed, so each method
  is proved to make only runs, and the theorems hold of whatever the agent does. A method ends `Ok`, `Failed` (it
  raised) or `Killed`: after any effect the agent may be gone, and whatever runs next starts from the saved state.
- `Gaps.dfy`: promises that do not hold at every crash point, each with the states that show it and,
  where the code meets the promise after all, exactly when.
- `ScalableRelease.dfy`, `CreateOnce.dfy`: the release helper over changing groups of hosts and failing reads,
  and create-once secrets as an interleaving of hosts.
- `LogBatches.dfy`, `ServiceFile.dfy`, `Escaping.dfy`, `Commands.dfy`, `DeadLetters.dfy`: one algorithm each.

`dafny verify dfyconfig.toml` checks all of it.

## What the model takes as given

- A save replaces the state file whole and succeeds. Directory swaps (bundles, secret trees) are atomic, and one
  that raises has been made.
- A migration raises a ledger at most to its release's level, may stop partway, and refuses a ledger that is
  newer. It migrates the database that the job's own delivered secrets name. A migration status job reads that one
  too, and `LevelByTheJob` proves it to be the installation's where the configuration moves no data service. Where
  it does, this is assumed: with secrets astray it would be another (2479-2481). A database off this host changes
  otherwise only by a restore, which lowers it.
- A start or stop that fails can have taken any part of its effect; a restore that fails can leave any level. A
  start with no delivered secrets brings nothing up, since every service mounts them.
- A running service keeps the release and the database it was created with.
- A kill during a dump leaves its directory without one, which pruning counts and no restore can use.
- Docker's own restarts do not happen; the data services' own starts change nothing modelled.
- A dump's path orders it in time, as its modification time does.
- Whether the host's address or the operator's secrets changed, whether the installed bundle can say its database's
  level, and which roles' storage is configured elsewhere are inputs (`Config`), as the configuration is.
- Within one operation the release pointer reads the same throughout, and a release name stands for one
  manifest.

## Where the source and its promises part

- The two saves at `infra/agent/hot_agent.py:2328-2329`, and the two at 4520-4528, are one save each in the
  model: between them a kill breaks a promise, exactly under the conditions of `Gaps.ModesSavedBeforeTheStep`
  and `Gaps.StopTakenBackBeforeTheStart`.
- "Services use the installation's database" fails in two ways, and in no other (`Runs.AstrayComesFrom`). Secrets
  kept for a data move go back after that move's deploy finished, because a kill between its last save (2362)
  and their removal (2371) left them there (`Runs.PutBackAstrayExactly`, `Runs.LeftOverFromAFinish`, and the whole
  story in `Gaps.KeptSecretsOutliveTheirDeploy`). Or a move fails after its new secrets were delivered, its recovery
  puts the bundle of a redeployed release back first (3183), that raises, and the kept secrets are dropped unread at
  3115. `HostAgent.Agent.Recover` promises that services get the kept ones back unless a bundle goes back first
  (`HostAgent.BundleFirst`), `Gaps.ABundleFirstCanGoAstray` that they may not whenever one does, and
  `Gaps.TheRetryStartsWorkers` what then runs where. Such secrets are called astray.
- "Every service that is down is accounted for" fails for a roll-back that has nothing to restore, whose start fails
  at a service that was up and that nothing accounted for before it (`Gaps.RollBackLosesExactly`).
  `Runs.NoServiceIsLost` holds without exception in every run in which each such start found everything accounted for.
  A failed record also accounts for services when it says data or objects moved, which the installed release cannot
  run without.
- "A running scheduler's release knows its database's schema" fails only for a scheduler started with secrets astray,
  and when the installed release is pointed back at while an older release's scheduler still runs on that database
  (`Runs.RunningSchedulerKnowsItsSchema`, `Gaps.PointingBackOutrunsExactly`). Both happen
  (`Gaps.AStartAstrayOnANewerSchema`, `Gaps.ASchedulerLeftBehind`).
- "No roll-back after a data move" has one exception (`Gaps.RollBackAfterAMove`).
- "A deploy refused before its secrets step changes no file a service reads" fails in two ways, both stated at
  `HostAgent.Agent.DeployOrRecover`. Its recovery writes them (`HostAgent.RefusalRewrites`): there were kept secrets, or
  other data services were configured, and Hot was stopped over open migrations, or a drain had begun and the secrets
  were not kept yet, or a checked roll-back's start was unfinished; `Gaps.ADrainThatFails` is such an input. Or the host
  had no secrets at all, as after a boot while Hot was stopped, and the deploy's own checks, or its drain, delivered
  the installed ones (`HostAgent.Supplied`, `Gaps.NoSecretsAreSupplied`, and the input in `Gaps.ARefusalAfterABoot`).
  A storage move delivers secrets on purpose before it stops anything, so the promise does not cover a deploy that
  came to that.
- "A request ID runs at most once while fewer than 200 other IDs come between two of its deliveries" holds for
  IDs recorded since it last ran, not since its last delivery (`Commands.RedeliveryDoesNotRefresh`).
- "All writers keep version 1's value" needs their values apart (`CreateOnce.HostsAgreeExactlyWhenApart`). A host
  that found the secret there returns the latest version, which another host may still have to repair.

## Model

| member | source | states |
|---|---|---|
| `Records.CarriedOver` | infra/agent/hot_agent.py:2379-2421 | The loop over the interrupted and the failed attempt gives exactly `Inherit`: each fact comes from the newest attempt that stands and knows it, an attempt that is over passes nothing on, and what was stopped comes from the interrupted one alone |
| `Records.InheritsTheProgress` | infra/agent/hot_agent.py:2402-2413 | The storage progress a deploy inherits is moved, or moving, exactly if the newest attempt that counts and touched any objects moved all of them, or some; none without such an attempt |
| `Records.InheritsTheDatabase` | infra/agent/hot_agent.py:2392-2401 | It inherits a data move exactly if an attempt that counts made one, the migrating release that the newest partly migrated attempt names, and the restore point of the newest of those that has one |
| `Records.InheritsTheReports` | infra/agent/hot_agent.py:2402-2417 | It inherits the newest list of objects, and the newest reports of failed and left-behind ones, except an older attempt's where the newest speaks for itself |
| `Records.InheritsTheStops` | infra/agent/hot_agent.py:2418-2436 | It inherits exactly the stops of the interrupted attempt and those before it, a scheduler's from when it was begun, and a boot; nothing of a failed attempt's |
| `Records.CarryOverIsAFixpoint` | infra/agent/hot_agent.py:2184-2194 | A deploy killed right after its first save passes on exactly what it inherited, for any two attempts and any release |
| `Records.KillsNeitherLoseNorInvent` | infra/agent/hot_agent.py:2378-2436 | The same after any number of such kills, of any releases: restore point, partly migrated release, data and storage progress and stopped services are neither lost nor invented |
| `Protocol.AllowedKeepsInv` | infra/agent/hot_agent.py:4267-4300 | Every effect on the host (starts, stops, jobs, dumps, deliveries, bundles, a reboot, an operator) keeps the invariant that ties the state file to it. For a save, and for settling a boot, the invariant is a condition of `Allowed`: that the agent meets it is what the `...SaveAllowed` rows below prove |
| `Runs.SchemaAheadIsOnRecord` | infra/agent/hot_agent.py:3127-3131 | At every moment of every run, a database with migrations newer than the installed release's is on record: the deploy under way, or a failed one not rolled back, says migrations may be partly applied |
| `Runs.RestorePointSurvives` | infra/agent/hot_agent.py:2396-2401 | While migrations stand open, through any failures, kills and retries for any releases, the restore point stays the first one, and no dump is lost or replaced |
| `Runs.OpenedAt` | infra/agent/hot_agent.py:2340-2342 | Whenever migrations stand open, there is a save that opened them, on the same installation, and they have stood open since |
| `Runs.RollBackRestoresTheFirstPoint` | infra/agent/hot_agent.py:4750-4797 | For every restore of a roll-back there is the save that opened the migrations it undoes: they have stood open ever since, the dump restored is the one recorded then, and its migration level is the database's at that save |
| `Runs.NothingStartsDuringARestore` | infra/agent/hot_agent.py:4784-4803 | From the save that says Hot is stopped for a restore to the one that says the database passed its checks, no service starts and none runs, whatever else happens |
| `Runs.NoSecondRestore` | infra/agent/hot_agent.py:4749-4803 | Once a failed record's restore passed its checks, or it was rolled or pointed back from, its dump is never restored again, until a deploy ends |
| `Runs.NoServiceIsLost` | infra/agent/hot_agent.py:4139-4253 | At every moment every service of an installed release is up, or the state or a boot not yet answered accounts for it; the only exception is a service that was up and unaccounted for when a roll-back with nothing to restore started Hot, and a run whose every such start found everything accounted for has none |
| `Runs.SchedulerStartsOnItsSchema` | infra/agent/hot_agent.py:4580-4603 | Every start of a scheduler, on every path, is on a database whose migrations its release knows, and on an installation that is its own database: the one the delivered secrets name. The exception is secrets astray; with none delivered no scheduler comes up; none starts during a restore |
| `Runs.MovedDataStaysMoved` | infra/agent/hot_agent.py:1850-1877 | Once the data moved, until a deploy finishes: it stays moved, nothing delivers the local database, puts a bundle or secrets from before back, installs a local bundle, or restores a dump, and no service's secrets name the local database |
| `Runs.NothingRunsAcrossAMove` | infra/agent/hot_agent.py:2288-2304 | A data move loses no write: for every save that commits one there is the taking of the dump on its record, and from then to the save no service runs at any moment |
| `Runs.TakenAt` | infra/agent/hot_agent.py:3253-3278 | Every dump that is there was taken in the run |
| `Runs.AstrayComesFrom` | infra/agent/hot_agent.py:2158-2165 | If services would read another database than the installation's, with no move under way to account for it, kept secrets were put back or dropped, and it has been so ever since |
| `Runs.PutBackAstrayExactly` | infra/agent/hot_agent.py:2362-2371 | Secrets kept while they named the installation's database, put back later, give services another one if and only if they named one and a data move was committed in between, which also means that its deploy finished |
| `Runs.PutBackStaysAstray` | infra/agent/hot_agent.py:2145-2152 | Secrets kept while astray, put back later, are right if and only if the installation's database is theirs by then, which takes a move |
| `Runs.LeftOverFromAFinish` | infra/agent/hot_agent.py:2371 | Secrets that are kept while no deploy is under way are those a finished deploy was killed before it removed |
| `Runs.DropAstrayExactly` | infra/agent/hot_agent.py:3114-3115 | Removing kept secrets sends services astray if and only if a data move is between its two sets of secrets: its drain began, it is not committed, the old ones are kept and the new ones delivered; secrets that are astray already it leaves as they are |
| `Runs.ServicesUseTheDatabase` | infra/agent/hot_agent.py:4624-4641 | Unless a start found secrets astray, at every moment every running service of an installation was created with its database's secrets |
| `Runs.RunningSchedulerKnowsItsSchema` | infra/agent/hot_agent.py:2305-2311 | At every moment the running scheduler's release knows every migration of the database it uses, unless a start found secrets astray or migrations ran past an older scheduler |
| `Runs.NoDeployBegins` | infra/agent/hot_agent.py:2184-2194 | A run that began no deploy since there was none has none under way at any moment since |
| `Runs.EveryRunIsSafe` | infra/agent/hot_agent.py:5148-5160 | At every moment of every run: a schema ahead of the installed release has its scheduler held, every service is up or accounted for (or left by a roll-back), nothing runs during a restore, moved data has no local secrets, a scheduler starts only on a schema it knows unless secrets are astray, open migrations have the restore point they had at any earlier moment since they opened, no failed record that is over is restored from, and a move that is committed took the dump on its record and ran nothing since |
| `Gaps.ModesSavedBeforeTheStep` | infra/agent/hot_agent.py:2328-2329 | Saved one after the other, the data modes and the data-moved step leave a crash point at which the next deploy puts kept secrets back, which is wrong if and only if they name another database than the new modes; saved together they are not put back |
| `Gaps.ModesSavedFirst` | infra/agent/hot_agent.py:2328-2329 | Such a state: a move that kept the local database's secrets |
| `Gaps.StopTakenBackBeforeTheStart` | infra/agent/hot_agent.py:4520-4528 | Saved one after the other, taking `stopped` back and marking the start unfinished leave a crash point; exactly when services stay accounted for there |
| `Gaps.AStopTakenBack` | infra/agent/hot_agent.py:4520-4528 | Such a state: a drain-and-stop, and nothing else to account for what is down |
| `Gaps.RollBackLosesExactly` | infra/agent/hot_agent.py:4803-4846 | A roll-back with nothing to restore can leave a running service it starts down and unaccounted for if and only if nothing accounts for that service beforehand |
| `Gaps.RollBackCanLoseAService` | infra/agent/hot_agent.py:4803-4846 | A state with everything up in which a roll-back of a failure that changed no database can lose the ingress |
| `Gaps.RollBackAfterAMove` | infra/agent/hot_agent.py:4722-4757 | After a data move a roll-back is refused if and only if it is not the case that an interrupted, unmigrated deploy made the move and an older failed record has nothing to undo; and even then it restores nothing |
| `Gaps.RollBackAfterAnInterruptedMove` | infra/agent/hot_agent.py:4722-4757 | That exception is real: a data move, with its dump recorded and complete, interrupted after a deploy that was refused; roll-back is not refused |
| `Gaps.TheMoveFinishes` | infra/agent/hot_agent.py:2362-2371 | A data move's last save, allowed while the secrets it kept are there |
| `Gaps.TheNextDeployFails` | infra/agent/hot_agent.py:3190-3195 | A later deploy that changes no data service and fails as its services take over: its recovery starts the installed release whole and puts the left-over secrets back, astray |
| `Gaps.KeptSecretsOutliveTheirDeploy` | infra/agent/hot_agent.py:2362-2371 | A data move killed between its last save and the removal of the secrets it kept: the next deploy that fails once its services take over, though never interrupted, starts Hot on the database the data left |
| `Gaps.ABundleFirstCanGoAstray` | infra/agent/hot_agent.py:3183-3187 | For every failed move between its two sets of secrets whose own bundle goes back first: putting it back, raising, and dropping the kept secrets are allowed, and the failure is saved with services astray |
| `Gaps.AMoveCanGoAstray` | infra/agent/hot_agent.py:3114-3123 | Such a move: the installed release deployed again for new data services, with its own bundle set aside |
| `Gaps.TheRetryStartsWorkers` | infra/agent/hot_agent.py:2962-2964 | After it, a retry's drain starts the workers, to empty the queue, on the database the data has not moved to |
| `Gaps.ADrainThatFails` | infra/agent/hot_agent.py:2285-2304 | In a deploy that moves the database, recovery writes the services' secrets again if and only if the drain began and the dump was not taken yet |
| `Gaps.NoSecretsAreSupplied` | infra/agent/hot_agent.py:2643-2645 | In every state with no secrets at all the installed ones may be delivered, whatever becomes of the deploy that needs them |
| `Gaps.ARefusalAfterABoot` | infra/agent/hot_agent.py:2474-2481 | A host that booted while Hot was stopped: a deploy's checks deliver the services' secrets, and no recovery accounts for that, whatever steps the refused deploy took |
| `Gaps.AStartAstrayOnANewerSchema` | infra/agent/hot_agent.py:3190-3195 | With secrets astray, a start after which a running scheduler does not know its schema |
| `Gaps.PointingBackOutrunsExactly` | infra/agent/hot_agent.py:4339-4359 | The installed release's checks can leave a running scheduler on a schema it does not know if and only if they are not refused and that scheduler uses this database and knows fewer migrations |
| `Gaps.ASchedulerLeftBehind` | infra/agent/hot_agent.py:4339-4359 | A state in which the installed release's checks can outrun the scheduler of a failed release with fewer migrations, which an unfinished stop left running |
| `HostAgent.SaveRecordAllowed` | infra/agent/hot_agent.py:2190-2192 | Saving a record with more steps keeps every fact about migrations, moves, restore points and stopped services |
| `HostAgent.RebootSaveAllowed` | infra/agent/hot_agent.py:4530-4532 | Noting that a boot interrupted a deploy keeps every such fact |
| `HostAgent.InheritedSpeaks` | infra/agent/hot_agent.py:2379-2421 | What a deploy inherits says exactly what both earlier records say: migrations open, data moved, storage moving, services stopped, and which restore point; all objects moved exactly if the newest attempt that moved any moved them all |
| `HostAgent.FirstSaveAllowed` | infra/agent/hot_agent.py:2184-2194 | A deploy's first save keeps every such fact, whatever was interrupted or failed before it |
| `HostAgent.MoveSaveAllowed` | infra/agent/hot_agent.py:2324-2329 | The save of the new data modes with the data-moved step keeps the schema known, names no local database, and needs a dump with nothing run since |
| `HostAgent.MigratingSaveAllowed` | infra/agent/hot_agent.py:2335-2342 | The migrating step may be saved once a restore point of the database as it is now is recorded, or an earlier attempt's stands |
| `HostAgent.RecoveryRecordSpeaks` | infra/agent/hot_agent.py:3054-3061 | The record a failure is recovered by misses nothing that either record says, also when the deploy failed before it began one |
| `HostAgent.FailureSaveAllowed` | infra/agent/hot_agent.py:3116-3123 | A failure's save keeps what its record says and accounts for every service that is down |
| `HostAgent.MarksSaveAllowed` | infra/agent/hot_agent.py:4185-4200 | `stopped`, `stopping`, `restarting` and `resume_failed` may change while what is down stays accounted for and a stop that a restore needs stays |
| `HostAgent.RollBackStaysPossible` | infra/agent/hot_agent.py:4750-4762 | On a local database, with no data or storage moved, a failed deploy's migrations can always be rolled back: it is not refused and its dump is there |
| `HostAgent.RollBackIsOffered` | infra/agent/hot_agent.py:4722-4757 | Roll-back is not refused for any failure of an installed release that moved neither data nor objects, if it migrated nothing or its dump is here and it is not over |
| `HostAgent.RollBackSaveAllowed` | infra/agent/hot_agent.py:4763-4768 | When a roll-back's progress may be saved: a restore begins only from open migrations with nothing running, and is checked only on a schema the release knows |
| `HostAgent.RolledBackSaveAllowed` | infra/agent/hot_agent.py:4807-4811 | A finished roll-back clears the stop and the restarts only with every service up and no migrations open |
| `HostAgent.PointedBackSaveAllowed` | infra/agent/hot_agent.py:4335-4336 | Pointing back ends a failed attempt only on a schema the installed release knows |
| `HostAgent.RefusalMeans` | infra/agent/hot_agent.py:3168-3214 | For a deploy refused up to its secrets step: when recovering from it writes the services' secrets, from the state before the deploy and the steps it took; where it writes them otherwise they are the same ones |
| `HostAgent.SwappedIsRewritten` | infra/agent/hot_agent.py:3188-3195 | Every failure between a data move's two sets of secrets is one whose recovery puts the kept ones back, with no storage move in the way |
| `HostAgent.Agent.constructor` | infra/agent/hot_agent.py:1351-1369 | A new host's agent: nothing saved, and a run of length one |
| `HostAgent.Agent.RunMigrate` | infra/agent/hot_agent.py:2343 | The database the job's delivered secrets name is migrated, which on an installation is its own: at most to the release's level, perhaps partway, never a newer ledger, and within a deploy only with the scheduler down |
| `HostAgent.Agent.DeliverSecrets` | infra/agent/hot_agent.py:2119-2132 | All of the secrets for one database are delivered, or none; never the local one after a move |
| `HostAgent.Agent.DeliverLevelSecrets` | infra/agent/hot_agent.py:2134-2140 | Only what the migration job reads changes |
| `HostAgent.Agent.RestoreInstalledSecrets` | infra/agent/hot_agent.py:2154-2167 | Kept secrets go back, whatever they name; otherwise the installed release's are delivered again exactly when the configuration names other data services, and nothing changes when it does not |
| `HostAgent.Agent.RestoreInstalledBundle` | infra/agent/hot_agent.py:1850-1870 | The running release's own bundle goes back exactly when its deploy rendered a new one, is not past the point of no return and kept it; otherwise nothing changes; never after a move, and it does go back in each such case |
| `HostAgent.Agent.StartInstalledData` | infra/agent/hot_agent.py:2635-2651 | Secrets are delivered, for the installed data services, only where there were none; nothing else changes |
| `HostAgent.Agent.StopServices` | infra/agent/hot_agent.py:4480-4492 | The scheduler goes down first, and the app, API and ingress only once the workers are down; nothing runs if it works; called only when the state accounts for them all |
| `HostAgent.Agent.StartServices` | infra/agent/hot_agent.py:4624-4641 | Every service runs the given release on the database the delivered secrets name if it works; an ingress that was down comes up after the services it serves; a scheduler that was down comes up only if asked, after all the others are up on that release, and only on a schema it knows |
| `HostAgent.Agent.PutInterruptedBack` | infra/agent/hot_agent.py:2175-2183 | Before a deploy begins, secrets an interrupted one kept go back, whatever they name, unless it got past that, and then they go; with none interrupted nothing changes |
| `HostAgent.Agent.BeginDeploy` | infra/agent/hot_agent.py:2174-2194 | The first save's record is exactly what the interrupted and the failed attempt pass on, with nothing but `started` done; nothing else changes when none was interrupted |
| `HostAgent.Agent.DataMoves` | infra/agent/hot_agent.py:2545-2563 | A data service moves exactly when its mode changed, and PostgreSQL only off this host |
| `HostAgent.Agent.LevelWithoutTheJob` | infra/agent/hot_agent.py:2499-2532 | The level is the ledger's own or the recorded one; only job secrets change |
| `HostAgent.Agent.LevelByTheJob` | infra/agent/hot_agent.py:2474-2482 | The job reads the ledger; where no data service is configured elsewhere, its files were just delivered for the installation's database; service files stay as found |
| `HostAgent.Agent.DatabaseLevel` | infra/agent/hot_agent.py:2438-2491 | The level is the ledger's own or the recorded one, none exactly when nothing is installed, the recorded one after a data move, and not zero unless that was recorded; service secrets stay, and are delivered for the installed data services only where there were none; where a job can say, the recorded level counts only for a local database in place that no attempt migrated |
| `HostAgent.Agent.CheckUpgrade` | infra/agent/hot_agent.py:5016-5031 | A release older than the database's level is refused; on an installation with no open migrations the level is one the installed release knows; where a job can say, a release that passes knows every migration of the database |
| `HostAgent.Agent.CheckDeploy` | infra/agent/hot_agent.py:2195-2250 | Before the checks pass only job secrets change, and service secrets where the host had none at all; the level is one the release knows; no data or storage moves over open migrations or an unfinished storage move; storage moves only when the running release is deployed again, and no role joins one that finished |
| `HostAgent.Agent.DumpPostgres` | infra/agent/hot_agent.py:3253-3278 | A dump at a new path holds the local database as it is; a failure changes nothing; a kill can leave the path without a dump |
| `HostAgent.Agent.PruneDumps` | infra/agent/hot_agent.py:3246-3251 | Only dumps beyond the newest three of the kind go, exactly those if it works, and never while migrations are open |
| `HostAgent.Agent.DumpAndPrune` | infra/agent/hot_agent.py:3242-3243 | The dump just taken survives the pruning after it and holds the database as it is |
| `HostAgent.Agent.Drain` | infra/agent/hot_agent.py:2953-2989 | Nothing of Hot runs if it works; only services change, each was on record as stopping before it went down, the scheduler goes first and the workers only after all that admits work |
| `HostAgent.Agent.MoveStorage` | infra/agent/hot_agent.py:2669-2710 | If it works nothing runs, the move is on record as finished and every role's list of moved objects is named; each stop is on record before it happens |
| `HostAgent.Agent.PlaceBundle` | infra/agent/hot_agent.py:1833-1848 | The release's bundle is the configuration's, and a running release's own bundle is kept beside it |
| `HostAgent.Agent.DrainForMove` | infra/agent/hot_agent.py:2290-2299 | Before a data move: the record says all of Hot stops before it does, and a moving database then has a complete dump of itself as it is, recorded as the restore point |
| `HostAgent.Agent.DumpForMove` | infra/agent/hot_agent.py:2295-2299 | With nothing running, the dump is complete, survives its pruning and becomes the restore point |
| `HostAgent.Agent.ChangeSecrets` | infra/agent/hot_agent.py:2285-2304 | The services' secrets change to the new ones only at the secrets step; a failure before it leaves them as found, with a copy kept exactly if a move had drained and dumped; a moving database has its dump by then; services and jobs get one delivery |
| `HostAgent.Agent.StopOldScheduler` | infra/agent/hot_agent.py:2305-2311 | The record says the scheduler is stopping before it does; past this step it is down |
| `HostAgent.Agent.MoveData` | infra/agent/hot_agent.py:2324-2329 | Only from a complete dump of the old database; past this step the data modes and the record both say the data moved, and the new database is at the old one's level |
| `HostAgent.Agent.TakeRestorePoint` | infra/agent/hot_agent.py:3235-3244 | A dump for a local database and only for one, of the database as it is |
| `HostAgent.Agent.SecureRestorePoint` | infra/agent/hot_agent.py:2335-2339 | A restore point from before these migrations, unless attempts before this one left theirs, which is kept and no dump taken |
| `HostAgent.Agent.PrepareMigration` | infra/agent/hot_agent.py:2331-2342 | Migrations are opened on record exactly if the schema changes or is unknown, or an earlier attempt left them open; only a changed schema without a point takes one; past this step, migrations are on record as open or the release's level is no newer than the installed one's |
| `HostAgent.Agent.MigrateDatabase` | infra/agent/hot_agent.py:2343-2348 | The database is at the release's level if it works; the scheduler is down throughout |
| `HostAgent.Agent.ReplaceServices` | infra/agent/hot_agent.py:2349-2352 | Every service runs the new release on the database the delivered secrets name if it works, which is the installation's, at a level the release knows |
| `HostAgent.Agent.StartRelease` | infra/agent/hot_agent.py:2349-2352 | Every service runs the release, with the configured database's secrets, if it works; the record said beforehand that services are replaced |
| `HostAgent.Agent.FinishDeploy` | infra/agent/hot_agent.py:2362-2371 | The saved state is the new release's own, with no record, stop or restart left; if it is not killed the boot is settled, no secrets are kept, and every service runs the release on its migrated database |
| `HostAgent.Agent.Deploy` | infra/agent/hot_agent.py:2169-2376 | A success installs the release and clears both records; a failure leaves only the deploy's own record and the data modes changed; one up to the secrets step leaves the data modes, and the services' secrets as found, delivered only where there were none at all, with a copy beside them exactly if a move was about to change them; one that began to move objects had delivered them; a success ends with every service on the release, its configured database at its level |
| `HostAgent.Agent.NoteRestarts` | infra/agent/hot_agent.py:4185-4200 | The restarts on record lose what is done and gain what began, and only while every service stays accounted for |
| `HostAgent.Agent.Restart` | infra/agent/hot_agent.py:4139-4161 | The service is on record as restarting before it goes down and until it is up, the ingress after a service it proxies to likewise, recreated with it; if it works it runs the installed release; no other service goes down; never a held scheduler |
| `HostAgent.Agent.RestartPrevious` | infra/agent/hot_agent.py:3190-3214 | The installed release's services are up again, or accounted for. A whole start puts kept secrets back, whatever they name, or delivers the installed data services' where others are configured, and every service then runs on the database those name; no other start changes secrets |
| `HostAgent.Agent.ReturnToPrevious` | infra/agent/hot_agent.py:3168-3233 | After a failure that changed no database everything down is named in what the failure saves: a failed start, the restarts left, a stop, or a boot yet to be answered |
| `HostAgent.Agent.RecoverHost` | infra/agent/hot_agent.py:3062-3109 | Hot stays stopped exactly if it was, after a storage or data move, and after a drain or a reboot with open migrations; otherwise it returns to the installed release, with every service accounted for |
| `HostAgent.Agent.RecordFailure` | infra/agent/hot_agent.py:3109-3125 | What a stopped installation still runs is stopped, and the failure is saved with the stop, the restarts and the failed start it was given |
| `HostAgent.Agent.Recover` | infra/agent/hot_agent.py:3046-3125 | The deploy ends as a failure of that release, with its steps, and the failed record says migrations, moves and restore point exactly as the state did; Hot stays stopped exactly in the listed cases; release and data modes stay; service secrets are written only in the cases of `Rewrites`, and then are the kept ones or a delivery for the installed data services, for certain if no migrations are open and no start failed; after a failure between a move's two sets of secrets they are the kept ones, unless a bundle goes back first; every list of objects is kept; on a stopped installation nothing starts |
| `HostAgent.Agent.Resume` | infra/agent/hot_agent.py:4494-4561 | A stopped installation with no interrupted deploy is left alone; a boot is settled or its start on record as failed; the start after a boot, or one deploy-now asked for, ends with every service up but a scheduler held by migrations on record, on the installed database's secrets, or is on record as failed |
| `HostAgent.Agent.FinishStop` | infra/agent/hot_agent.py:4239-4253 | An unfinished drain-and-stop ends with nothing running and is then off the record; it starts nothing |
| `HostAgent.Agent.FinishRestarts` | infra/agent/hot_agent.py:4202-4229 | Restarts cut short are done again and taken off the record; a stopped installation starts nothing, and a held scheduler is only forgotten |
| `HostAgent.Agent.RestoreFromDump` | infra/agent/hot_agent.py:4789-4797 | The database is the dump's if it works, anything if it does not; only during a restore on record |
| `HostAgent.Agent.RestoreDatabase` | infra/agent/hot_agent.py:4776-4802 | Hot is stopped and that is saved before the restore; it is saved as checked exactly when the installed release's own migrations passed on it; no service starts |
| `HostAgent.Agent.RollBackFailed` | infra/agent/hot_agent.py:4817-4846 | A restore in progress stays on record, also when a retry stopped nothing; Hot is then kept stopped, and otherwise as it was before |
| `HostAgent.Agent.RollBack` | infra/agent/hot_agent.py:4715-4815 | Refused exactly on the listed grounds, changing nothing; if it works every service runs the installed release on its own database, no migrations are open and the failed release stays on record as rolled back; where everything was accounted for before, it leaves nothing that is not |
| `HostAgent.Agent.CheckPointedBack` | infra/agent/hot_agent.py:4339-4359 | Past the checks the database is at the installed release's level |
| `HostAgent.Agent.SettlePointedBack` | infra/agent/hot_agent.py:4302-4337 | A failed attempt ends by pointing back exactly under the listed conditions, after migrations only with the database at the installed release's level; refused once objects moved, and a refusal leaves the state; under each of those conditions it does end |
| `HostAgent.Agent.DeployOrRecover` | infra/agent/hot_agent.py:3934-3946 | A deploy asked for ends with its release installed or recorded as failed, never as deploying; a first deploy refused up to its secrets step leaves every service's secrets, unless there were none at all and the installed ones were delivered, or unless `RefusalRewrites`, and then, if no migrations are open and no start failed, they are the kept ones or a new delivery; one that began to move objects had delivered them |
| `HostAgent.Agent.Changed` | infra/agent/hot_agent.py:3885-3891 | The installed release is asked for again exactly if the configuration changed, or the address did and Hot is not stopped or a deploy goes on or is asked for, or deploy-now finds other operator secrets |
| `HostAgent.Agent.Reconcile` | infra/agent/hot_agent.py:3864-3951 | With nothing new asked for, nothing happens, except that an interrupted deploy ends as a failure of its release; a failed release waits to be asked for; where only roll-back may come next nothing deploys, and deploy-now is refused; anything else is deployed, and ends with the release installed and running on its configuration, or recorded as failed with the installed one kept |
| `HostAgent.Agent.RestartOne` | infra/agent/hot_agent.py:4038-4103 | Refused on each listed ground (an unfinished stop, a roll-back to wait for, objects between storages, a bundle whose database moved, a held scheduler), changing nothing; otherwise the service runs the installed release on the installed database's secrets |
| `HostAgent.Agent.StopAll` | infra/agent/hot_agent.py:4104-4120 | From the first save on the state says that Hot is stopped; if it works nothing runs, if it fails the state says it has yet to finish |
| `HostAgent.Agent.BackUpNow` | infra/agent/hot_agent.py:4123-4135 | A new dump of the installed database beside all others |
| `HostAgent.Agent.StartAsked` | infra/agent/hot_agent.py:4006-4013 | An installation that is stopped, whose start failed or whose boot is unanswered ends with every service up but a held scheduler, or with its failed start on record; nothing at all happens where only roll-back may come next |
| `HostAgent.Agent.DeployAsked` | infra/agent/hot_agent.py:3993-4013 | deploy-now changes nothing while a restore is unfinished, and starts nothing on a stopped database that awaits roll-back while the installed release is named; a new release or configuration is deployed and that ends; with nothing new an interrupted deploy ends, or Hot is up, or its failed start is on record |
| `HostAgent.Agent.Perform` | infra/agent/hot_agent.py:3986-4137 | No command but roll-back starts a service or changes the failed record while a restore is unfinished; a status command changes nothing; each other command that succeeds did what it is for: the service runs the installed release, nothing runs and Hot is stopped, the failure is rolled back and everything runs, there is a new dump beside all others, or the new release's deploy ended |
| `HostAgent.Agent.TidyUp` | infra/agent/hot_agent.py:4441-4442 | What a cycle does first: a boot is answered, with every service up, or its start is on record as failed; a stop is finished, or still on record; a stopped installation and an unfinished restore start nothing |
| `HostAgent.Agent.Cycle` | infra/agent/hot_agent.py:4435-4450 | A cycle keeps a quiet installation quiet, starting nothing and beginning no deploy, begins none of a failed release, and starts nothing during a restore, wherever it is killed; what happened before it stays in the run; a new release that did not fail is deployed, an interrupted deploy of the release named is taken up, and either ends; with nothing new a boot is answered and a stop finished, or the state says that is not so |
| `HostAgent.Agent.Live` | infra/agent/hot_agent.py:5148-5160 | Any sequence of cycles, commands, kills, boots and restores elsewhere, under any pointers and configurations, goes on from the run there was, and is a run, safe at every moment |
| `HostAgent.Agent.StayQuiet` | infra/agent/hot_agent.py:4508-4519 | With no command and the pointer and configuration unchanged, any number of cycles, kills and boots keeps a stopped installation stopped: no service starts, and at no new moment is a deploy under way |
| `HostAgent.Agent.StayFailed` | infra/agent/hot_agent.py:3904-3909 | Under any configurations, any number of cycles, kills and boots leaves a failed release as failed as it was, and at no new moment is a deploy under way |
| `ScalableRelease.LatestByInstance` | infra/operator/selfhost.py:782-788 | One report for each instance, its newest |
| `ScalableRelease.NewestAreLastOutcomes` | infra/operator/selfhost.py:666-668 | The newest of the relevant reports are exactly the last outcomes of the listed instances |
| `ScalableRelease.OnlyOutcomesCount` | infra/operator/selfhost.py:663-668 | What an instance's last outcome is: its latest report, with this role, that a deploy was done, current or failed, answering no command but deploy-now; no other report changes it |
| `ScalableRelease.StandsExactly` | infra/operator/selfhost.py:580-588 | A failure stands exactly if the group lists its instance and, on GCP, that did not start since, where that is known |
| `ScalableRelease.WritesRestOnReports` | infra/operator/selfhost.py:624-692 | Each role's pointer, the first one's too, is written only after a counted `migrated` report about the version with every later failure found not to stand, and after every earlier role's group was found not empty with each listed instance's last outcome a success |
| `ScalableRelease.SchedulerGoesLast` | infra/operator/selfhost.py:64 | By name: workers after task workers, the API after both, the app after the API, the scheduler's pointer only after all four groups were rolled, and every one after the migration passed |
| `ScalableRelease.CountsFromTheWrite` | infra/operator/selfhost.py:691-692 | Every report a role's roll rests on is about the version, from two minutes before an earlier run wrote the pointer, or else before this release began |
| `ScalableRelease.Helper.constructor` | infra/operator/selfhost.py:600-601 | Reports count from two minutes before the release began, and its deadline is the timeout after that |
| `ScalableRelease.Helper.PointedSince` | infra/operator/selfhost.py:299-320 | A pointer counts as already written exactly when it names the version, and a failed read as neither |
| `ScalableRelease.Helper.Migration` | infra/operator/selfhost.py:610-622 | The newest report that settles the migration: it passed, or it failed on a host found to stand, and every later one says nothing of it or was found not to stand; a failed look only where it was needed |
| `ScalableRelease.Helper.WaitForMigration` | infra/operator/selfhost.py:547-565 | The report that settles the migration in a log of reports that count; reads start where an earlier run's pointer counts until one succeeds and settles nothing, and where this release counts after that; it gives up only once time is up |
| `ScalableRelease.Helper.RoleVerdict` | infra/operator/selfhost.py:567-684 | No verdict exactly when the group, or on GCP a failure's host, could not be read; failed exactly if some listed instance's last outcome is a failure that stands, which it names; deployed exactly if the group is not empty and each last outcome is a success |
| `ScalableRelease.Helper.WaitForRole` | infra/operator/selfhost.py:685-692 | A verdict on reports that all count for that role |
| `ScalableRelease.Helper.ReadPointers` | infra/operator/selfhost.py:603-608 | Every pointer was read before anything moves, or the release ends |
| `ScalableRelease.Helper.RollAll` | infra/operator/selfhost.py:650-703 | The roles rolled are always the first ones in order, each pointing at the version; a pointer that changed was written on the account that is in order |
| `ScalableRelease.Helper.Release` | infra/operator/selfhost.py:590-703 | Success means all five roles; a pointer changes only by a write on the account that `WritesRestOnReports` is about; no pointer after the role it stopped at was touched, and one that named the version already is never written again; the migration host points at the version before any role does |
| `CreateOnce.InvHolds` | infra/agent/hot_agent.py:560-579 | In every interleaving every kept value is version 1's, and the latest version is too unless the host that added it has yet to repair it |
| `CreateOnce.AllKeepTheFirst` | infra/agent/hot_agent.py:560-579 | With values apart, every host that found the secret missing returns version 1's value, and with no host between its add and its repair the latest version holds it |
| `CreateOnce.FoundIsAVersion` | infra/agent/hot_agent.py:569-571 | In every interleaving, whatever the values, a host that found the secret returned a version there is |
| `CreateOnce.FoundIsTheFirst` | infra/agent/hot_agent.py:569-571 | With values apart, a host that begins once there is a version returns version 1's value, not its own, unless another is between its add and its repair, and adds nothing |
| `CreateOnce.MissingExactlyBeforeTheFirst` | infra/agent/hot_agent.py:569-572 | A host finds the secret missing exactly while there is no version |
| `CreateOnce.EqualValuesCanDisagree` | infra/agent/hot_agent.py:574-579 | Two writers with one value and a third with another: an interleaving in which they disagree |
| `CreateOnce.HostsAgreeExactlyWhenApart` | infra/agent/hot_agent.py:560-579 | Writers agree in every interleaving if and only if no two hold one value while a third holds another |
| `LogBatches.Batches` | infra/agent/hot_agent.py:4963-4975 | For events in time order the batches concatenate to them, none is empty, each fits the byte limit or is one event and is within the span, and no split that meets these limits has fewer |
| `LogBatches.FullBatchesAreFewest` | infra/agent/hot_agent.py:4963-4975 | Batches that each take every event they can are no more than those of any split within the limits |
| `LogBatches.NextFits` | infra/agent/hot_agent.py:4968-4969 | The test on the batch's size and its first event decides exactly whether the next event fits |
| `LogBatches.SizeIsBytesAndOverhead` | infra/agent/hot_agent.py:4968 | A batch's size is its messages' bytes and 26 for each event |
| `ServiceFile.PgService` | infra/runtime/render.py:682-723 | Refused exactly when the URI is, a key is not all small letters and underscores or is `service`, or a value has a line break, a NUL or blank ends; what it prints, under its name in brackets, read line by line and split at the first `=` with ends trimmed, is exactly the parameters that are not blank |
| `ServiceFile.FileMeansTheUri` | infra/runtime/render.py:700-716 | For each key the file gives the query's value, or else the URI's own unless blank, and no key twice |
| `ServiceFile.FileGivesTheFields` | infra/runtime/render.py:699-702 | A key the query does not set: host and port are the URI's, dbname its decoded path past any number of slashes, user and password its decoded own, each left out if blank; any other key is not there |
| `ServiceFile.FileGivesTheQuery` | infra/runtime/render.py:704-712 | A query piece `k=v` gives the decoded `v` under the decoded `k` |
| `ServiceFile.UriAccepted` | infra/runtime/render.py:691-712 | A URI is accepted exactly if its scheme is one of the two, it names a host, and path, user, password and every query parameter decode, with none blank or repeated |
| `ServiceFile.PiecesJoin` | infra/runtime/render.py:704 | The query's pieces joined by `&` are the query, and none holds one |
| `ServiceFile.TrimsBlankEnds` | infra/runtime/render.py:717-721 | A value passes the check on its ends exactly if neither is blank |
| `ServiceFile.QueryAccepted` | infra/runtime/render.py:706-714 | A query is accepted exactly when every parameter decodes, is not blank and sets no key an earlier one set |
| `ServiceFile.QueryOverrides` | infra/runtime/render.py:705-714 | A merged parameter is the query's where the query sets it, and no key is there twice |
| `Escaping.ComposeReadsBack` | infra/runtime/render.py:736-743 | Compose's reading of an escaped value, however nested, is the value, and substitutes nothing |
| `Escaping.TextReadsBack` | infra/agent/hot_agent.py:4886-4890 | Compose's reading and diagnostics' replacement from the left both undo the escaping of any text, with runs of `$` of any length |
| `Escaping.ReadersAgree` | infra/agent/hot_agent.py:4886-4890 | The two readers agree on every text that substitutes nothing, and an escaped text never does |
| `Commands.Agent.FirstDelivery` | infra/agent/hot_agent.py:4384-4403 | The file holds the last 200 IDs recorded, and a delivery runs exactly when its ID is not among them |
| `Commands.Agent.Take` | infra/agent/hot_agent.py:4405-4427 | A command with no ID always runs and is not recorded |
| `Commands.RunsAgainExactlyAfterTheWindow` | infra/agent/hot_agent.py:4389-4398 | After a command ran, its next delivery runs again if and only if 200 or more IDs were recorded since |
| `Commands.AtMostOnce` | infra/agent/hot_agent.py:4384-4403 | While fewer than 200 IDs were recorded since a command ran, no delivery of it runs, however many there were |
| `Commands.RedeliveryDoesNotRefresh` | infra/agent/hot_agent.py:4389-4398 | Fewer than 200 others between each two deliveries is not enough: one skipped in time does not count as recent |
| `DeadLetters.Meter.Measure` | infra/agent/hot_agent.py:3452-3482 | The new dead letters are the increase since the last count measured by any process, and the count is remembered |
| `DeadLetters.Meter.Watch` | infra/agent/hot_agent.py:3466-3472 | Across any readings and restarts, what was reported adds up to the positive increases between consecutive counts |
| `DeadLetters.IncreasesBalance` | infra/agent/hot_agent.py:3469-3470 | Increases and decreases balance with the first and the last count |
| `DeadLetters.TotalOfARisingCount` | infra/agent/hot_agent.py:3466-3472 | The total is last minus first if and only if the count never falls |

## Left out

- Scalable hosts in the agent: role subsets, the migration pointer and its failed record; the model is the single machine.
- State files written before data modes or configurations were recorded, and a data disk that mounts only during a cycle.
- Saves that fail on a full disk, and the in-memory record of restarts kept for that case.
- Cloud calls, Docker, Compose, `pg_dump`, `pg_restore` and systemd beyond their effect on the host.
- Kills inside a directory swap, which the saved steps do not describe.
- Reports, recovery texts, histories and metrics other than dead letters.
- Whether a command is answered from an earlier answer, has expired, or a failed start is due again: any answer is allowed.
- What databases hold besides their migration level; a pre-upgrade dump is taken while web services and workers still write.
- Valkey's contents and the moved objects themselves; only the progress of their moves is modelled.
- Box pool, guest network, hotbox copies, synthetic checks, journal shipping and idle retirement.
- Request signing, redaction, validation patterns, nginx and SQL text: no clean meaning to prove.
- Percent-decoding, URI splitting and white space are parameters of the service file's printer.
- Dictionary keys are not escaped by the source, and Compose's reading of them is not modelled.
- HostAgent.Agent.MoveData: saves the data modes and the data-moved step at once, where the source saves twice; `Gaps.ModesSavedBeforeTheStep` is about the crash point between.
- HostAgent.Agent.Resume: takes `stopped` back and marks the start unfinished at once, where the source saves twice; `Gaps.StopTakenBackBeforeTheStart` is about the crash point between.
- HostAgent.Agent.DatabaseLevel: reads the installation's ledger also where a data service is configured elsewhere and the secrets are astray, in which case the job's files name another.
- HostAgent.Agent.DeployOrRecover: for a deploy that moves objects and passed its checks but had not begun that move, whether the secrets were delivered again is not stated, since no step records it.
- HostAgent.Agent.Drain: that the queue is empty before the workers stop is a job's answer, not modelled.
- HostAgent.Agent.MoveStorage: which objects moved, and the list of those left behind, are whatever the job reports.
- ScalableRelease.LatestByInstance: the order of the reports decides only which of several failures is named, and is not stated.
- ScalableRelease.Helper.RoleVerdict: which of several standing failures is named is not stated.
