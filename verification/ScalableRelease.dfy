/** The release helper for a scalable installation: one migration, and then the roles'
    groups of instances one after the other, by what their agents report. The log, the groups and
    the clock are the world's: a read can fail, and a group can change, at any poll. */
module ScalableRelease {
  import opened Options

  datatype Role = Migrate | TaskWorker | Worker | Api | App | Scheduler

  const ROLE_ORDER: seq<Role> := [TaskWorker, Worker, Api, App, Scheduler]

  /** Every pointer of a scalable installation. */
  const ALL_ROLES: seq<Role> := [Migrate] + ROLE_ORDER

  const CLOCK_SKEW := 120

  datatype State = Deployed | Current | Failed | Migrated | MigrationFailed | Other

  /** What an agent reported. `asked` is whether the report answers no command, or deploy-now. */
  datatype Report = Report(release: nat, instance: nat, at: int, state: State, roles: set<Role>, asked: bool)

  /** A role's release pointer, and when it was written. */
  datatype Pointer = Pointer(release: nat, at: int)

  /** A report that says how a deploy of `role` ended. */
  predicate IsOutcome(r: Report, role: Role)
  {
    role in r.roles && (r.state.Deployed? || r.state.Current? || r.state.Failed?) && r.asked
  }

  // -- an instance's latest outcome -----------------------------------------------------------

  function Relevant(reports: seq<Report>, role: Role, instances: set<nat>): seq<Report>
  {
    if reports == [] then [] else
      var last := reports[|reports| - 1];
      Relevant(reports[..|reports| - 1], role, instances)
      + if IsOutcome(last, role) && last.instance in instances then [last] else []
  }

  /** The last outcome an instance reported. */
  function LastOutcome(reports: seq<Report>, role: Role, instance: nat): (r: Option<Report>)
    ensures r.Some? ==> r.value in reports && r.value.instance == instance && IsOutcome(r.value, role)
  {
    if reports == [] then None else
      var last := reports[|reports| - 1];
      if IsOutcome(last, role) && last.instance == instance then Some(last)
      else LastOutcome(reports[..|reports| - 1], role, instance)
  }

  /** What changes an instance's last outcome: its own report that a deploy of the role ended, well, already or not,
      asked for by no command but deploy-now, and nothing else it or another reports. */
  lemma OnlyOutcomesCount(reports: seq<Report>, r: Report, role: Role, instance: nat)
    ensures LastOutcome(reports + [r], role, instance) ==
            if r.instance == instance && role in r.roles && r.asked && r.state in {Deployed, Current, Failed}
            then Some(r) else LastOutcome(reports, role, instance)
    ensures LastOutcome([], role, instance) == None
  {
    assert (reports + [r])[..|reports|] == reports;
  }

  function Without(reports: seq<Report>, instance: nat): seq<Report>
  {
    if reports == [] then [] else
      (if reports[0].instance == instance then [] else [reports[0]]) + Without(reports[1..], instance)
  }

  lemma WithoutKeepsTheRest(reports: seq<Report>, instance: nat, r: Report)
    ensures r in Without(reports, instance) <==> r in reports && r.instance != instance
  {
  }

  /** For each instance its newest report, ordered by arrival. */
  function Newest(reports: seq<Report>): seq<Report>
  {
    if reports == [] then [] else
      var last := reports[|reports| - 1];
      Without(Newest(reports[..|reports| - 1]), last.instance) + [last]
  }

  method LatestByInstance(reports: seq<Report>) returns (latest: seq<Report>)
    ensures latest == Newest(reports)
  {
    latest := [];
    for i := 0 to |reports|
      invariant latest == Newest(reports[..i])
    {
      assert reports[..i + 1][..i] == reports[..i];
      latest := Without(latest, reports[i].instance) + [reports[i]];
    }
    assert reports[..|reports|] == reports;
  }

  /** The newest relevant reports are exactly the last outcomes of the listed instances. */
  lemma {:induction false} NewestAreLastOutcomes(reports: seq<Report>, role: Role, instances: set<nat>, r: Report)
    ensures r in Newest(Relevant(reports, role, instances)) <==>
              r.instance in instances && LastOutcome(reports, role, r.instance) == Some(r)
  {
    if reports != [] {
      var last, rest := reports[|reports| - 1], reports[..|reports| - 1];
      NewestAreLastOutcomes(rest, role, instances, r);
      if IsOutcome(last, role) && last.instance in instances {
        var relevant := Relevant(reports, role, instances);
        assert relevant[..|relevant| - 1] == Relevant(rest, role, instances);
        WithoutKeepsTheRest(Newest(Relevant(rest, role, instances)), last.instance, r);
      } else {
        assert Relevant(reports, role, instances) == Relevant(rest, role, instances);
      }
    }
  }

  // -- what the helper did ------------------------------------------------------------------------

  /** A read of the cloud: it may fail, which says nothing. */
  datatype Read<+T> = Unread | Found(value: T)

  /** A role's group: its instances, and when each last started where the provider says. */
  type Group = map<nat, Option<int>>

  /** The group at each look during one poll; it can change between two, and any look can fail. */
  type Looks = nat -> Read<Group>

  /** Whether a failure still speaks for its host: that is in the group and, on GCP, where a recreated instance
      goes by the same name, has not started since. */
  predicate Stands(gcp: bool, r: Report, group: Group)
  {
    r.instance in group && (!gcp || group[r.instance].None? || group[r.instance].value <= r.at)
  }

  /** Which failures stand: none of an instance that is not listed, and every one of a listed instance except, on GCP,
      from before its last start. */
  lemma StandsExactly(r: Report, group: Group, started: int)
    ensures r.instance !in group ==> !Stands(false, r, group) && !Stands(true, r, group)
    ensures r.instance in group ==> Stands(false, r, group)
    ensures r.instance in group && group[r.instance] == Some(started) ==> (Stands(true, r, group) <==> r.at >= started)
    ensures r.instance in group && group[r.instance] == None ==> Stands(true, r, group)
  {
  }

  /** A report that says nothing about the migration, or a failure found not to stand. */
  predicate PassedOver(gcp: bool, r: Report, look: Read<Group>)
  {
    !r.state.Migrated? && (r.state.MigrationFailed? ==> look.Found? && !Stands(gcp, r, look.value))
  }

  /** A report that settles the migration: it passed, or it failed on a host that still stands. */
  predicate Settles(gcp: bool, r: Report, look: Read<Group>)
  {
    r.state.Migrated? || (r.state.MigrationFailed? && look.Found? && Stands(gcp, r, look.value))
  }

  /** The `k`th report settles the migration, and every later one is passed over. */
  ghost predicate SettledAt(gcp: bool, log: seq<Report>, looks: Looks, k: nat)
  {
    k < |log| && Settles(gcp, log[k], looks(k)) && forall j | k < j < |log| :: PassedOver(gcp, log[j], looks(j))
  }

  datatype Act =
    | Wrote(role: Role)                                             // a pointer
    | Passed(k: nat, log: seq<Report>, looks: Looks)                // the migration, by the `k`th report
    | Rolled(role: Role, instances: set<nat>, log: seq<Report>)     // every instance in the role's group

  /** From when a report counts: since this release began, or since an earlier run wrote the pointer. */
  function CountsFrom(written: Option<int>, since: int): int
  {
    if written.Some? then written.value - CLOCK_SKEW else since
  }

  ghost predicate IsRolled(before: seq<Act>, role: Role)
  {
    exists k {:trigger before[k]} :: 0 <= k < |before| && before[k].Rolled? && before[k].role == role
  }

  ghost predicate HasPassed(before: seq<Act>)
  {
    exists k {:trigger before[k]} :: 0 <= k < |before| && before[k].Passed?
  }

  /** The migration passed, and every role before the `i`th is rolled. */
  ghost predicate Ready(before: seq<Act>, i: nat)
    requires i <= |ROLE_ORDER|
  {
    HasPassed(before) && forall j | 0 <= j < i :: IsRolled(before, ROLE_ORDER[j])
  }

  /** A role's pointer is written only once the migration passed and every role before it is rolled. */
  ghost predicate InOrder(acts: seq<Act>)
  {
    forall k, i | 0 <= k < |acts| && 0 <= i < |ROLE_ORDER| && acts[k] == Wrote(ROLE_ORDER[i]) :: Ready(acts[..k], i)
  }

  predicate Counted(log: seq<Report>, version: nat, from: int)
  {
    forall r | r in log :: r.release == version && from <= r.at
  }

  /** What an act rests on: a `migrated` report about this version that counts, with every later failure found
      not to stand, or a group that was not empty and whose instances' last outcomes, of those that count, are
      all successes. */
  ghost predicate WellFounded(a: Act, gcp: bool, version: nat, since: int, written: map<Role, Option<int>>)
  {
    match a
    case Wrote(_) => true
    case Passed(k, log, looks) =>
      && SettledAt(gcp, log, looks, k) && log[k].state.Migrated?
      && Migrate in written
      && (Counted(log, version, since) || Counted(log, version, CountsFrom(written[Migrate], since)))
    case Rolled(role, instances, log) =>
      && role in written && Counted(log, version, CountsFrom(written[role], since))
      && instances != {}
      && forall i | i in instances ::
           LastOutcome(log, role, i).Some? && !LastOutcome(log, role, i).value.state.Failed?
  }

  /** From when reports count: two minutes before an earlier run wrote the pointer, or this release began. */
  lemma CountsFromTheWrite(a: Act, gcp: bool, version: nat, since: int, written: map<Role, Option<int>>, r: Report)
    requires WellFounded(a, gcp, version, since, written) && a.Rolled? && r in a.log
    ensures r.release == version && r.at >= if written[a.role].Some? then written[a.role].value - 120 else since
  {
  }

  lemma StaysReady(before: seq<Act>, a: Act, i: nat)
    requires i <= |ROLE_ORDER| && Ready(before, i)
    ensures Ready(before + [a], i)
  {
    var after := before + [a];
    var k :| 0 <= k < |before| && before[k].Passed?;
    assert after[k].Passed?;
    forall j | 0 <= j < i ensures IsRolled(after, ROLE_ORDER[j]) {
      assert IsRolled(before, ROLE_ORDER[j]);
      var k :| 0 <= k < |before| && before[k].Rolled? && before[k].role == ROLE_ORDER[j];
      assert after[k] == before[k];
    }
  }

  lemma StaysInOrder(acts: seq<Act>, a: Act)
    requires InOrder(acts)
    requires forall i | 0 <= i < |ROLE_ORDER| && a == Wrote(ROLE_ORDER[i]) :: Ready(acts, i)
    ensures InOrder(acts + [a])
  {
    var after := acts + [a];
    forall k, i | 0 <= k < |after| && 0 <= i < |ROLE_ORDER| && after[k] == Wrote(ROLE_ORDER[i])
      ensures Ready(after[..k], i)
    {
      assert after[..k] == if k < |acts| then acts[..k] else acts;
    }
  }

  lemma IsReadyNext(before: seq<Act>, instances: set<nat>, log: seq<Report>, i: nat)
    requires i < |ROLE_ORDER| && Ready(before, i)
    ensures Ready(before + [Rolled(ROLE_ORDER[i], instances, log)], i + 1)
  {
    var after := before + [Rolled(ROLE_ORDER[i], instances, log)];
    StaysReady(before, Rolled(ROLE_ORDER[i], instances, log), i);
    assert after[|before|].Rolled?;
    assert IsRolled(after, ROLE_ORDER[i]);
  }

  /** A roll of `role` before the `k`th act, and well founded. */
  ghost predicate RolledBefore(acts: seq<Act>, gcp: bool, version: nat, since: int, written: map<Role, Option<int>>,
                               k: nat, role: Role)
    requires k <= |acts|
  {
    exists r {:trigger acts[r]} ::
      0 <= r < k && acts[r].Rolled? && acts[r].role == role && WellFounded(acts[r], gcp, version, since, written)
  }

  /** Why a role's pointer was written: a `migrated` report about the version, from when reports count, and for
      every role before it a group that was not empty, with no listed instance's last outcome a failure. */
  lemma WritesRestOnReports(acts: seq<Act>, gcp: bool, version: nat, since: int, written: map<Role, Option<int>>,
                            k: nat, i: nat)
    requires InOrder(acts) && forall a | a in acts :: WellFounded(a, gcp, version, since, written)
    requires k < |acts| && i < |ROLE_ORDER| && acts[k] == Wrote(ROLE_ORDER[i])
    ensures exists p :: 0 <= p < k && acts[p].Passed? && WellFounded(acts[p], gcp, version, since, written)
    ensures forall j | 0 <= j < i :: RolledBefore(acts, gcp, version, since, written, k, ROLE_ORDER[j])
  {
    var before := acts[..k];
    assert Ready(before, i);
    var p :| 0 <= p < |before| && before[p].Passed?;
    assert acts[p] in acts && acts[p].Passed?;
    forall j | 0 <= j < i ensures RolledBefore(acts, gcp, version, since, written, k, ROLE_ORDER[j]) {
      assert IsRolled(before, ROLE_ORDER[j]);
      var r :| 0 <= r < |before| && before[r].Rolled? && before[r].role == ROLE_ORDER[j];
      assert acts[r] in acts && acts[r].Rolled?;
    }
  }

  /** The order by name: task workers, workers, the API, the app, and the scheduler after all of them. */
  lemma SchedulerGoesLast(acts: seq<Act>, k: nat)
    requires InOrder(acts) && k < |acts| && acts[k].Wrote? && acts[k].role != Migrate
    ensures HasPassed(acts[..k])
    ensures acts[k].role == Worker ==> IsRolled(acts[..k], TaskWorker)
    ensures acts[k].role == Api ==> IsRolled(acts[..k], TaskWorker) && IsRolled(acts[..k], Worker)
    ensures acts[k].role == App ==>
              IsRolled(acts[..k], TaskWorker) && IsRolled(acts[..k], Worker) && IsRolled(acts[..k], Api)
    ensures acts[k].role == Scheduler ==>
              && IsRolled(acts[..k], TaskWorker) && IsRolled(acts[..k], Worker)
              && IsRolled(acts[..k], Api) && IsRolled(acts[..k], App)
  {
    var order := [TaskWorker, Worker, Api, App, Scheduler];
    assert order[0] == TaskWorker && order[1] == Worker && order[2] == Api && order[3] == App && order[4] == Scheduler;
    var i :| 0 <= i < |ROLE_ORDER| && acts[k].role == ROLE_ORDER[i] by { EveryRoleRolls(acts[k].role); }
    assert Ready(acts[..k], i);
    forall j | 0 <= j < i ensures IsRolled(acts[..k], order[j]) { assert order[j] == ROLE_ORDER[j]; }
  }

  lemma EveryRoleRolls(role: Role)
    requires role != Migrate
    ensures exists i :: 0 <= i < |ROLE_ORDER| && role == ROLE_ORDER[i]
  {
    match role
    case TaskWorker => assert ROLE_ORDER[0] == role;
    case Worker => assert ROLE_ORDER[1] == role;
    case Api => assert ROLE_ORDER[2] == role;
    case App => assert ROLE_ORDER[3] == role;
    case Scheduler => assert ROLE_ORDER[4] == role;
  }

  /** A pointer as it was. */
  predicate Untouched(before: map<Role, Pointer>, after: map<Role, Pointer>, role: Role)
  {
    (role in after <==> role in before) && (role in after ==> after[role] == before[role])
  }

  predicate Names(pointers: map<Role, Pointer>, role: Role, version: nat)
  {
    role in pointers && pointers[role].release == version
  }

  // -- the helper -----------------------------------------------------------------------------------

  /** A read of the log in a wait: from when, and whether it was read whole and settled nothing. */
  datatype Poll = Poll(from: int, ok: bool)

  ghost predicate HasRead(polls: seq<Poll>)
  {
    exists j {:trigger polls[j]} :: 0 <= j < |polls| && polls[j].ok
  }

  /** Each read starts at `first`, until one succeeded, and at `since` from then on. */
  ghost predicate ReadInTurn(polls: seq<Poll>, first: int, since: int)
  {
    forall i {:trigger polls[i]} | 0 <= i < |polls| :: polls[i].from == if HasRead(polls[..i]) then since else first
  }

  lemma OneMorePoll(polls: seq<Poll>, p: Poll, first: int, since: int)
    requires ReadInTurn(polls, first, since) && p.from == if HasRead(polls) then since else first
    ensures ReadInTurn(polls + [p], first, since)
    ensures HasRead(polls + [p]) <==> HasRead(polls) || p.ok
  {
    var more := polls + [p];
    forall i {:trigger more[i]} | 0 <= i < |more|
      ensures more[i].from == if HasRead(more[..i]) then since else first
    {
      assert more[..i] == if i < |polls| then polls[..i] else polls;
      if i < |polls| { assert more[i] == polls[i]; }
    }
    if HasRead(polls) {
      var j :| 0 <= j < |polls| && polls[j].ok;
      assert more[j].ok;
    }
    if p.ok { assert more[|polls|].ok; }
    if j :| 0 <= j < |more| && more[j].ok {
      assert j < |polls| ==> polls[j].ok;
    }
  }

  datatype Verdict = Waiting | RoleFailed(report: Report) | RoleDeployed(instances: set<nat>)

  datatype Ended = Success | Failure | Raised

  class Helper {
    const version: nat
    const gcp: bool
    const deadline: int
    const since: int
    var clock: int
    var pointers: map<Role, Pointer>
    var written: map<Role, Option<int>>    // when each pointer was written, if it named this version already
    ghost var acts: seq<Act>

    ghost predicate Valid()
      reads this
    {
      InOrder(acts) && forall a | a in acts :: WellFounded(a, gcp, version, since, written)
    }

    constructor (version: nat, gcp: bool, now: int, timeout: nat, pointers: map<Role, Pointer>)
      ensures Valid() && this.version == version && this.pointers == pointers && acts == []
      // Reports count from two minutes before the release began, and it ends once the time is up.
      ensures this.gcp == gcp && this.clock == now && this.since == now - 120 && this.deadline == now + timeout
    {
      this.version, this.gcp, this.clock, this.pointers := version, gcp, now, pointers;
      this.since, this.deadline := now - CLOCK_SKEW, now + timeout;
      this.written, this.acts := map[], [];
    }

    method Sleep()
      requires clock < deadline
      modifies `clock
      ensures old(clock) < clock
    {
      var passed: int :| passed > 0;
      clock := clock + passed;
    }

    // -- reads ---------------------------------------------------------------------------------

    /** The reports about this version from a time on, oldest first. */
    method Reports(from: int) returns (log: Read<seq<Report>>)
      ensures log.Found? ==> Counted(log.value, version, from)
    {
      log := Found([]);
      if * {
        log := Unread;
      } else {
        assert Counted([], version, from);
        var some: seq<Report> :| Counted(some, version, from);
        log := Found(some);
      }
    }

    /** The write time of a pointer that names the version before this run. */
    function Already(role: Role): Option<int>
      reads this
    {
      if Names(pointers, role, version) then Some(pointers[role].at) else None
    }

    /** Look at one pointer until a read succeeds or time is up. No failure counts as an answer. */
    method PointedSince(role: Role) returns (r: Read<Option<int>>)
      modifies `clock
      ensures r.Found? ==> r.value == Already(role)
      ensures r.Found? ==> r.value == if role in pointers && pointers[role].release == version
                                      then Some(pointers[role].at) else None
    {
      while true
        decreases deadline - clock
      {
        if * {
          r := Found(Already(role));
          return;
        }
        if * { return Unread; }  // a read that is denied for good
        if clock >= deadline { return Unread; }
        Sleep();
      }
    }

    // -- the migration -------------------------------------------------------------------------

    /** The newest report that settles the migration. `judging` and `listing` are the looks at the scheduler's group
        for each report: whether its failure stands, and then whether to say that it was set aside. */
    method Migration(reports: seq<Report>, judging: Looks, listing: Looks) returns (r: Read<Option<nat>>)
      ensures r.Found? && r.value.Some? ==> SettledAt(gcp, reports, judging, r.value.value)
      ensures r.Found? && r.value.None? ==> forall j | 0 <= j < |reports| :: PassedOver(gcp, reports[j], judging(j))
      // A look that fails is one that was needed: no later report settles it.
      ensures r.Unread? ==>
                exists k :: 0 <= k < |reports| && reports[k].state.MigrationFailed?
                            && !Settles(gcp, reports[k], judging(k)) && (judging(k).Unread? || listing(k).Unread?)
                            && forall j | k < j < |reports| :: PassedOver(gcp, reports[j], judging(j))
    {
      var i := |reports|;
      while i > 0
        invariant 0 <= i <= |reports|
        invariant forall j | i <= j < |reports| :: PassedOver(gcp, reports[j], judging(j))
      {
        i := i - 1;
        if reports[i].state.Migrated? { return Found(Some(i)); }
        if reports[i].state.MigrationFailed? {
          if judging(i).Unread? { return Unread; }
          if Stands(gcp, reports[i], judging(i).value) { return Found(Some(i)); }
          if listing(i).Unread? { return Unread; }
        }
      }
      r := Found(None);
    }

    /** Wait for the migration's report. Until a read succeeds, reads start where an earlier run's pointer counts. */
    method WaitForMigration()
      returns (r: Option<Report>, ghost k: nat, ghost log: seq<Report>, ghost looks: Looks, ghost polls: seq<Poll>)
      requires Migrate in written
      modifies `clock
      ensures r.Some? ==> SettledAt(gcp, log, looks, k) && log[k] == r.value
      ensures polls != []
      ensures ReadInTurn(polls, if written[Migrate].Some? then written[Migrate].value - 120 else since, since)
      ensures r.Some? ==> Counted(log, version, polls[|polls| - 1].from)
      ensures r.None? ==> clock >= deadline
    {
      k, log, looks, polls := 0, [], n => Unread, [];
      var from := CountsFrom(written[Migrate], since);
      while true
        invariant ReadInTurn(polls, CountsFrom(written[Migrate], since), since)
        invariant from == if HasRead(polls) then since else CountsFrom(written[Migrate], since)
        decreases deadline - clock
      {
        var read := Reports(from);
        ghost var before := polls;
        OneMorePoll(before, Poll(from, false), CountsFrom(written[Migrate], since), since);
        OneMorePoll(before, Poll(from, true), CountsFrom(written[Migrate], since), since);
        polls := polls + [Poll(from, false)];
        if read.Found? {
          var judging, listing: Looks := *, *;
          var found := Migration(read.value, judging, listing);
          if found.Found? {
            if found.value.Some? {
              return Some(read.value[found.value.value]), found.value.value, read.value, judging, polls;
            }
            polls := before + [Poll(from, true)];
            from := since;
          }
        }
        if clock >= deadline { return None, k, log, looks, polls; }
        Sleep();
      }
    }

    // -- one role --------------------------------------------------------------------------------

    /** A last outcome that is a failure, which on GCP must be found to stand. */
    ghost predicate FailureCounts(reports: seq<Report>, role: Role, judging: Looks, i: nat)
      reads this
    {
      var last := LastOutcome(reports, role, i);
      last.Some? && last.value.state.Failed? && (gcp ==> judging(i).Found? && Stands(gcp, last.value, judging(i).value))
    }

    /** A failure on GCP that could not be judged. */
    ghost predicate Unjudged(reports: seq<Report>, role: Role, judging: Looks, i: nat)
      reads this
    {
      var last := LastOutcome(reports, role, i);
      gcp && last.Some? && last.value.state.Failed? && judging(i).Unread?
    }

    /** The reports that are left once GCP's failures that do not stand are set aside. */
    method SetAside(latest: seq<Report>, judging: Looks) returns (r: Read<seq<Report>>)
      ensures r.Unread? <==> exists x :: x in latest && gcp && x.state.Failed? && judging(x.instance).Unread?
      ensures r.Found? ==>
                forall x :: x in r.value <==>
                  x in latest && (gcp && x.state.Failed? ==> Stands(gcp, x, judging(x.instance).value))
    {
      var standing: seq<Report> := [];
      for i := 0 to |latest|
        invariant forall x | x in latest[..i] && gcp && x.state.Failed? :: judging(x.instance).Found?
        invariant forall x :: x in standing <==>
                    x in latest[..i] && (gcp && x.state.Failed? ==> Stands(gcp, x, judging(x.instance).value))
      {
        var x := latest[i];
        assert latest[..i + 1] == latest[..i] + [x];
        if gcp && x.state.Failed? {
          if judging(x.instance).Unread? { return Unread; }
          if Stands(gcp, x, judging(x.instance).value) { standing := standing + [x]; }
        } else {
          standing := standing + [x];
        }
      }
      assert latest[..|latest|] == latest;
      r := Found(standing);
    }

    /** The last outcomes that count, of a group's instances. */
    method Standing(reports: seq<Report>, role: Role, instances: set<nat>, judging: Looks)
      returns (r: Read<seq<Report>>)
      ensures r.Unread? <==> exists i :: i in instances && Unjudged(reports, role, judging, i)
      ensures r.Found? ==>
                forall x :: x in r.value <==>
                  && x.instance in instances && LastOutcome(reports, role, x.instance) == Some(x)
                  && (x.state.Failed? ==> FailureCounts(reports, role, judging, x.instance))
    {
      var latest := LatestByInstance(Relevant(reports, role, instances));
      forall x ensures x in latest <==> x.instance in instances && LastOutcome(reports, role, x.instance) == Some(x) {
        NewestAreLastOutcomes(reports, role, instances, x);
      }
      r := SetAside(latest, judging);
      if r.Unread? {
        var x :| x in latest && gcp && x.state.Failed? && judging(x.instance).Unread?;
        assert Unjudged(reports, role, judging, x.instance);
      } else {
        forall i | i in instances ensures !Unjudged(reports, role, judging, i) {
          if LastOutcome(reports, role, i).Some? { assert LastOutcome(reports, role, i).value in latest; }
        }
      }
    }

    /** What one read of the log and of the group says about a role; `judging` is the look at an instance's group
        while its failure is judged. */
    method RoleVerdict(reports: seq<Report>, role: Role, listed: Read<Group>, judging: Looks) returns (v: Read<Verdict>)
      ensures v.Unread? <==> listed.Unread? || exists i :: i in listed.value && Unjudged(reports, role, judging, i)
      ensures v.Found? ==>
                (v.value.RoleFailed? <==> exists i :: i in listed.value && FailureCounts(reports, role, judging, i))
      ensures v.Found? && v.value.RoleFailed? ==>
                v.value.report.instance in listed.value
                && FailureCounts(reports, role, judging, v.value.report.instance)
                && LastOutcome(reports, role, v.value.report.instance) == Some(v.value.report)
      ensures v.Found? ==>
                (v.value.RoleDeployed? <==>
                   listed.value.Keys != {}
                   && forall i | i in listed.value ::
                        LastOutcome(reports, role, i).Some? && !LastOutcome(reports, role, i).value.state.Failed?)
      ensures v.Found? && v.value.RoleDeployed? ==> v.value.instances == listed.value.Keys
    {
      if listed.Unread? { return Unread; }
      var instances := listed.value.Keys;
      var standing := Standing(reports, role, instances, judging);
      if standing.Unread? { return Unread; }
      for i := 0 to |standing.value|
        invariant forall j | 0 <= j < i :: !standing.value[j].state.Failed?
      {
        var x := standing.value[i];
        if x.state.Failed? {
          assert x in standing.value;
          return Found(RoleFailed(x));
        }
      }
      forall i | i in instances && LastOutcome(reports, role, i).Some?
                 && LastOutcome(reports, role, i).value.state.Failed?
        ensures !FailureCounts(reports, role, judging, i)
      {
        assert LastOutcome(reports, role, i).value !in standing.value;
      }
      var answered := set k | 0 <= k < |standing.value| :: standing.value[k].instance;
      v := Found(if instances == {} || instances - answered != {} then Waiting else RoleDeployed(instances));
      forall i | i in instances
        ensures i in answered <==>
                  LastOutcome(reports, role, i).Some? && !LastOutcome(reports, role, i).value.state.Failed?
      {
        if LastOutcome(reports, role, i).Some? && !LastOutcome(reports, role, i).value.state.Failed? {
          assert LastOutcome(reports, role, i).value in standing.value;
        }
      }
      assert v.value.RoleDeployed? <==> instances != {} && forall i | i in instances :: i in answered by {
        assert forall i | i in instances && i !in answered :: i in instances - answered;
        if instances - answered != {} { var i :| i in instances - answered; }
      }
    }

    method WaitForRole(role: Role) returns (v: Verdict, ghost log: seq<Report>)
      requires role in written
      modifies `clock
      ensures v.RoleFailed? ==> v.report.state.Failed?
      ensures v.Waiting? ==> clock >= deadline
      ensures v.RoleDeployed? ==> WellFounded(Rolled(role, v.instances, log), gcp, version, since, written)
    {
      while true
        decreases deadline - clock
      {
        var read := Reports(CountsFrom(written[role], since));
        if read.Found? {
          var listed: Read<Group> := *;
          var judging: Looks := *;
          var verdict := RoleVerdict(read.value, role, listed, judging);
          if verdict.Found? && !verdict.value.Waiting? { return verdict.value, read.value; }
        }
        if clock >= deadline { return Waiting, []; }
        Sleep();
      }
    }

    // -- the release ---------------------------------------------------------------------------------

    /** Write a pointer. A write that fails may have been done. */
    method PointAt(role: Role) returns (ok: bool)
      requires Valid() && forall i | 0 <= i < |ROLE_ORDER| && role == ROLE_ORDER[i] :: Ready(acts, i)
      modifies `pointers, `acts
      ensures Valid() && acts == old(acts) + [Wrote(role)]
      ensures pointers == old(pointers) || pointers == old(pointers)[role := Pointer(version, clock)]
      ensures ok ==> Names(pointers, role, version)
    {
      StaysInOrder(acts, Wrote(role));
      acts := acts + [Wrote(role)];
      ok := *;
      var done: bool := *;
      if ok || done { pointers := pointers[role := Pointer(version, clock)]; }
    }

    /** Look at all pointers first: the release goes no further unless each could be read. */
    method ReadPointers() returns (ok: bool)
      modifies `clock, `written
      ensures ok ==> forall j | 0 <= j < |ALL_ROLES| ::
                       ALL_ROLES[j] in written && written[ALL_ROLES[j]] == Already(ALL_ROLES[j])
    {
      written := map[];
      for i := 0 to |ALL_ROLES|
        invariant forall j | 0 <= j < i :: ALL_ROLES[j] in written && written[ALL_ROLES[j]] == Already(ALL_ROLES[j])
      {
        var r := PointedSince(ALL_ROLES[i]);
        if r.Unread? { return false; }
        written := written[ALL_ROLES[i] := r.value];
      }
      ok := true;
    }

    /** Point the migration host at the version, unless it is, and wait for its word. */
    method MigrateFirst() returns (e: Ended)
      requires Valid() && acts == [] && Migrate in written && written[Migrate] == Already(Migrate)
      modifies `clock, `pointers, `acts
      ensures Valid() && (e.Success? ==> Ready(acts, 0) && Names(pointers, Migrate, version))
      ensures forall role | !Untouched(old(pointers), pointers, role) :: Wrote(role) in acts
      ensures forall role | role != Migrate :: Untouched(old(pointers), pointers, role)
      ensures written[Migrate].Some? ==> pointers == old(pointers)
    {
      if written[Migrate].None? {
        var ok := PointAt(Migrate);
        if !ok { return Raised; }
      }
      var report: Option<Report>;
      ghost var k, log, looks, polls;
      report, k, log, looks, polls := WaitForMigration();
      assert polls[|polls| - 1].from == since || polls[|polls| - 1].from == CountsFrom(written[Migrate], since);
      if report.None? || !report.value.state.Migrated? { return Failure; }
      StaysInOrder(acts, Passed(k, log, looks));
      acts := acts + [Passed(k, log, looks)];
      assert acts[|acts| - 1].Passed?;
      e := Success;
    }

    /** Point one role's hosts at the version, unless they are, and wait for all of them. */
    method Roll(i: nat) returns (e: Ended, instances: set<nat>)
      requires Valid() && i < |ROLE_ORDER| && ROLE_ORDER[i] in written && Ready(acts, i)
      modifies `clock, `pointers, `acts
      ensures Valid() && Ready(acts, i) && (e.Success? ==> Ready(acts, i + 1) && instances != {})
      ensures old(acts) <= acts && forall role | !Untouched(old(pointers), pointers, role) :: Wrote(role) in acts
      ensures forall role | role != ROLE_ORDER[i] :: Untouched(old(pointers), pointers, role)
      ensures written[ROLE_ORDER[i]].Some? ==> pointers == old(pointers)
      ensures e.Success? && written[ROLE_ORDER[i]].None? ==> Names(pointers, ROLE_ORDER[i], version)
    {
      var role := ROLE_ORDER[i];
      instances := {};
      if written[role].None? {
        forall k | 0 <= k < |ROLE_ORDER| && role == ROLE_ORDER[k] ensures k == i { DistinctRoles(i, k); }
        ghost var before := acts;
        var ok := PointAt(role);
        StaysReady(before, Wrote(role), i);
        if !ok { return Raised, {}; }
      }
      var v: Verdict;
      ghost var log: seq<Report>;
      v, log := WaitForRole(role);
      if !v.RoleDeployed? { return Failure, {}; }
      StaysReady(acts, Rolled(role, v.instances, log), i);
      IsReadyNext(acts, v.instances, log, i);
      StaysInOrder(acts, Rolled(role, v.instances, log));
      acts := acts + [Rolled(role, v.instances, log)];
      e, instances := Success, v.instances;
    }

    /** Roll the roles in order, as far as they go. */
    method RollAll() returns (e: Ended, rolled: nat)
      requires Valid() && Ready(acts, 0)
      requires forall j | 0 <= j < |ROLE_ORDER| ::
                 ROLE_ORDER[j] in written && written[ROLE_ORDER[j]] == Already(ROLE_ORDER[j])
      modifies `clock, `pointers, `acts
      ensures Valid() && rolled <= |ROLE_ORDER| && Ready(acts, rolled)
      ensures old(acts) <= acts && forall role | !Untouched(old(pointers), pointers, role) :: Wrote(role) in acts
      ensures e.Success? <==> rolled == |ROLE_ORDER|
      ensures forall j | 0 <= j < rolled :: Names(pointers, ROLE_ORDER[j], version)
      ensures forall j | rolled < j < |ROLE_ORDER| :: Untouched(old(pointers), pointers, ROLE_ORDER[j])
      ensures forall role | Names(old(pointers), role, version) || role == Migrate ::
                Untouched(old(pointers), pointers, role)
    {
      rolled := 0;
      while rolled < |ROLE_ORDER|
        invariant 0 <= rolled <= |ROLE_ORDER| && Valid() && Ready(acts, rolled)
        invariant forall j | 0 <= j < rolled :: Names(pointers, ROLE_ORDER[j], version)
        invariant forall j | rolled <= j < |ROLE_ORDER| :: Untouched(old(pointers), pointers, ROLE_ORDER[j])
        invariant forall role | Names(old(pointers), role, version) || role == Migrate ::
                    Untouched(old(pointers), pointers, role)
        invariant old(acts) <= acts && forall role | !Untouched(old(pointers), pointers, role) :: Wrote(role) in acts
      {
        ghost var before, done := pointers, acts;
        var instances: set<nat>;
        e, instances := Roll(rolled);
        OthersStay(old(pointers), before, pointers, version, rolled);
        forall role | !Untouched(old(pointers), pointers, role) ensures Wrote(role) in acts {
          if Untouched(before, pointers, role) { assert Wrote(role) in done; }
        }
        if !e.Success? { return; }
        rolled := rolled + 1;
      }
      e := Success;
    }

    /** The whole release. `rolled` is how many roles finished, always the first ones in order. */
    method Release() returns (e: Ended, rolled: nat)
      requires Valid() && acts == []
      modifies `clock, `pointers, `acts, `written
      ensures Valid() && rolled <= |ROLE_ORDER|
      ensures e.Success? <==> rolled == 5
      ensures rolled > 0 ==> Ready(acts, rolled) && Names(pointers, Migrate, version)
      // A pointer changes only by a write on this account, which is in order and well founded.
      ensures forall role | !Untouched(old(pointers), pointers, role) :: Wrote(role) in acts
      // Every role that finished points at the version, and none after the one it stopped at was touched.
      ensures forall j | 0 <= j < rolled :: Names(pointers, ROLE_ORDER[j], version)
      ensures forall j | rolled < j < |ROLE_ORDER| :: Untouched(old(pointers), pointers, ROLE_ORDER[j])
      // A pointer that named the version already is never written again.
      ensures forall role | Names(old(pointers), role, version) :: Untouched(old(pointers), pointers, role)
    {
      var ok := ReadPointers();
      if !ok { return Failure, 0; }
      assert ALL_ROLES[0] == Migrate && forall j | 0 <= j < |ROLE_ORDER| :: ALL_ROLES[j + 1] == ROLE_ORDER[j];
      e := MigrateFirst();
      ghost var migrated, done := pointers, acts;
      if !e.Success? { return e, 0; }
      forall j | 0 <= j < |ROLE_ORDER|
        ensures ROLE_ORDER[j] in written && written[ROLE_ORDER[j]] == Already(ROLE_ORDER[j])
      {
        assert ALL_ROLES[j + 1] in written && Untouched(old(pointers), pointers, ROLE_ORDER[j]);
      }
      e, rolled := RollAll();
      forall role | !Untouched(old(pointers), pointers, role) ensures Wrote(role) in acts {
        if Untouched(migrated, pointers, role) { assert Wrote(role) in done; }
      }
      forall role | Untouched(old(pointers), migrated, role) && Untouched(migrated, pointers, role)
        ensures Untouched(old(pointers), pointers, role)
      {
      }
    }
  }

  /** Rolling the `i`th role touches no other, nor its own if that named the version already. */
  lemma OthersStay(first: map<Role, Pointer>, before: map<Role, Pointer>, after: map<Role, Pointer>, version: nat,
                   i: nat)
    requires i < |ROLE_ORDER|
    requires forall role | role != ROLE_ORDER[i] :: Untouched(before, after, role)
    requires Names(first, ROLE_ORDER[i], version) ==> after == before
    requires forall j | 0 <= j < i :: Names(before, ROLE_ORDER[j], version)
    requires forall j | i <= j < |ROLE_ORDER| :: Untouched(first, before, ROLE_ORDER[j])
    requires forall role | Names(first, role, version) || role == Migrate :: Untouched(first, before, role)
    ensures forall j | 0 <= j < i :: Names(after, ROLE_ORDER[j], version)
    ensures forall j | i < j < |ROLE_ORDER| :: Untouched(first, after, ROLE_ORDER[j])
    ensures forall role | Names(first, role, version) || role == Migrate :: Untouched(first, after, role)
  {
    forall j | 0 <= j < i ensures Names(after, ROLE_ORDER[j], version) {
      assert Names(before, ROLE_ORDER[j], version) && Untouched(before, after, ROLE_ORDER[j]);
    }
    forall j | i < j < |ROLE_ORDER| ensures Untouched(first, after, ROLE_ORDER[j]) {
      assert Untouched(first, before, ROLE_ORDER[j]) && Untouched(before, after, ROLE_ORDER[j]);
    }
    forall role | Names(first, role, version) || role == Migrate ensures Untouched(first, after, role) {
      assert Untouched(first, before, role);
      if role != ROLE_ORDER[i] { assert Untouched(before, after, role); }
    }
  }

  lemma DistinctRoles(i: nat, k: nat)
    requires i < |ROLE_ORDER| && k < |ROLE_ORDER| && ROLE_ORDER[i] == ROLE_ORDER[k]
    ensures i == k
  {
  }
}
